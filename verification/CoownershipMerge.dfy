/**
 Merging replicas of a shared-owner ledger. Read as certificates and their approvals, the merge is
 a union; the sorted result is the canonical form of what it holds, and is refused when it does not fit.
 */
module CoownershipMerge {
  import opened Wrappers
  import opened Ordering
  import opened Finite
  import opened Coownership
  import opened CoownershipWalk

  // ----- What a list of records holds -----

  /** Each certificate with each of its approvals. */
  ghost function Pairs(records: seq<Record>): set<(Payload, Approval)> {
    set r, a | r in records && a in r.approvals :: (r.payload, a)
  }

  ghost function PairsOf(r: Record): set<(Payload, Approval)> {
    set a | a in r.approvals :: (r.payload, a)
  }

  lemma PairsConcat(a: seq<Record>, b: seq<Record>)
    ensures Pairs(a + b) == Pairs(a) + Pairs(b) && Payloads(a + b) == Payloads(a) + Payloads(b)
  {
    forall x | x in Pairs(a) + Pairs(b) ensures x in Pairs(a + b) {
      var r :| (r in a || r in b) && r.payload == x.0 && x.1 in r.approvals;
      assert r in a + b;
    }
    forall p | p in Payloads(a) + Payloads(b) ensures p in Payloads(a + b) {
      var r :| (r in a || r in b) && r.payload == p;
      assert r in a + b;
    }
  }

  lemma PairsOne(r: Record)
    ensures Pairs([r]) == PairsOf(r) && Payloads([r]) == {r.payload}
  {
    assert r in [r];
  }

  lemma PairsAt(records: seq<Record>, r: Record, a: Approval)
    requires DistinctPayloads(records) && r in records
    ensures (r.payload, a) in Pairs(records) <==> a in r.approvals
  {
    if (r.payload, a) in Pairs(records) {
      var x :| x in records && x.payload == r.payload && a in x.approvals;
      SamePayload(records, x, r);
    }
  }

  // ----- Approvals -----

  predicate ApprovalLess(a: Approval, b: Approval) {
    StrLess(a.signerKeyId, b.signerKeyId) || (a.signerKeyId == b.signerKeyId && StrLess(a.signature, b.signature))
  }

  lemma ApprovalOrder()
    ensures StrictOrder(ApprovalLess) && PartialOrder(ApprovalLess)
  {
    StrOrder();
  }

  /** Appends the approvals that are not there yet, then sorts. */
  method MergeApprovals(current: seq<Approval>, incoming: seq<Approval>) returns (merged: seq<Approval>)
    requires Distinct(current)
    ensures Distinct(merged) && Sorted(ApprovalLess, merged)
    ensures Elements(merged) == Elements(current) + Elements(incoming)
  {
    var all := current;
    for i := 0 to |incoming|
      invariant Distinct(all) && Elements(all) == Elements(current) + Elements(incoming[..i])
    {
      var a := incoming[i];
      assert incoming[..i + 1] == incoming[..i] + [a];
      ElementsConcat(incoming[..i], [a]);
      ElementsConcat(all, [a]);
      assert Elements([a]) == {a} && (a in all <==> a in Elements(all));
      if a !in all {
        all := all + [a];
      }
    }
    assert incoming[..|incoming|] == incoming;
    merged := Sort(ApprovalLess, all);
    SortedApprovals(all);
  }

  lemma SortedApprovals(q: seq<Approval>)
    requires Distinct(q)
    ensures var r := Sort(ApprovalLess, q);
            Distinct(r) && Sorted(ApprovalLess, r) && Elements(r) == Elements(q) && |r| == |q|
  {
    ApprovalOrder();
    SortSorted(ApprovalLess, q);
    SortElements(ApprovalLess, q);
    SortedDistinct(ApprovalLess, Sort(ApprovalLess, q));
  }

  // ----- Records -----

  ghost predicate DistinctApprovals(records: seq<Record>) {
    forall r :: r in records ==> Distinct(r.approvals)
  }

  /** Merges one record into the list: its approvals join an equal payload, or it is appended. */
  method MergeRecord(records: seq<Record>, r: Record) returns (merged: seq<Record>)
    requires DistinctPayloads(records) && DistinctApprovals(records) && Distinct(r.approvals)
    ensures DistinctPayloads(merged) && DistinctApprovals(merged)
    ensures Pairs(merged) == Pairs(records) + PairsOf(r) && Payloads(merged) == Payloads(records) + {r.payload}
  {
    var i := 0;
    while i < |records| && records[i].payload != r.payload
      invariant 0 <= i <= |records| && forall k :: 0 <= k < i ==> records[k].payload != r.payload
    {
      i := i + 1;
    }
    if i < |records| {
      assert records[i] in records;
      var approvals := MergeApprovals(records[i].approvals, r.approvals);
      merged := records[..i] + [Record(r.payload, approvals)] + records[i + 1..];
      ReplacedRecord(records, i, r, approvals);
      ReplacedDistinct(records, i, Record(r.payload, approvals));
    } else {
      merged := records + [r];
      AppendedRecord(records, r);
    }
  }

  lemma ReplacedRecord(records: seq<Record>, i: nat, r: Record, approvals: seq<Approval>)
    requires i < |records| && records[i].payload == r.payload
    requires Elements(approvals) == Elements(records[i].approvals) + Elements(r.approvals)
    ensures var merged := records[..i] + [Record(r.payload, approvals)] + records[i + 1..];
            Pairs(merged) == Pairs(records) + PairsOf(r) && Payloads(merged) == Payloads(records) + {r.payload}
  {
    var before, was, now, after := records[..i], records[i], Record(r.payload, approvals), records[i + 1..];
    assert records == before + [was] + after;
    PairsAround(before, was, after);
    PairsAround(before, now, after);
    PairsJoin(was, r, now);
  }

  lemma ReplacedDistinct(records: seq<Record>, i: nat, now: Record)
    requires DistinctPayloads(records) && DistinctApprovals(records) && i < |records|
             && records[i].payload == now.payload
    requires Distinct(now.approvals)
    ensures DistinctPayloads(records[..i] + [now] + records[i + 1..])
            && DistinctApprovals(records[..i] + [now] + records[i + 1..])
  {
    var merged := records[..i] + [now] + records[i + 1..];
    assert DistinctPayloads(merged) by {
      assert merged == records[i := now];
      SamePayloadOrder(records, merged);
    }
    forall r | r in merged ensures Distinct(r.approvals) {
      assert r in records || r == now;
    }
  }

  lemma PairsJoin(a: Record, b: Record, both: Record)
    requires a.payload == b.payload == both.payload
    requires Elements(both.approvals) == Elements(a.approvals) + Elements(b.approvals)
    ensures PairsOf(both) == PairsOf(a) + PairsOf(b)
  {
    assert forall x :: x in both.approvals <==> x in Elements(both.approvals);
  }

  lemma SamePayloadOrder(records: seq<Record>, merged: seq<Record>)
    requires DistinctPayloads(records) && |merged| == |records|
    requires forall k :: 0 <= k < |merged| ==> merged[k].payload == records[k].payload
    ensures DistinctPayloads(merged)
  {
  }

  lemma PairsAround(before: seq<Record>, r: Record, after: seq<Record>)
    ensures Pairs(before + [r] + after) == Pairs(before) + PairsOf(r) + Pairs(after)
    ensures Payloads(before + [r] + after) == Payloads(before) + {r.payload} + Payloads(after)
  {
    PairsConcat(before + [r], after);
    PairsConcat(before, [r]);
    PairsOne(r);
  }

  lemma AppendedRecord(records: seq<Record>, r: Record)
    requires DistinctPayloads(records) && DistinctApprovals(records) && Distinct(r.approvals)
    requires forall k :: 0 <= k < |records| ==> records[k].payload != r.payload
    ensures DistinctPayloads(records + [r]) && DistinctApprovals(records + [r])
    ensures Pairs(records + [r]) == Pairs(records) + PairsOf(r)
            && Payloads(records + [r]) == Payloads(records) + {r.payload}
  {
    PairsConcat(records, [r]);
    PairsOne(r);
  }

  lemma PairsSnoc(records: seq<Record>, i: nat)
    requires i < |records|
    ensures Pairs(records[..i + 1]) == Pairs(records[..i]) + PairsOf(records[i])
    ensures Payloads(records[..i + 1]) == Payloads(records[..i]) + {records[i].payload}
  {
    assert records[..i + 1] == records[..i] + [records[i]];
    PairsConcat(records[..i], [records[i]]);
    PairsOne(records[i]);
  }

  method MergeRecords(base: seq<Record>, others: seq<Record>) returns (merged: seq<Record>)
    requires DistinctPayloads(base) && DistinctApprovals(base) && DistinctApprovals(others)
    ensures DistinctPayloads(merged) && DistinctApprovals(merged)
    ensures Pairs(merged) == Pairs(base) + Pairs(others) && Payloads(merged) == Payloads(base) + Payloads(others)
  {
    merged := base;
    for i := 0 to |others|
      invariant DistinctPayloads(merged) && DistinctApprovals(merged)
      invariant Pairs(merged) == Pairs(base) + Pairs(others[..i])
      invariant Payloads(merged) == Payloads(base) + Payloads(others[..i])
    {
      assert others[i] in others;
      PairsSnoc(others, i);
      merged := MergeRecord(merged, others[i]);
    }
    assert others[..|others|] == others;
  }

  // ----- The canonical form -----

  function RecordLess(env: Env): (Record, Record) -> bool {
    (a: Record, b: Record) => env.less(HashOf(a.payload), HashOf(b.payload))
  }

  lemma RecordOrder(env: Env)
    requires StrictOrder(env.less)
    ensures PartialOrder(RecordLess(env))
  {
    var less := RecordLess(env);
    forall a: Record, b: Record, c: Record ensures !less(a, a) && (less(a, b) && less(b, c) ==> less(a, c)) {
      var x, y, z := HashOf(a.payload), HashOf(b.payload), HashOf(c.payload);
      assert !env.less(x, x);
      assert env.less(x, y) && env.less(y, z) ==> env.less(x, z);
    }
  }

  function Tidy(r: Record): Record {
    Record(r.payload, Sort(ApprovalLess, r.approvals))
  }

  function SortRecords(env: Env, records: seq<Record>): seq<Record> {
    Sort(RecordLess(env), seq(|records|, i requires 0 <= i < |records| => Tidy(records[i])))
  }

  /** Records in hash order, approvals in signer order. */
  ghost predicate Canonical(env: Env, records: seq<Record>) {
    && DistinctPayloads(records) && DistinctApprovals(records) && Sorted(RecordLess(env), records)
    && forall r :: r in records ==> Sorted(ApprovalLess, r.approvals)
  }

  /** A canonical list is determined by what it holds. */
  lemma CanonicalUnique(env: Env, a: seq<Record>, b: seq<Record>)
    requires StrictOrder(env.less) && Canonical(env, a) && Canonical(env, b)
    requires Pairs(a) == Pairs(b) && Payloads(a) == Payloads(b)
    ensures a == b
  {
    forall r ensures r in a <==> r in b {
      if r in a { SameRecord(env, a, b, r); }
      if r in b { SameRecord(env, b, a, r); }
    }
    RecordOrder(env);
    SortedUnique(RecordLess(env), a, b);
  }

  lemma SameRecord(env: Env, a: seq<Record>, b: seq<Record>, r: Record)
    requires Canonical(env, a) && Canonical(env, b) && Pairs(a) == Pairs(b) && Payloads(a) == Payloads(b) && r in a
    ensures r in b
  {
    assert r.payload in Payloads(b);
    var x :| x in b && x.payload == r.payload;
    forall p ensures p in r.approvals <==> p in x.approvals {
      PairsAt(a, r, p);
      PairsAt(b, x, p);
    }
    ApprovalOrder();
    SortedUnique(ApprovalLess, r.approvals, x.approvals);
  }

  lemma SortedRecords(env: Env, records: seq<Record>)
    requires StrictOrder(env.less) && DistinctPayloads(records) && DistinctApprovals(records)
    ensures Canonical(env, SortRecords(env, records)) && |SortRecords(env, records)| == |records|
    ensures Pairs(SortRecords(env, records)) == Pairs(records)
            && Payloads(SortRecords(env, records)) == Payloads(records)
    ensures forall r :: r in SortRecords(env, records) ==>
            exists x :: x in records && x.payload == r.payload && |x.approvals| == |r.approvals|
  {
    var tidy := seq(|records|, i requires 0 <= i < |records| => Tidy(records[i]));
    forall i | 0 <= i < |tidy| ensures Tidies(records[i], tidy[i]) {
      assert records[i] in records;
      SortedApprovals(records[i].approvals);
    }
    TidyRecords(records, tidy);
    RecordOrder(env);
    forall i, j | 0 <= i < j < |tidy| ensures RecordLess(env)(tidy[i], tidy[j]) || RecordLess(env)(tidy[j], tidy[i]) {
      assert HashOf(tidy[i].payload) != HashOf(tidy[j].payload);
    }
    SortSorted(RecordLess(env), tidy);
    SortElements(RecordLess(env), tidy);
    SameElements(tidy, SortRecords(env, records));
    SortedPayloads(env, SortRecords(env, records));
  }

  lemma SortedPayloads(env: Env, records: seq<Record>)
    requires StrictOrder(env.less) && Sorted(RecordLess(env), records)
    ensures DistinctPayloads(records)
  {
    forall i, j | 0 <= i < j < |records| ensures records[i].payload != records[j].payload {
      assert RecordLess(env)(records[i], records[j]);
    }
  }

  lemma SameElements(a: seq<Record>, b: seq<Record>)
    requires forall r :: r in a <==> r in b
    ensures Pairs(a) == Pairs(b) && Payloads(a) == Payloads(b)
  {
  }

  /** The same certificate with the same approvals, in signer order. */
  ghost predicate Tidies(r: Record, t: Record) {
    && t.payload == r.payload && |t.approvals| == |r.approvals| && Elements(t.approvals) == Elements(r.approvals)
    && Distinct(t.approvals) && Sorted(ApprovalLess, t.approvals)
  }

  lemma TidyPairs(records: seq<Record>, tidy: seq<Record>)
    requires |tidy| == |records| && forall i :: 0 <= i < |tidy| ==> PairsOf(tidy[i]) == PairsOf(records[i])
    requires forall i :: 0 <= i < |tidy| ==> tidy[i].payload == records[i].payload
    ensures Pairs(tidy) <= Pairs(records) && Payloads(tidy) <= Payloads(records)
  {
    forall x | x in Pairs(tidy) ensures x in Pairs(records) {
      var r :| r in tidy && r.payload == x.0 && x.1 in r.approvals;
      var i :| 0 <= i < |tidy| && tidy[i] == r;
      assert x in PairsOf(records[i]) && records[i] in records;
    }
    forall p | p in Payloads(tidy) ensures p in Payloads(records) {
      var i :| 0 <= i < |tidy| && tidy[i].payload == p;
      assert records[i] in records;
    }
  }

  lemma TidyPair(r: Record, t: Record)
    requires Tidies(r, t)
    ensures PairsOf(t) == PairsOf(r)
  {
    assert forall a :: a in r.approvals <==> a in Elements(r.approvals);
    assert forall a :: a in t.approvals <==> a in Elements(t.approvals);
  }

  lemma TidyRecords(records: seq<Record>, tidy: seq<Record>)
    requires DistinctPayloads(records) && |tidy| == |records|
    requires forall i :: 0 <= i < |tidy| ==> Tidies(records[i], tidy[i])
    ensures Pairs(tidy) == Pairs(records) && Payloads(tidy) == Payloads(records) && DistinctPayloads(tidy)
    ensures forall r :: r in tidy ==> Distinct(r.approvals) && Sorted(ApprovalLess, r.approvals)
    ensures forall r :: r in tidy ==>
            exists x :: x in records && x.payload == r.payload && |x.approvals| == |r.approvals|
  {
    forall i | 0 <= i < |tidy| ensures PairsOf(tidy[i]) == PairsOf(records[i]) && records[i] in records {
      TidyPair(records[i], tidy[i]);
    }
    TidyPairs(records, tidy);
    TidyPairs(tidy, records);
    SamePayloadOrder(records, tidy);
  }

  // ----- Ledgers -----

  /** `m` holds exactly what the two lists hold, in canonical form. */
  ghost predicate IsUnion(env: Env, a: seq<Record>, b: seq<Record>, m: seq<Record>) {
    && Canonical(env, m)
    && Payloads(m) == Payloads(a) + Payloads(b)
    && Pairs(m) == Pairs(a) + Pairs(b)
  }

  /** `m` holds exactly what the two ledgers hold, in canonical form, under the second one's genesis record. */
  ghost predicate IsMerge(env: Env, a: Ledger, b: Ledger, m: Ledger) {
    && m.genesis == b.genesis
    && IsUnion(env, a.transitions, b.transitions, m.transitions)
    && IsUnion(env, a.resolutions, b.resolutions, m.resolutions)
  }

  ghost predicate Fits(env: Env, ledger: Ledger) {
    WithinLimits(env, ledger) && forall r :: r in Records(ledger) ==> |r.approvals| <= MAX_APPROVALS
  }

  ghost predicate Mergeable(env: Env, a: Ledger, b: Ledger) {
    && ValidLedger(env, a) && ValidLedger(env, b) && a.genesis.payload == b.genesis.payload
    && exists m :: IsMerge(env, a, b, m) && Fits(env, m)
  }

  lemma MergeUnique(env: Env, a: Ledger, b: Ledger, m: Ledger, m': Ledger)
    requires StrictOrder(env.less) && IsMerge(env, a, b, m) && IsMerge(env, a, b, m')
    ensures m == m'
  {
    CanonicalUnique(env, m.transitions, m'.transitions);
    CanonicalUnique(env, m.resolutions, m'.resolutions);
  }

  lemma ValidLists(env: Env, ledger: Ledger)
    requires ValidLedger(env, ledger)
    ensures DistinctPayloads(ledger.transitions) && DistinctApprovals(ledger.transitions)
    ensures DistinctPayloads(ledger.resolutions) && DistinctApprovals(ledger.resolutions)
  {
    PartsDistinct(ledger.transitions, ledger.resolutions);
    forall r | r in ledger.transitions || r in ledger.resolutions ensures Distinct(r.approvals) {
      assert r in Records(ledger) && Good(env, r);
    }
  }

  lemma PartsDistinct(a: seq<Record>, b: seq<Record>)
    requires DistinctPayloads(a + b)
    ensures DistinctPayloads(a) && DistinctPayloads(b)
  {
    var all := a + b;
    forall i, j | 0 <= i < j < |a| ensures a[i].payload != a[j].payload {
      assert all[i] == a[i] && all[j] == a[j];
    }
    forall i, j | 0 <= i < j < |b| ensures b[i].payload != b[j].payload {
      assert all[|a| + i] == b[i] && all[|a| + j] == b[j];
    }
  }

  lemma KindsDistinct(a: seq<Record>, b: seq<Record>)
    requires DistinctPayloads(a) && DistinctPayloads(b)
    requires (forall r :: r in a ==> r.payload.Transition?) && (forall r :: r in b ==> r.payload.Resolution?)
    ensures DistinctPayloads(a + b)
  {
    var all := a + b;
    forall i, j | 0 <= i < j < |all| ensures all[i].payload != all[j].payload {
      if i < |a| <= j {
        assert all[i] in a && all[j] in b;
      }
    }
  }

  /** Approvals by signer and signature, records by hash: the canonical form of the same holdings. */
  method SortLedger(env: Env, ledger: Ledger) returns (sorted: Ledger)
    requires StrictOrder(env.less) && DistinctPayloads(ledger.transitions) && DistinctApprovals(ledger.transitions)
    requires DistinctPayloads(ledger.resolutions) && DistinctApprovals(ledger.resolutions)
    ensures sorted.genesis == ledger.genesis && Canonical(env, sorted.transitions) && Canonical(env, sorted.resolutions)
    ensures Pairs(sorted.transitions) == Pairs(ledger.transitions)
            && Payloads(sorted.transitions) == Payloads(ledger.transitions)
    ensures Pairs(sorted.resolutions) == Pairs(ledger.resolutions)
            && Payloads(sorted.resolutions) == Payloads(ledger.resolutions)
  {
    SortedRecords(env, ledger.transitions);
    SortedRecords(env, ledger.resolutions);
    sorted := Ledger(ledger.genesis, SortRecords(env, ledger.transitions), SortRecords(env, ledger.resolutions));
  }

  /** Accepts exactly valid ledgers of one genesis whose union is within the limits, and returns that union. */
  method MergeLedgers(env: Env, current: Option<Ledger>, incoming: Ledger) returns (r: Result<Ledger, LedgerError>)
    requires StrictOrder(env.less) && WellTyped(incoming) && (current.Some? ==> WellTyped(current.value))
    ensures r.Ok? <==> if current.None? then ValidLedger(env, incoming) else Mergeable(env, current.value, incoming)
    ensures r.Ok? && current.None? ==> IsMerge(env, incoming, incoming, r.value)
    ensures r.Ok? && current.Some? ==> IsMerge(env, current.value, incoming, r.value) && ValidLedger(env, r.value)
  {
    var right := BuildGraph(env, incoming);
    if current.None? {
      if right.Err? {
        return Err(right.error);
      }
      ValidLists(env, incoming);
      var sorted := SortLedger(env, incoming);
      return Ok(sorted);
    }
    var left := BuildGraph(env, current.value);
    if left.Err? {
      return Err(left.error);
    }
    if right.Err? {
      return Err(right.error);
    }
    if left.value.genesisHash != right.value.genesisHash {
      return Err(GenesisChanged);
    }
    var merged := MergedLists(env, current.value, incoming);
    var graph := BuildGraph(env, merged);
    ExactlyMergeable(env, current.value, incoming, merged);
    r := if graph.Ok? then Ok(merged) else Err(graph.error);
  }

  method MergedLists(env: Env, current: Ledger, incoming: Ledger) returns (merged: Ledger)
    requires StrictOrder(env.less) && ValidLedger(env, current) && ValidLedger(env, incoming)
    ensures IsMerge(env, current, incoming, merged) && WellTyped(merged)
  {
    ValidLists(env, current);
    ValidLists(env, incoming);
    var transitions := MergeRecords(incoming.transitions, current.transitions);
    var resolutions := MergeRecords(incoming.resolutions, current.resolutions);
    merged := SortLedger(env, Ledger(incoming.genesis, transitions, resolutions));
    MergeTyped(env, current, incoming, merged);
  }

  lemma MergeTyped(env: Env, a: Ledger, b: Ledger, m: Ledger)
    requires WellTyped(a) && WellTyped(b) && IsMerge(env, a, b, m)
    ensures WellTyped(m)
  {
    forall r | r in m.transitions ensures r.payload.Transition? {
      assert r.payload in Payloads(m.transitions);
    }
    forall r | r in m.resolutions ensures r.payload.Resolution? {
      assert r.payload in Payloads(m.resolutions);
    }
  }

  lemma ExactlyMergeable(env: Env, a: Ledger, b: Ledger, m: Ledger)
    requires StrictOrder(env.less) && ValidLedger(env, a) && ValidLedger(env, b)
             && a.genesis.payload == b.genesis.payload
    requires IsMerge(env, a, b, m)
    ensures Mergeable(env, a, b) <==> ValidLedger(env, m)
  {
    if Mergeable(env, a, b) {
      var m' :| IsMerge(env, a, b, m') && Fits(env, m');
      MergeUnique(env, a, b, m, m');
      MergeValid(env, a, b, m);
    }
    if ValidLedger(env, m) {
      forall r | r in Records(m) ensures |r.approvals| <= MAX_APPROVALS {
        assert Good(env, r);
      }
      assert Fits(env, m);
    }
  }

  // ----- The union of valid ledgers is valid -----

  lemma AllPairs(a: Ledger)
    ensures Payloads(Records(a)) == Payloads(a.transitions) + Payloads(a.resolutions)
    ensures Pairs(Records(a)) == Pairs(a.transitions) + Pairs(a.resolutions)
  {
    PairsConcat(a.transitions, a.resolutions);
  }

  lemma MergedRecords(env: Env, a: Ledger, b: Ledger, m: Ledger)
    requires WellTyped(a) && WellTyped(b) && IsMerge(env, a, b, m)
    ensures DistinctPayloads(Records(m)) && DistinctApprovals(Records(m))
    ensures Payloads(Records(m)) == Payloads(Records(a)) + Payloads(Records(b))
    ensures Pairs(Records(m)) == Pairs(Records(a)) + Pairs(Records(b))
  {
    MergeTyped(env, a, b, m);
    AllPairs(a);
    AllPairs(b);
    AllPairs(m);
    KindsDistinct(m.transitions, m.resolutions);
  }

  /** More approvals of the same certificate keep it approved, as long as each is one a valid ledger holds. */
  lemma MoreApprovals(env: Env, few: Record, many: Record)
    requires Good(env, few) && few.payload == many.payload && Distinct(many.approvals)
             && |many.approvals| <= MAX_APPROVALS
    requires forall x :: x in few.approvals ==> x in many.approvals
    requires forall x :: x in many.approvals ==>
             GoodApproval(env, few.payload, NodeOf(few.payload.parent.payload).owners, x)
    ensures Good(env, many)
  {
    var p, owners := few.payload, NodeOf(few.payload.parent.payload).owners;
    assert few.approvals[0] in many.approvals;
    SubsetSize(People(env, p, few.approvals, owners), People(env, p, many.approvals, owners));
  }

  lemma HolderOf(env: Env, genesis: Payload, records: seq<Record>, p: Payload, x: Approval)
    requires ValidRecords(env, genesis, records) && (p, x) in Pairs(records)
    ensures !p.Genesis? && p.parent.HashOf? && GoodApproval(env, p, NodeOf(p.parent.payload).owners, x)
  {
    var r :| r in records && r.payload == p && x in r.approvals;
    assert Good(env, r);
  }

  lemma MergedGood(env: Env, genesis: Payload, a: seq<Record>, b: seq<Record>, m: seq<Record>, r: Record)
    requires ValidRecords(env, genesis, a) && ValidRecords(env, genesis, b)
    requires DistinctPayloads(m) && DistinctApprovals(m) && r in m && |r.approvals| <= MAX_APPROVALS
    requires Payloads(m) == Payloads(a) + Payloads(b) && Pairs(m) == Pairs(a) + Pairs(b)
    ensures Good(env, r)
  {
    assert r.payload in Payloads(m);
    var few :| (few in a || few in b) && few.payload == r.payload;
    assert Good(env, few);
    forall x | x in few.approvals ensures x in r.approvals {
      assert (few.payload, x) in Pairs(m);
      PairsAt(m, r, x);
    }
    forall x | x in r.approvals ensures GoodApproval(env, r.payload, NodeOf(r.payload.parent.payload).owners, x) {
      assert (r.payload, x) in Pairs(m);
      if (r.payload, x) in Pairs(a) {
        HolderOf(env, genesis, a, r.payload, x);
      } else {
        HolderOf(env, genesis, b, r.payload, x);
      }
    }
    MoreApprovals(env, few, r);
  }

  lemma MergedValid(env: Env, genesis: Payload, a: seq<Record>, b: seq<Record>, m: seq<Record>)
    requires ValidRecords(env, genesis, a) && ValidRecords(env, genesis, b)
    requires DistinctPayloads(m) && DistinctApprovals(m) && (forall r :: r in m ==> |r.approvals| <= MAX_APPROVALS)
    requires Payloads(m) == Payloads(a) + Payloads(b) && Pairs(m) == Pairs(a) + Pairs(b)
    ensures ValidRecords(env, genesis, m)
  {
    forall r | r in m ensures Good(env, r) {
      MergedGood(env, genesis, a, b, m, r);
    }
    forall p | p in Payloads(a)
      ensures Reaches(genesis, Payloads(a), p) && (p.Resolution? ==> RefersToSiblings(Payloads(a), p)) {
      ValidPayloads(env, genesis, a, p);
    }
    forall p | p in Payloads(m) - Payloads(a)
      ensures Reaches(genesis, Payloads(m), p) && (p.Resolution? ==> RefersToSiblings(Payloads(m), p))
    {
      ValidPayloads(env, genesis, b, p);
      ReachesMonotone(genesis, Payloads(b), Payloads(m), p);
      ChildrenMonotone(Payloads(b), Payloads(m), p.parent);
    }
    ValidRecordsGrow(env, genesis, a, m);
  }

  /** The union of two valid ledgers of one genesis is valid whenever it fits: merging never breaks a ledger. */
  lemma MergeValid(env: Env, a: Ledger, b: Ledger, m: Ledger)
    requires ValidLedger(env, a) && ValidLedger(env, b) && a.genesis.payload == b.genesis.payload
    requires IsMerge(env, a, b, m) && Fits(env, m)
    ensures ValidLedger(env, m) && Payloads(Records(m)) == Payloads(Records(a)) + Payloads(Records(b))
  {
    MergeTyped(env, a, b, m);
    MergedRecords(env, a, b, m);
    MergedValid(env, a.genesis.payload, Records(a), Records(b), Records(m));
  }

  // ----- Convergence -----

  lemma UnionCommutes(env: Env, a: seq<Record>, b: seq<Record>, ab: seq<Record>, ba: seq<Record>)
    requires StrictOrder(env.less) && IsUnion(env, a, b, ab) && IsUnion(env, b, a, ba)
    ensures ab == ba
  {
    CanonicalUnique(env, ab, ba);
  }

  lemma UnionAssociates(
    env: Env, a: seq<Record>, b: seq<Record>, c: seq<Record>,
    ab: seq<Record>, bc: seq<Record>, left: seq<Record>, right: seq<Record>)
    requires StrictOrder(env.less) && IsUnion(env, a, b, ab) && IsUnion(env, b, c, bc)
    requires IsUnion(env, ab, c, left) && IsUnion(env, a, bc, right)
    ensures left == right
  {
    CanonicalUnique(env, left, right);
  }

  lemma UnionIdempotent(env: Env, a: seq<Record>, b: seq<Record>, m: seq<Record>, again: seq<Record>)
    requires StrictOrder(env.less) && IsUnion(env, a, b, m) && IsUnion(env, m, b, again)
    ensures again == m
    ensures a == b && Canonical(env, a) ==> m == a
  {
    CanonicalUnique(env, again, m);
    if a == b && Canonical(env, a) {
      CanonicalUnique(env, m, a);
    }
  }

  lemma MergeCommutes(env: Env, a: Ledger, b: Ledger, ab: Ledger, ba: Ledger)
    requires StrictOrder(env.less) && IsMerge(env, a, b, ab) && IsMerge(env, b, a, ba)
    ensures ab.transitions == ba.transitions && ab.resolutions == ba.resolutions
    ensures ab == ba <==> a.genesis == b.genesis
  {
    UnionCommutes(env, a.transitions, b.transitions, ab.transitions, ba.transitions);
    UnionCommutes(env, a.resolutions, b.resolutions, ab.resolutions, ba.resolutions);
  }

  lemma MergeAssociates(env: Env, a: Ledger, b: Ledger, c: Ledger, ab: Ledger, bc: Ledger, left: Ledger, right: Ledger)
    requires StrictOrder(env.less) && IsMerge(env, a, b, ab) && IsMerge(env, b, c, bc)
    requires IsMerge(env, ab, c, left) && IsMerge(env, a, bc, right)
    ensures left == right
  {
    UnionAssociates(env, a.transitions, b.transitions, c.transitions,
                    ab.transitions, bc.transitions, left.transitions, right.transitions);
    UnionAssociates(env, a.resolutions, b.resolutions, c.resolutions,
                    ab.resolutions, bc.resolutions, left.resolutions, right.resolutions);
  }

  /** Merging again what is already merged changes nothing, and a canonical ledger merged with itself is itself. */
  lemma MergeIdempotent(env: Env, a: Ledger, b: Ledger, m: Ledger, again: Ledger)
    requires StrictOrder(env.less) && IsMerge(env, a, b, m) && IsMerge(env, m, b, again)
    ensures again == m
    ensures a == b && Canonical(env, a.transitions) && Canonical(env, a.resolutions) ==> m == a
  {
    UnionIdempotent(env, a.transitions, b.transitions, m.transitions, again.transitions);
    UnionIdempotent(env, a.resolutions, b.resolutions, m.resolutions, again.resolutions);
  }
}
