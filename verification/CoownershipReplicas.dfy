/**
 Replicas of a shared-owner ledger that receive ledgers one after the other and refuse a union that
 does not fit. Nothing is invented or given up; whether the order matters depends on whether the
 union of everything fits.
 */
module CoownershipReplicas {
  import opened Wrappers
  import opened Ordering
  import opened Finite
  import opened Coownership
  import opened CoownershipMerge

  // ----- What a ledger holds -----

  /** A certificate, or an approval of one, in the list of transitions or of resolutions. */
  datatype Fact = Held(resolves: bool, payload: Payload) | Signed(resolves: bool, payload: Payload, approval: Approval)

  ghost function FactsIn(resolves: bool, records: seq<Record>): set<Fact> {
    (set p | p in Payloads(records) :: Held(resolves, p)) + (set x | x in Pairs(records) :: Signed(resolves, x.0, x.1))
  }

  ghost function Facts(l: Ledger): set<Fact> {
    FactsIn(false, l.transitions) + FactsIn(true, l.resolutions)
  }

  ghost predicate CanonicalLists(env: Env, l: Ledger) {
    Canonical(env, l.transitions) && Canonical(env, l.resolutions)
  }

  lemma FactsOf(l: Ledger)
    ensures forall p :: Held(false, p) in Facts(l) <==> p in Payloads(l.transitions)
    ensures forall p :: Held(true, p) in Facts(l) <==> p in Payloads(l.resolutions)
    ensures forall p, x :: Signed(false, p, x) in Facts(l) <==> (p, x) in Pairs(l.transitions)
    ensures forall p, x :: Signed(true, p, x) in Facts(l) <==> (p, x) in Pairs(l.resolutions)
  {
  }

  lemma FactsInclude(a: Ledger, b: Ledger)
    requires Facts(a) <= Facts(b)
    ensures Payloads(a.transitions) <= Payloads(b.transitions) && Pairs(a.transitions) <= Pairs(b.transitions)
    ensures Payloads(a.resolutions) <= Payloads(b.resolutions) && Pairs(a.resolutions) <= Pairs(b.resolutions)
  {
    FactsOf(a);
    FactsOf(b);
    forall x | x in Pairs(a.transitions) ensures x in Pairs(b.transitions) {
      assert Signed(false, x.0, x.1) in Facts(a);
    }
    forall x | x in Pairs(a.resolutions) ensures x in Pairs(b.resolutions) {
      assert Signed(true, x.0, x.1) in Facts(a);
    }
    forall p | p in Payloads(a.transitions) ensures p in Payloads(b.transitions) { assert Held(false, p) in Facts(a); }
    forall p | p in Payloads(a.resolutions) ensures p in Payloads(b.resolutions) { assert Held(true, p) in Facts(a); }
  }

  lemma FactsJoin(resolves: bool, a: seq<Record>, b: seq<Record>, m: seq<Record>)
    requires Payloads(m) == Payloads(a) + Payloads(b) && Pairs(m) == Pairs(a) + Pairs(b)
    ensures FactsIn(resolves, m) == FactsIn(resolves, a) + FactsIn(resolves, b)
  {
  }

  lemma MergeFacts(env: Env, a: Ledger, b: Ledger, m: Ledger)
    requires IsMerge(env, a, b, m)
    ensures Facts(m) == Facts(a) + Facts(b)
  {
    FactsJoin(false, a.transitions, b.transitions, m.transitions);
    FactsJoin(true, a.resolutions, b.resolutions, m.resolutions);
  }

  lemma ListFacts(resolves: bool, a: seq<Record>, b: seq<Record>, m: seq<Record>)
    requires FactsIn(resolves, m) == FactsIn(resolves, a) + FactsIn(resolves, b)
    ensures Payloads(m) == Payloads(a) + Payloads(b) && Pairs(m) == Pairs(a) + Pairs(b)
  {
    forall p ensures p in Payloads(m) <==> p in Payloads(a) || p in Payloads(b) {
      assert p in Payloads(m) <==> Held(resolves, p) in FactsIn(resolves, m);
    }
    forall x ensures x in Pairs(m) <==> x in Pairs(a) || x in Pairs(b) {
      assert x in Pairs(m) <==> Signed(resolves, x.0, x.1) in FactsIn(resolves, m);
    }
  }

  lemma SideFacts(l: Ledger)
    ensures FactsIn(false, l.transitions) == (set f | f in Facts(l) && !f.resolves)
    ensures FactsIn(true, l.resolutions) == (set f | f in Facts(l) && f.resolves)
  {
  }

  /** A canonical ledger with the facts of both is their merge. */
  lemma MergeByFacts(env: Env, a: Ledger, b: Ledger, m: Ledger)
    requires m.genesis == b.genesis && CanonicalLists(env, m) && Facts(m) == Facts(a) + Facts(b)
    ensures IsMerge(env, a, b, m)
  {
    SideFacts(a);
    SideFacts(b);
    SideFacts(m);
    ListFacts(false, a.transitions, b.transitions, m.transitions);
    ListFacts(true, a.resolutions, b.resolutions, m.resolutions);
  }

  /** Canonical lists that hold the same are the same. */
  lemma SameFacts(env: Env, a: Ledger, b: Ledger)
    requires StrictOrder(env.less) && Facts(a) == Facts(b)
    requires Canonical(env, a.transitions) && Canonical(env, a.resolutions) && Canonical(env, b.transitions)
             && Canonical(env, b.resolutions)
    ensures a.transitions == b.transitions && a.resolutions == b.resolutions
  {
    FactsInclude(a, b);
    FactsInclude(b, a);
    CanonicalUnique(env, a.transitions, b.transitions);
    CanonicalUnique(env, a.resolutions, b.resolutions);
  }

  // ----- Every union has a canonical ledger -----

  ghost function ApprovalsOf(pairs: set<(Payload, Approval)>, p: Payload): set<Approval> {
    set x | x in pairs && x.0 == p :: x.1
  }

  ghost function CanonicalOf(env: Env, payloads: set<Payload>, pairs: set<(Payload, Approval)>): seq<Record>
    requires StrictOrder(env.less)
  {
    ApprovalOrder();
    var hashes := SortedSeq(env.less, set p | p in payloads :: HashOf(p));
    seq(|hashes|, i requires 0 <= i < |hashes| =>
      if hashes[i].HashOf?
        then Record(hashes[i].payload, SortedSeq(ApprovalLess, ApprovalsOf(pairs, hashes[i].payload)))
      else Record(Genesis("", 0, "", Identity("", "", []), Majority, 0), []))
  }

  lemma CanonicalRecord(env: Env, payloads: set<Payload>, pairs: set<(Payload, Approval)>, i: nat)
    requires StrictOrder(env.less) && i < |CanonicalOf(env, payloads, pairs)|
    ensures var r := CanonicalOf(env, payloads, pairs)[i];
            && r.payload in payloads && Distinct(r.approvals) && Sorted(ApprovalLess, r.approvals)
            && (forall x :: x in r.approvals <==> (r.payload, x) in pairs)
            && HashOf(r.payload) == SortedSeq(env.less, set p | p in payloads :: HashOf(p))[i]
  {
    ApprovalOrder();
    var hashes := SortedSeq(env.less, set p | p in payloads :: HashOf(p));
    assert hashes[i] in hashes && hashes[i] in (set p | p in payloads :: HashOf(p));
    var p := hashes[i].payload;
    SortedDistinct(ApprovalLess, SortedSeq(ApprovalLess, ApprovalsOf(pairs, p)));
    forall x ensures x in ApprovalsOf(pairs, p) <==> (p, x) in pairs {
      if (p, x) in pairs { assert (p, x).1 in ApprovalsOf(pairs, p); }
    }
  }

  /** One record per payload, in hash order, each with exactly its approvals. */
  ghost predicate Lists(env: Env, payloads: set<Payload>, pairs: set<(Payload, Approval)>, hashes: seq<Hash>,
                        q: seq<Record>)
  {
    && |q| == |hashes| && Sorted(env.less, hashes) && (forall p :: p in payloads ==> HashOf(p) in hashes)
    && (forall i :: 0 <= i < |q| ==> HashOf(q[i].payload) == hashes[i])
    && (forall r :: r in q ==> r.payload in payloads && Distinct(r.approvals) && Sorted(ApprovalLess, r.approvals))
    && (forall r, x :: r in q ==> (x in r.approvals <==> (r.payload, x) in pairs))
  }

  lemma CanonicalListed(env: Env, payloads: set<Payload>, pairs: set<(Payload, Approval)>)
    requires StrictOrder(env.less)
    ensures Lists(env, payloads, pairs, SortedSeq(env.less, set p | p in payloads :: HashOf(p)),
                  CanonicalOf(env, payloads, pairs))
  {
    var q := CanonicalOf(env, payloads, pairs);
    forall r | r in q
      ensures r.payload in payloads && Distinct(r.approvals) && Sorted(ApprovalLess, r.approvals)
      ensures forall x :: x in r.approvals <==> (r.payload, x) in pairs
    {
      var i :| 0 <= i < |q| && q[i] == r;
      CanonicalRecord(env, payloads, pairs, i);
    }
    forall i | 0 <= i < |q| ensures HashOf(q[i].payload) == SortedSeq(env.less, set p | p in payloads :: HashOf(p))[i] {
      CanonicalRecord(env, payloads, pairs, i);
    }
  }

  lemma ListedPayloads(env: Env, payloads: set<Payload>, pairs: set<(Payload, Approval)>, hashes: seq<Hash>,
                       q: seq<Record>)
    requires Lists(env, payloads, pairs, hashes, q)
    ensures Payloads(q) == payloads
  {
    forall p | p in payloads ensures p in Payloads(q) {
      var i :| 0 <= i < |hashes| && hashes[i] == HashOf(p);
      assert q[i] in q;
    }
  }

  lemma ListedPairs(env: Env, payloads: set<Payload>, pairs: set<(Payload, Approval)>, hashes: seq<Hash>,
                    q: seq<Record>)
    requires Lists(env, payloads, pairs, hashes, q) && forall x :: x in pairs ==> x.0 in payloads
    ensures Pairs(q) == pairs
  {
    ListedPayloads(env, payloads, pairs, hashes, q);
    forall x | x in pairs ensures x in Pairs(q) {
      assert x.0 in Payloads(q);
      var r :| r in q && r.payload == x.0;
    }
  }

  lemma CanonicalHolds(env: Env, payloads: set<Payload>, pairs: set<(Payload, Approval)>)
    requires StrictOrder(env.less) && forall x :: x in pairs ==> x.0 in payloads
    ensures var q := CanonicalOf(env, payloads, pairs);
            Canonical(env, q) && Payloads(q) == payloads && Pairs(q) == pairs
  {
    var q, hashes := CanonicalOf(env, payloads, pairs), SortedSeq(env.less, set p | p in payloads :: HashOf(p));
    CanonicalListed(env, payloads, pairs);
    ListedPayloads(env, payloads, pairs, hashes, q);
    ListedPairs(env, payloads, pairs, hashes, q);
    ListedCanonical(env, payloads, pairs, hashes, q);
  }

  lemma ListedCanonical(env: Env, payloads: set<Payload>, pairs: set<(Payload, Approval)>, hashes: seq<Hash>,
                        q: seq<Record>)
    requires StrictOrder(env.less) && Lists(env, payloads, pairs, hashes, q)
    ensures Canonical(env, q)
  {
    forall i, j | 0 <= i < j < |q| ensures RecordLess(env)(q[i], q[j]) { assert env.less(hashes[i], hashes[j]); }
    SortedPayloads(env, q);
  }

  lemma UnionClosed(a: seq<Record>, b: seq<Record>)
    ensures forall x :: x in Pairs(a) + Pairs(b) ==> x.0 in Payloads(a) + Payloads(b)
  {
  }

  /** The canonical union of two ledgers. */
  ghost function MergeOf(env: Env, a: Ledger, b: Ledger): Ledger
    requires StrictOrder(env.less)
  {
    Ledger(b.genesis,
      CanonicalOf(env, Payloads(a.transitions) + Payloads(b.transitions), Pairs(a.transitions) + Pairs(b.transitions)),
      CanonicalOf(env, Payloads(a.resolutions) + Payloads(b.resolutions), Pairs(a.resolutions) + Pairs(b.resolutions)))
  }

  lemma MergeExists(env: Env, a: Ledger, b: Ledger)
    requires StrictOrder(env.less)
    ensures IsMerge(env, a, b, MergeOf(env, a, b))
  {
    UnionClosed(a.transitions, b.transitions);
    UnionClosed(a.resolutions, b.resolutions);
    CanonicalHolds(env, Payloads(a.transitions) + Payloads(b.transitions), Pairs(a.transitions) + Pairs(b.transitions));
    CanonicalHolds(env, Payloads(a.resolutions) + Payloads(b.resolutions), Pairs(a.resolutions) + Pairs(b.resolutions));
  }

  // ----- Fitting -----

  ghost predicate DistinctLists(l: Ledger) {
    && DistinctPayloads(l.transitions) && DistinctApprovals(l.transitions)
    && DistinctPayloads(l.resolutions) && DistinctApprovals(l.resolutions)
  }

  /** A ledger that holds a part of another one, without repetition and under the same genesis record. */
  ghost predicate Part(a: Ledger, b: Ledger) {
    a.genesis == b.genesis && DistinctLists(a) && DistinctLists(b) && Facts(a) <= Facts(b)
  }

  /** A part of what fits in bytes fits in bytes. */
  ghost predicate FitsParts(env: Env) {
    forall a, b {:trigger Part(a, b)} :: Part(a, b) && env.ledgerFits(b) ==> env.ledgerFits(a)
  }

  lemma {:induction false} PayloadCount(records: seq<Record>)
    requires DistinctPayloads(records)
    ensures |Payloads(records)| == |records|
  {
    if records == [] {
      assert Payloads(records) == {};
    } else {
      var init, last := records[..|records| - 1], records[|records| - 1];
      PayloadCount(init);
      assert records == init + [last];
      PairsConcat(init, [last]);
      PairsOne(last);
      assert last.payload !in Payloads(init);
    }
  }

  lemma FewerRecords(a: seq<Record>, b: seq<Record>)
    requires DistinctPayloads(a) && DistinctPayloads(b) && Payloads(a) <= Payloads(b)
    ensures |a| <= |b|
  {
    PayloadCount(a);
    PayloadCount(b);
    SubsetSize(Payloads(a), Payloads(b));
  }

  lemma FewerApprovals(a: seq<Record>, b: seq<Record>, r: Record)
    requires DistinctPayloads(a) && DistinctApprovals(a) && DistinctPayloads(b) && DistinctApprovals(b) && r in a
    requires Payloads(a) <= Payloads(b) && Pairs(a) <= Pairs(b) && forall x :: x in b ==> |x.approvals| <= MAX_APPROVALS
    ensures |r.approvals| <= MAX_APPROVALS
  {
    assert r.payload in Payloads(b);
    var x :| x in b && x.payload == r.payload;
    forall y | y in Elements(r.approvals) ensures y in Elements(x.approvals) {
      assert (r.payload, y) in Pairs(b);
      PairsAt(b, x, y);
    }
    DistinctSize(r.approvals);
    DistinctSize(x.approvals);
    SubsetSize(Elements(r.approvals), Elements(x.approvals));
  }

  lemma PartFits(env: Env, a: Ledger, b: Ledger)
    requires FitsParts(env) && Part(a, b) && Fits(env, b)
    ensures Fits(env, a)
  {
    FactsInclude(a, b);
    FewerRecords(a.transitions, b.transitions);
    FewerRecords(a.resolutions, b.resolutions);
    forall x | x in b.transitions || x in b.resolutions ensures |x.approvals| <= MAX_APPROVALS {
      assert x in Records(b);
    }
    forall r | r in Records(a) ensures |r.approvals| <= MAX_APPROVALS {
      if r in a.transitions {
        FewerApprovals(a.transitions, b.transitions, r);
      } else {
        FewerApprovals(a.resolutions, b.resolutions, r);
      }
    }
  }

  // ----- Receiving -----

  /** A first valid ledger is stored; a later one is merged if that is possible, and refused otherwise. */
  ghost predicate Receives(env: Env, held: Option<Ledger>, l: Ledger, held': Option<Ledger>) {
    match held
    case None => if ValidLedger(env, l) then held'.Some? && IsMerge(env, l, l, held'.value) else held' == None
    case Some(m) => if Mergeable(env, m, l) then held'.Some? && IsMerge(env, m, l, held'.value) else held' == held
  }

  method Receive(env: Env, held: Option<Ledger>, l: Ledger) returns (held': Option<Ledger>)
    requires StrictOrder(env.less) && WellTyped(l) && (held.Some? ==> WellTyped(held.value))
    ensures Receives(env, held, l, held')
  {
    var r := MergeLedgers(env, held, l);
    held' := if r.Ok? then Some(r.value) else held;
  }

  /** What a replica holds after receiving these ledgers in this order. */
  ghost predicate Replica(env: Env, received: seq<Ledger>, held: Option<Ledger>) {
    if received == [] then held == None
    else
      var n := |received| - 1;
      exists before {:trigger Replica(env, received[..n], before)} ::
        Replica(env, received[..n], before) && Receives(env, before, received[n], held)
  }

  ghost function AllFacts(received: seq<Ledger>): set<Fact> {
    set l, f | l in received && f in Facts(l) :: f
  }

  lemma AllFactsSnoc(received: seq<Ledger>)
    requires received != []
    ensures AllFacts(received) == AllFacts(received[..|received| - 1]) + Facts(received[|received| - 1])
  {
    var n := |received| - 1;
    assert received == received[..n] + [received[n]];
  }

  /** Whatever is refused, a replica holds only what it received. */
  lemma {:induction false} ReplicaHoldsOnly(env: Env, received: seq<Ledger>, held: Option<Ledger>)
    requires Replica(env, received, held)
    ensures held.Some? ==> CanonicalLists(env, held.value) && Facts(held.value) <= AllFacts(received)
  {
    if received != [] {
      var n := |received| - 1;
      var before :| Replica(env, received[..n], before) && Receives(env, before, received[n], held);
      ReplicaHoldsOnly(env, received[..n], before);
      AllFactsSnoc(received);
      ReceivedFacts(env, before, received[n], held);
    }
  }

  /** Receiving adds nothing but what is received, and gives up nothing, accepted or refused. */
  lemma ReceivedFacts(env: Env, held: Option<Ledger>, l: Ledger, held': Option<Ledger>)
    requires Receives(env, held, l, held') && (held.Some? ==> CanonicalLists(env, held.value))
    ensures held'.Some? ==> CanonicalLists(env, held'.value)
    ensures held'.Some? ==> Facts(held'.value) <= Facts(l) + if held.Some? then Facts(held.value) else {}
    ensures held.Some? ==> held'.Some? && Facts(held.value) <= Facts(held'.value)
  {
    if held.None? {
      if held'.Some? { MergeFacts(env, l, l, held'.value); }
    } else if Mergeable(env, held.value, l) {
      MergeFacts(env, held.value, l, held'.value);
    }
  }

  // ----- When the union fits -----

  /** Valid ledgers of one genesis, all of which `whole` holds, and `whole` fits under the genesis record of each. */
  ghost predicate Roomy(env: Env, received: seq<Ledger>, whole: Ledger) {
    && DistinctLists(whole)
    && forall l :: l in received ==>
      && ValidLedger(env, l) && l.genesis.payload == whole.genesis.payload
      && Facts(l) <= Facts(whole) && Fits(env, whole.(genesis := l.genesis))
  }

  lemma FitsUnder(env: Env, received: seq<Ledger>, whole: Ledger, l: Ledger, m: Ledger)
    requires FitsParts(env) && Roomy(env, received, whole) && l in received
    requires m.genesis == l.genesis && CanonicalLists(env, m) && Facts(m) <= Facts(whole)
    ensures Fits(env, m)
  {
    var there := whole.(genesis := l.genesis);
    assert Facts(there) == Facts(whole);
    PartFits(env, m, there);
  }

  /** One more accepted ledger. */
  lemma Accepts(env: Env, received: seq<Ledger>, whole: Ledger, m: Ledger, l: Ledger, held: Option<Ledger>)
    requires StrictOrder(env.less) && FitsParts(env) && Roomy(env, received, whole) && l in received
    requires ValidLedger(env, m) && m.genesis.payload == l.genesis.payload && Facts(m) <= Facts(whole)
    requires Receives(env, Some(m), l, held)
    ensures held.Some? && CanonicalLists(env, held.value) && held.value.genesis == l.genesis
    ensures Facts(held.value) == Facts(m) + Facts(l) && ValidLedger(env, held.value)
  {
    var merged := MergeOf(env, m, l);
    MergeExists(env, m, l);
    MergeFacts(env, m, l, merged);
    FitsUnder(env, received, whole, l, merged);
    assert Mergeable(env, m, l);
    MergeUnique(env, m, l, held.value, merged);
    MergeValid(env, m, l, merged);
  }

  lemma AcceptsFirst(env: Env, received: seq<Ledger>, whole: Ledger, l: Ledger, held: Option<Ledger>)
    requires StrictOrder(env.less) && FitsParts(env) && Roomy(env, received, whole) && l in received
             && Receives(env, None, l, held)
    ensures held.Some? && CanonicalLists(env, held.value) && held.value.genesis == l.genesis
    ensures Facts(held.value) == Facts(l) && ValidLedger(env, held.value)
  {
    MergeFacts(env, l, l, held.value);
    FitsUnder(env, received, whole, l, held.value);
    MergeValid(env, l, l, held.value);
  }

  /** If the union of everything fits, every ledger is accepted in every order, and nothing is lost or invented. */
  lemma {:induction false} ReplicaHoldsAll(env: Env, received: seq<Ledger>, held: Option<Ledger>, whole: Ledger)
    requires StrictOrder(env.less) && FitsParts(env) && received != [] && Roomy(env, received, whole)
             && Replica(env, received, held)
    ensures held.Some? && CanonicalLists(env, held.value) && ValidLedger(env, held.value)
    ensures Facts(held.value) == AllFacts(received) && held.value.genesis == received[|received| - 1].genesis
  {
    var n := |received| - 1;
    var before :| Replica(env, received[..n], before) && Receives(env, before, received[n], held);
    AllFactsSnoc(received);
    if n == 0 {
      assert AllFacts(received[..0]) == {};
      AcceptsFirst(env, received, whole, received[0], held);
    } else {
      ReplicaHoldsAll(env, received[..n], before, whole);
      assert AllFacts(received[..n]) <= Facts(whole);
      assert received[n - 1] in received;
      Accepts(env, received, whole, before.value, received[n], held);
    }
  }

  /** Then replicas that received the same ledgers, in whatever order and however often, hold the same records. */
  lemma ReplicasConverge(env: Env, received: seq<Ledger>, received': seq<Ledger>, held: Option<Ledger>,
                         held': Option<Ledger>, whole: Ledger)
    requires StrictOrder(env.less) && FitsParts(env) && received != [] && Roomy(env, received, whole)
    requires Elements(received) == Elements(received') && Replica(env, received, held) && Replica(env, received', held')
    ensures held.Some? && held'.Some?
    ensures held.value.transitions == held'.value.transitions && held.value.resolutions == held'.value.resolutions
  {
    assert received[0] in Elements(received');
    RoomyInAnyOrder(env, received, received', whole);
    ReplicaHoldsAll(env, received, held, whole);
    ReplicaHoldsAll(env, received', held', whole);
    SameFacts(env, held.value, held'.value);
  }

  lemma RoomyInAnyOrder(env: Env, received: seq<Ledger>, received': seq<Ledger>, whole: Ledger)
    requires Roomy(env, received, whole) && Elements(received) == Elements(received')
    ensures Roomy(env, received', whole) && AllFacts(received) == AllFacts(received')
  {
    assert forall l :: l in received <==> l in Elements(received);
    assert forall l :: l in received' <==> l in Elements(received');
  }

  // ----- When it does not -----

  lemma StoredFirst(env: Env, a: Ledger, held: Option<Ledger>)
    requires ValidLedger(env, a) && Replica(env, [a], held)
    ensures held.Some? && IsMerge(env, a, a, held.value)
  {
    assert [a][..0] == [];
    var before :| Replica(env, [a][..0], before) && Receives(env, before, [a][0], held);
  }

  lemma ThenSecond(env: Env, a: Ledger, b: Ledger, held: Option<Ledger>) returns (first: Ledger)
    requires ValidLedger(env, a) && Replica(env, [a, b], held)
    ensures IsMerge(env, a, a, first) && Receives(env, Some(first), b, held)
  {
    assert [a, b][..1] == [a];
    var stored :| Replica(env, [a, b][..1], stored) && Receives(env, stored, [a, b][1], held);
    StoredFirst(env, a, stored);
    first := stored.value;
  }

  lemma ValidFits(env: Env, a: Ledger)
    requires ValidLedger(env, a)
    ensures Fits(env, a)
  {
    forall r | r in Records(a) ensures |r.approvals| <= MAX_APPROVALS { assert Good(env, r); }
  }

  /** A canonical part of a valid ledger, under the same genesis record, fits. */
  lemma PartOfValid(env: Env, m: Ledger, a: Ledger)
    requires FitsParts(env) && ValidLedger(env, a) && m.genesis == a.genesis && CanonicalLists(env, m)
    requires Facts(m) <= Facts(a)
    ensures Fits(env, m)
  {
    ValidLists(env, a);
    ValidFits(env, a);
    PartFits(env, m, a);
  }

  lemma StoredValid(env: Env, a: Ledger, first: Ledger)
    requires FitsParts(env) && ValidLedger(env, a) && IsMerge(env, a, a, first)
    ensures ValidLedger(env, first) && Facts(first) == Facts(a)
  {
    MergeFacts(env, a, a, first);
    PartOfValid(env, first, a);
    MergeValid(env, a, a, first);
  }

  /** `m` is the merge for the facts that the two ledgers hold, whatever lists hold them. */
  lemma SameMerge(env: Env, a: Ledger, a': Ledger, b: Ledger, m: Ledger)
    requires Facts(a) == Facts(a') && IsMerge(env, a, b, m)
    ensures IsMerge(env, a', b, m)
  {
    MergeFacts(env, a, b, m);
    MergeByFacts(env, a', b, m);
  }

  /** A stored ledger merges with exactly what the received one merges with. */
  lemma StoredMerges(env: Env, a: Ledger, b: Ledger, first: Ledger)
    requires FitsParts(env) && ValidLedger(env, a) && IsMerge(env, a, a, first)
    ensures Mergeable(env, first, b) <==> Mergeable(env, a, b)
  {
    StoredValid(env, a, first);
    if Mergeable(env, first, b) {
      var m :| IsMerge(env, first, b, m) && Fits(env, m);
      SameMerge(env, first, a, b, m);
    }
    if Mergeable(env, a, b) {
      var m :| IsMerge(env, a, b, m) && Fits(env, m);
      SameMerge(env, a, first, b, m);
    }
  }

  /** After two ledgers a replica holds both, or only the first when they do not merge. */
  lemma HeldAfterTwo(env: Env, a: Ledger, b: Ledger, held: Option<Ledger>)
    requires FitsParts(env) && ValidLedger(env, a) && Replica(env, [a, b], held)
    ensures held.Some? && CanonicalLists(env, held.value)
    ensures Facts(held.value) == if Mergeable(env, a, b) then Facts(a) + Facts(b) else Facts(a)
  {
    var first := ThenSecond(env, a, b, held);
    StoredMerges(env, a, b, first);
    MergeFacts(env, a, a, first);
    HeldAfter(env, first, b, held);
  }

  lemma HeldAfter(env: Env, first: Ledger, b: Ledger, held: Option<Ledger>)
    requires CanonicalLists(env, first) && Receives(env, Some(first), b, held)
    ensures held.Some? && CanonicalLists(env, held.value)
    ensures Facts(held.value) == if Mergeable(env, first, b) then Facts(first) + Facts(b) else Facts(first)
  {
    if Mergeable(env, first, b) { MergeFacts(env, first, b, held.value); }
  }

  lemma IncludedMerges(env: Env, a: Ledger, b: Ledger)
    requires StrictOrder(env.less) && FitsParts(env) && ValidLedger(env, a) && ValidLedger(env, b)
    requires a.genesis == b.genesis && Facts(b) <= Facts(a)
    ensures Mergeable(env, a, b)
  {
    var m := MergeOf(env, a, b);
    MergeExists(env, a, b);
    MergeFacts(env, a, b, m);
    PartOfValid(env, m, a);
  }

  lemma MergeableFlips(env: Env, a: Ledger, b: Ledger)
    requires Mergeable(env, a, b) && a.genesis == b.genesis
    ensures Mergeable(env, b, a)
  {
    var m :| IsMerge(env, a, b, m) && Fits(env, m);
    MergeFacts(env, a, b, m);
    MergeByFacts(env, b, a, m);
  }

  /** The second ledger is taken in, or adds nothing. */
  ghost predicate Arrives(env: Env, first: Ledger, second: Ledger) {
    Mergeable(env, first, second) || Facts(second) <= Facts(first)
  }

  lemma ArrivesIffMergeable(env: Env, a: Ledger, b: Ledger)
    requires StrictOrder(env.less) && FitsParts(env) && ValidLedger(env, a) && ValidLedger(env, b)
    requires a.genesis == b.genesis
    ensures Arrives(env, a, b) && Arrives(env, b, a) <==> Mergeable(env, a, b)
  {
    if Facts(b) <= Facts(a) { IncludedMerges(env, a, b); }
    if Mergeable(env, a, b) { MergeableFlips(env, a, b); }
  }

  /**
   Two replicas that receive two valid ledgers in opposite orders hold the same records if and only if in each
   order the second ledger is taken in or adds nothing; under one genesis record, if and only if the two merge.
   */
  lemma OrdersAgreeIffMergeable(env: Env, a: Ledger, b: Ledger, ab: Option<Ledger>, ba: Option<Ledger>)
    requires StrictOrder(env.less) && FitsParts(env) && ValidLedger(env, a) && ValidLedger(env, b)
    requires Replica(env, [a, b], ab) && Replica(env, [b, a], ba)
    ensures ab.Some? && ba.Some?
    ensures SameLists(ab.value, ba.value) <==> Arrives(env, a, b) && Arrives(env, b, a)
    ensures a.genesis == b.genesis ==> (SameLists(ab.value, ba.value) <==> Mergeable(env, a, b))
  {
    HeldAfterTwo(env, a, b, ab);
    HeldAfterTwo(env, b, a, ba);
    ListsByFacts(env, ab.value, ba.value);
    if a.genesis == b.genesis { ArrivesIffMergeable(env, a, b); }
  }

  ghost predicate SameLists(a: Ledger, b: Ledger) {
    a.transitions == b.transitions && a.resolutions == b.resolutions
  }

  lemma ListsByFacts(env: Env, a: Ledger, b: Ledger)
    requires StrictOrder(env.less) && CanonicalLists(env, a) && CanonicalLists(env, b)
    ensures SameLists(a, b) <==> Facts(a) == Facts(b)
  {
    if Facts(a) == Facts(b) { SameFacts(env, a, b); }
  }

  // ----- Full ledgers -----

  /** Whatever is received, there is an outcome. */
  lemma ReceivesSome(env: Env, held: Option<Ledger>, l: Ledger) returns (held': Option<Ledger>)
    requires StrictOrder(env.less)
    ensures Receives(env, held, l, held')
  {
    if held.None? {
      MergeExists(env, l, l);
      held' := if ValidLedger(env, l) then Some(MergeOf(env, l, l)) else None;
    } else {
      MergeExists(env, held.value, l);
      held' := if Mergeable(env, held.value, l) then Some(MergeOf(env, held.value, l)) else held;
    }
  }

  lemma {:induction false} ReplicaExists(env: Env, received: seq<Ledger>) returns (held: Option<Ledger>)
    requires StrictOrder(env.less)
    ensures Replica(env, received, held)
  {
    held := None;
    if received != [] {
      var n := |received| - 1;
      var before := ReplicaExists(env, received[..n]);
      held := ReceivesSome(env, before, received[n]);
    }
  }

  lemma OneMorePayload(full: seq<Record>, m: seq<Record>, p: Payload)
    requires DistinctPayloads(full) && DistinctPayloads(m)
    requires Payloads(full) <= Payloads(m) && p in Payloads(m) && p !in Payloads(full)
    ensures |m| > |full|
  {
    PayloadCount(full);
    PayloadCount(m);
    SubsetSize(Payloads(full) + {p}, Payloads(m));
  }

  /** A ledger with as many transitions as there may be merges with nothing that has another one. */
  lemma FullRefuses(env: Env, a: Ledger, b: Ledger, p: Payload)
    requires ValidLedger(env, a) && |a.transitions| == MAX_TRANSITIONS
    requires p in Payloads(b.transitions) && p !in Payloads(a.transitions)
    ensures !Mergeable(env, a, b) && !Mergeable(env, b, a)
  {
    ValidLists(env, a);
    forall m | IsMerge(env, a, b, m) || IsMerge(env, b, a, m) ensures !Fits(env, m) {
      OneMorePayload(a.transitions, m.transitions, p);
    }
  }

  /** So whichever of the two a replica receives first, it stays with that one. */
  lemma FullOrdersDiverge(env: Env, a: Ledger, b: Ledger, p: Payload) returns (ab: Option<Ledger>, ba: Option<Ledger>)
    requires StrictOrder(env.less) && FitsParts(env) && ValidLedger(env, a) && ValidLedger(env, b)
    requires |a.transitions| == MAX_TRANSITIONS && p in Payloads(b.transitions) && p !in Payloads(a.transitions)
    ensures Replica(env, [a, b], ab) && Replica(env, [b, a], ba) && ab.Some? && ba.Some?
    ensures Facts(ab.value) == Facts(a) && Facts(ba.value) == Facts(b) && !SameLists(ab.value, ba.value)
  {
    ab := ReplicaExists(env, [a, b]);
    ba := ReplicaExists(env, [b, a]);
    FullRefuses(env, a, b, p);
    HeldAfterTwo(env, a, b, ab);
    HeldAfterTwo(env, b, a, ba);
    assert Held(false, p) in Facts(b) && Held(false, p) !in Facts(a) by {
      FactsOf(a);
      FactsOf(b);
    }
  }
}
