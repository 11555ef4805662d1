/**
 Authority over a valid shared-owner ledger: the walk from the genesis, conflicts and their
 resolvers, the planners, and what quorums guarantee.
 */
module CoownershipWalk {
  import opened Wrappers
  import opened Ordering
  import opened Finite
  import opened Coownership

  // ----- Structure of valid ledgers -----

  function Depth(p: Payload): nat
    decreases p
  {
    if p.Genesis? || p.parent.Opaque? then 0 else 1 + Depth(p.parent.payload)
  }

  /** The parent of a certificate is the genesis or another valid certificate. */
  lemma ParentRecord(env: Env, genesis: Payload, records: seq<Record>, r: Record)
    requires ValidRecords(env, genesis, records) && r in records
    ensures !r.payload.Genesis? && r.payload.parent.HashOf?
    ensures r.payload.parent.payload == genesis || exists x :: x in records && x.payload == r.payload.parent.payload
    ensures ValidUnder(env, r.payload, NodeOf(r.payload.parent.payload))
  {
    assert Good(env, r);
    var p := r.payload;
    assert Reaches(genesis, Payloads(records), p);
    if p.parent.payload != genesis {
      assert Reaches(genesis, Payloads(records), p.parent.payload);
    }
  }

  /** The epoch of a certificate is one more than its distance from the genesis. */
  lemma {:induction false} EpochIsDepth(env: Env, ledger: Ledger, r: Record)
    requires ValidLedger(env, ledger) && r in Records(ledger)
    ensures r.payload.epoch == 1 + Depth(r.payload)
    decreases r.payload
  {
    var genesis, records := ledger.genesis.payload, Records(ledger);
    ParentRecord(env, genesis, records, r);
    var q := r.payload.parent.payload;
    if q != genesis {
      var parent :| parent in records && parent.payload == q;
      EpochIsDepth(env, ledger, parent);
    }
  }

  lemma {:induction false} ReachesMonotone(genesis: Payload, payloads: set<Payload>, payloads': set<Payload>,
                                           p: Payload)
    requires Reaches(genesis, payloads, p) && payloads <= payloads'
    ensures Reaches(genesis, payloads', p)
    decreases p
  {
    if p.parent.payload != genesis {
      ReachesMonotone(genesis, payloads, payloads', p.parent.payload);
    }
  }

  lemma ChildrenMonotone(payloads: set<Payload>, payloads': set<Payload>, h: Hash)
    requires payloads <= payloads'
    ensures ChildrenOf(payloads, h) <= ChildrenOf(payloads', h)
  {
    forall c | c in ChildrenOf(payloads, h) ensures c in ChildrenOf(payloads', h) {
      assert c.payload in payloads';
    }
  }

  /** Record validity carries over to a ledger with more certificates, provided its own records are good. */
  lemma ValidRecordsGrow(env: Env, genesis: Payload, records: seq<Record>, records': seq<Record>)
    requires DistinctPayloads(records') && Payloads(records) <= Payloads(records')
    requires forall r :: r in records' ==> Good(env, r)
    requires forall p :: p in Payloads(records) ==> Reaches(genesis, Payloads(records), p)
    requires forall p :: p in Payloads(records) && p.Resolution? ==> RefersToSiblings(Payloads(records), p)
    requires forall p :: p in Payloads(records') - Payloads(records) ==> Reaches(genesis, Payloads(records'), p)
    requires forall p :: p in Payloads(records') - Payloads(records) && p.Resolution? ==>
             RefersToSiblings(Payloads(records'), p)
    ensures ValidRecords(env, genesis, records')
  {
    var few, all := Payloads(records), Payloads(records');
    forall r | r in records'
      ensures Reaches(genesis, all, r.payload)
      ensures r.payload.Resolution? ==> RefersToSiblings(all, r.payload)
    {
      var p := r.payload;
      assert p in all;
      if p in few {
        ReachesMonotone(genesis, few, all, p);
        if p.Resolution? { ChildrenMonotone(few, all, p.parent); }
      }
    }
  }

  lemma ValidPayloads(env: Env, genesis: Payload, records: seq<Record>, p: Payload)
    requires ValidRecords(env, genesis, records) && p in Payloads(records)
    ensures Reaches(genesis, Payloads(records), p)
    ensures p.Resolution? ==> RefersToSiblings(Payloads(records), p)
    ensures exists r :: r in records && r.payload == p && Good(env, r)
  {
    var r :| r in records && r.payload == p;
  }

  // ----- Quorums -----

  ghost function PersonIds(owners: seq<Identity>): set<string> {
    set o | o in owners :: o.personId
  }

  lemma {:induction false} FewPersonIds(owners: seq<Identity>)
    ensures |PersonIds(owners)| <= |owners|
  {
    if owners == [] {
      assert PersonIds(owners) == {};
    } else {
      var init, last := owners[..|owners| - 1], owners[|owners| - 1];
      FewPersonIds(init);
      assert owners == init + [last];
      assert PersonIds(owners) == PersonIds(init) + {last.personId};
    }
  }

  lemma {:induction false} MatchedIsOwner(env: Env, p: Payload, a: Approval, owners: seq<Identity>)
    requires MatchOwners(env, p, a, owners).One?
    ensures MatchOwners(env, p, a, owners).person in PersonIds(owners)
  {
    var init, last := owners[..|owners| - 1], owners[|owners| - 1];
    if MatchOwners(env, p, a, init).One? {
      MatchedIsOwner(env, p, a, init);
      var o :| o in init && o.personId == MatchOwners(env, p, a, init).person;
      assert o in owners;
    } else {
      assert last in owners;
    }
  }

  lemma ApproversAreOwners(env: Env, p: Payload, approvals: seq<Approval>, owners: seq<Identity>, policy: Policy)
    requires Approved(env, p, approvals, owners, policy)
    ensures People(env, p, approvals, owners) <= PersonIds(owners)
  {
    forall x | x in People(env, p, approvals, owners) ensures x in PersonIds(owners) {
      var a :| a in approvals && PersonOf(env, p, owners, a) == x;
      MatchedIsOwner(env, p, a, owners);
    }
  }

  lemma ParentHasOwners(env: Env, ledger: Ledger, r: Record)
    requires ValidLedger(env, ledger) && r in Records(ledger)
    ensures r.payload.parent.HashOf? && NodeOf(r.payload.parent.payload).owners != []
  {
    var genesis, records := ledger.genesis.payload, Records(ledger);
    ParentRecord(env, genesis, records, r);
    var q := r.payload.parent.payload;
    if q != genesis {
      var parent :| parent in records && parent.payload == q;
      ParentRecord(env, genesis, records, parent);
    }
  }

  /** Two accepted children of one parent share an approving owner: people are counted, not devices. */
  lemma SharedApprover(env: Env, ledger: Ledger, a: Record, b: Record) returns (person: string)
    requires ValidLedger(env, ledger) && a in Records(ledger) && b in Records(ledger)
    requires a.payload.parent == b.payload.parent
    ensures a.payload.parent.HashOf?
    ensures var owners := NodeOf(a.payload.parent.payload).owners;
            && person in PersonIds(owners)
            && person in People(env, a.payload, a.approvals, owners)
            && person in People(env, b.payload, b.approvals, owners)
  {
    ParentHasOwners(env, ledger, a);
    assert Good(env, a) && Good(env, b);
    var node := NodeOf(a.payload.parent.payload);
    var left := People(env, a.payload, a.approvals, node.owners);
    var right := People(env, b.payload, b.approvals, node.owners);
    ApproversAreOwners(env, a.payload, a.approvals, node.owners, node.policy);
    ApproversAreOwners(env, b.payload, b.approvals, node.owners, node.policy);
    FewPersonIds(node.owners);
    assert 2 * |left| > |node.owners| && 2 * |right| > |node.owners|;
    MajoritiesMeet(left, right, PersonIds(node.owners));
    person :| person in left * right;
  }

  // ----- Resolvers -----

  /** The children of `h` that are resolutions naming every other child. */
  ghost function Resolvers(payloads: set<Payload>, h: Hash): set<Hash> {
    var siblings := ChildrenOf(payloads, h);
    set c | c in siblings && c.payload.Resolution? && Elements(c.payload.conflicting) == siblings - {c}
  }

  /** Two payloads cannot name each other's hash. */
  lemma NoMutualReference(a: Payload, b: Payload)
    requires a.Resolution? && b.Resolution?
    ensures !(HashOf(b) in a.conflicting && HashOf(a) in b.conflicting)
  {
  }

  lemma ResolverNames(payloads: set<Payload>, h: Hash, a: Hash, b: Hash)
    requires a in Resolvers(payloads, h) && b in ChildrenOf(payloads, h) && a != b
    ensures a.HashOf? && a.payload.Resolution? && b in a.payload.conflicting
  {
    assert b in Elements(a.payload.conflicting);
  }

  /** A conflicted parent has at most one complete resolver. */
  lemma AtMostOneResolver(payloads: set<Payload>, h: Hash)
    ensures |Resolvers(payloads, h)| <= 1
  {
    var resolvers := Resolvers(payloads, h);
    forall a, b | a in resolvers && b in resolvers ensures a == b {
      if a != b {
        ResolverNames(payloads, h, a, b);
        ResolverNames(payloads, h, b, a);
      }
    }
    if a :| a in resolvers {
      assert resolvers == {a};
    } else {
      assert resolvers == {};
    }
  }

  // ----- The authority walk -----

  datatype Status = Authorized(certificate: Hash, node: Node) | Ambiguous(parent: Hash, conflicting: set<Hash>)

  ghost function Deeper(payloads: set<Payload>, p: Payload): set<Payload> {
    set q | q in payloads && Depth(q) > Depth(p)
  }

  lemma ChildDeeper(payloads: set<Payload>, p: Payload, c: Hash)
    requires c in ChildrenOf(payloads, HashOf(p))
    ensures c.HashOf? && c.payload in payloads && Deeper(payloads, c.payload) < Deeper(payloads, p)
  {
    assert c.payload in Deeper(payloads, p) && c.payload !in Deeper(payloads, c.payload);
  }

  /** The certificate the walk goes on to, if the children leave no doubt. */
  ghost function Next(payloads: set<Payload>, p: Payload): (next: Option<Hash>)
    ensures next.Some? ==> next.value in ChildrenOf(payloads, HashOf(p))
  {
    var siblings := ChildrenOf(payloads, HashOf(p));
    if exists c :: siblings == {c} then var c :| siblings == {c}; Some(c)
    else if exists c :: Resolvers(payloads, HashOf(p)) == {c} then
      var c :| Resolvers(payloads, HashOf(p)) == {c};
      assert c in Resolvers(payloads, HashOf(p));
      Some(c)
    else None
  }

  ghost function Walk(payloads: set<Payload>, p: Payload): Status
    decreases Deeper(payloads, p)
  {
    var siblings := ChildrenOf(payloads, HashOf(p));
    if siblings == {} then Authorized(HashOf(p), NodeOf(p))
    else match Next(payloads, p)
      case Some(c) =>
        ChildDeeper(payloads, p, c);
        Walk(payloads, c.payload)
      case None => Ambiguous(HashOf(p), siblings)
  }

  lemma SingletonSize<T>(s: set<T>)
    ensures |s| == 1 <==> exists x :: s == {x}
  {
    if |s| == 1 {
      var x :| x in s;
      assert |s - {x}| == 0;
      assert s == {x};
    }
  }

  function ResolverIds(graph: Graph, parent: Hash, siblings: set<Hash>): set<Hash> {
    set id | id in graph.resolutions && graph.resolutions[id].Resolution? && graph.resolutions[id].parent == parent
             && (set h | h in graph.resolutions[id].conflicting) == siblings - {id}
  }

  lemma ResolverIdsExact(genesis: Payload, payloads: set<Payload>, h: Hash)
    ensures ResolverIds(GraphOf(genesis, payloads), h, ChildrenOf(payloads, h)) == Resolvers(payloads, h)
  {
    var graph := GraphOf(genesis, payloads);
    GraphKeys(genesis, payloads);
    forall id | id in Resolvers(payloads, h) ensures id in ResolverIds(graph, h, ChildrenOf(payloads, h)) {
      assert graph.resolutions[id] == id.payload;
    }
    forall id | id in ResolverIds(graph, h, ChildrenOf(payloads, h)) ensures id in Resolvers(payloads, h) {
      assert graph.resolutions[id] == id.payload && id == HashOf(id.payload);
    }
  }

  /** The children of a certificate, and the one to go on to if they leave no doubt. */
  method WalkStep(graph: Graph, cursor: Hash, ghost genesis: Payload, ghost payloads: set<Payload>)
    returns (siblings: set<Hash>, next: Option<Hash>)
    requires graph == GraphOf(genesis, payloads) && cursor.HashOf?
    ensures siblings == ChildrenOf(payloads, cursor) && next == Next(payloads, cursor.payload)
  {
    assert cursor == HashOf(cursor.payload);
    NoChildren(genesis, payloads, cursor);
    siblings := if cursor in graph.children then graph.children[cursor] else {};
    SingletonSize(siblings);
    ResolverIdsExact(genesis, payloads, cursor);
    var resolvers := ResolverIds(graph, cursor, siblings);
    SingletonSize(resolvers);
    next := None;
    if |siblings| == 1 {
      var c :| c in siblings;
      next := Some(c);
    } else if |resolvers| == 1 {
      var c :| c in resolvers;
      next := Some(c);
    }
  }

  lemma ChildInGraph(genesis: Payload, payloads: set<Payload>, p: Payload, c: Hash)
    requires c in ChildrenOf(payloads, HashOf(p))
    ensures c in GraphOf(genesis, payloads).nodes && GraphOf(genesis, payloads).nodes[c] == NodeOf(c.payload)
  {
    GraphKeys(genesis, payloads);
  }

  method FollowWalk(graph: Graph, ghost genesis: Payload, ghost payloads: set<Payload>) returns (status: Status)
    requires graph == GraphOf(genesis, payloads) && genesis.Genesis?
    ensures status == Walk(payloads, genesis)
  {
    var cursor := graph.genesisHash;
    GraphKeys(genesis, payloads);
    while true
      invariant cursor.HashOf? && cursor in graph.nodes && graph.nodes[cursor] == NodeOf(cursor.payload)
      invariant Walk(payloads, cursor.payload) == Walk(payloads, genesis)
      decreases Deeper(payloads, cursor.payload)
    {
      var siblings, next := WalkStep(graph, cursor, genesis, payloads);
      if siblings == {} {
        return Authorized(cursor, graph.nodes[cursor]);
      }
      if next.None? {
        return Ambiguous(cursor, siblings);
      }
      ChildDeeper(payloads, cursor.payload, next.value);
      ChildInGraph(genesis, payloads, cursor.payload, next.value);
      cursor := next.value;
    }
  }

  /** The status of a ledger depends only on the set of its certificates. */
  method ValidateLedger(env: Env, ledger: Ledger) returns (r: Result<Status, LedgerError>)
    requires WellTyped(ledger)
    ensures r.Ok? <==> ValidLedger(env, ledger)
    ensures r.Ok? ==> r.value == Walk(Payloads(Records(ledger)), ledger.genesis.payload)
  {
    var graph := BuildGraph(env, ledger);
    if graph.Err? {
      return Err(graph.error);
    }
    var status := FollowWalk(graph.value, ledger.genesis.payload, Payloads(Records(ledger)));
    r := Ok(status);
  }

  // ----- Planning -----

  method SortHashes(env: Env, s: set<Hash>) returns (q: seq<Hash>)
    requires StrictOrder(env.less)
    ensures Sorted(env.less, q) && Elements(q) == s && |q| == |s|
  {
    q := [];
    var rest := s;
    while rest != {}
      invariant rest <= s && Elements(q) == s - rest && |q| + |rest| == |s|
      invariant Sorted(env.less, q)
      invariant forall a, b :: a in q && b in rest ==> env.less(a, b)
      decreases rest
    {
      ghost var least := LeastExists(env.less, rest);
      var h :| h in rest && forall x :: x in rest && x != h ==> env.less(h, x);
      ElementsConcat(q, [h]);
      assert Elements([h]) == {h};
      q, rest := q + [h], rest - {h};
    }
  }

  /** The payload that resolves the children of `parent`. */
  ghost predicate ResolvesAll(env: Env, payloads: set<Payload>, parent: Payload, owners: seq<Identity>, policy: Policy,
                              p: Payload)
  {
    && p.Resolution? && p.kind == "scope-coownership-resolution" && p.version == VERSION
    && p.scopeId == NodeOf(parent).scopeId && p.parent == HashOf(parent) && p.epoch == NodeOf(parent).epoch + 1
    && Sorted(env.less, p.conflicting) && Elements(p.conflicting) == ChildrenOf(payloads, HashOf(parent))
    && |p.conflicting| == |ChildrenOf(payloads, HashOf(parent))|
    && p.owners == owners && p.policy == policy
  }

  /** The parent is in the ledger, its children conflict, and no child resolves them. */
  ghost predicate Unresolved(genesis: Payload, payloads: set<Payload>, parentHash: Hash) {
    && parentHash.HashOf? && (parentHash.payload == genesis || parentHash.payload in payloads)
    && |ChildrenOf(payloads, parentHash)| >= 2 && Resolvers(payloads, parentHash) == {}
    && NodeOf(parentHash.payload).epoch < MAX_EPOCH
  }

  /** The siblings in conflict below a parent, if there is an open conflict. */
  method OpenConflict(graph: Graph, parentHash: Hash, ghost genesis: Payload, ghost payloads: set<Payload>)
    returns (r: Option<set<Hash>>)
    requires graph == GraphOf(genesis, payloads)
    ensures r.Some? <==> Unresolved(genesis, payloads, parentHash)
    ensures r.Some? ==>
            r.value == ChildrenOf(payloads, parentHash) && parentHash in graph.nodes
              && graph.nodes[parentHash] == NodeOf(parentHash.payload)
  {
    GraphKeys(genesis, payloads);
    if parentHash !in graph.nodes {
      return None;
    }
    NoChildren(genesis, payloads, parentHash);
    var siblings := if parentHash in graph.children then graph.children[parentHash] else {};
    if |siblings| < 2 {
      return None;
    }
    var resolvers := ResolverIds(graph, parentHash, siblings);
    ResolverIdsExact(genesis, payloads, parentHash);
    AtMostOneResolver(payloads, parentHash);
    if |resolvers| == 1 || graph.nodes[parentHash].epoch >= MAX_EPOCH {
      return None;
    }
    r := Some(siblings);
  }

  method PlanResolution(env: Env, ledger: Ledger, parentHash: Hash, owners: seq<Identity>, policy: Policy)
    returns (r: Result<Payload, LedgerError>)
    requires WellTyped(ledger) && StrictOrder(env.less)
    ensures r.Ok? ==> ValidLedger(env, ledger) && ValidOwners(env, owners)
    ensures r.Ok? ==> Unresolved(ledger.genesis.payload, Payloads(Records(ledger)), parentHash)
    ensures r.Ok? ==> env.payloadFits(r.value)
    ensures r.Ok? ==> ResolvesAll(env, Payloads(Records(ledger)), parentHash.payload, owners, policy, r.value)
    ensures ValidLedger(env, ledger) && ValidOwners(env, owners)
            && Unresolved(ledger.genesis.payload, Payloads(Records(ledger)), parentHash)
            && r.Err? ==>
      exists p ::
        ResolvesAll(env, Payloads(Records(ledger)), parentHash.payload, owners, policy, p) && !env.payloadFits(p)
  {
    var ownersOk := CheckOwners(env, owners);
    if !ownersOk {
      return Err(InvalidPayload);
    }
    var built := BuildGraph(env, ledger);
    if built.Err? {
      return Err(built.error);
    }
    ghost var payloads := Payloads(Records(ledger));
    var siblings := OpenConflict(built.value, parentHash, ledger.genesis.payload, payloads);
    if siblings.None? {
      return Err(MissingEvidence);
    }
    var p := DraftResolution(env, parentHash, built.value.nodes[parentHash], siblings.value, owners, policy, payloads);
    if !env.payloadFits(p) {
      return Err(LimitExceeded);
    }
    r := Ok(p);
  }

  method DraftResolution(env: Env, parentHash: Hash, parent: Node, siblings: set<Hash>, owners: seq<Identity>,
                         policy: Policy,
                         ghost payloads: set<Payload>)
    returns (p: Payload)
    requires StrictOrder(env.less) && parentHash.HashOf? && parent == NodeOf(parentHash.payload)
    requires siblings == ChildrenOf(payloads, parentHash)
    ensures ResolvesAll(env, payloads, parentHash.payload, owners, policy, p)
  {
    var conflicting := SortHashes(env, siblings);
    p := Resolution("scope-coownership-resolution", VERSION, parent.scopeId, parentHash, parent.epoch + 1, conflicting,
                    owners, policy);
  }

  lemma NotSelfReferring(p: Payload)
    requires p.Resolution?
    ensures HashOf(p) !in p.conflicting
  {
    NoMutualReference(p, p);
  }

  lemma ChildrenFew(records: seq<Record>, h: Hash)
    ensures |ChildrenOf(Payloads(records), h)| <= |records|
  {
    FewPayloads(records);
    var kids := ChildrenOf(Payloads(records), h);
    var sources := set c | c in kids && c.HashOf? :: c.payload;
    assert sources <= Payloads(records);
    SubsetSize(sources, Payloads(records));
    HashesFew(kids);
  }

  lemma {:induction false} HashesFew(s: set<Hash>)
    requires forall h :: h in s ==> h.HashOf?
    ensures |set c | c in s && c.HashOf? :: c.payload| == |s|
  {
    var image := set c | c in s && c.HashOf? :: c.payload;
    if s == {} {
      assert image == {};
    } else {
      var h :| h in s;
      HashesFew(s - {h});
      var rest := set c | c in s - {h} && c.HashOf? :: c.payload;
      assert image == rest + {h.payload};
      assert h.payload !in rest;
    }
  }

  lemma {:induction false} FewPayloads(records: seq<Record>)
    ensures |Payloads(records)| <= |records|
  {
    if records == [] {
      assert Payloads(records) == {};
    } else {
      var init, last := records[..|records| - 1], records[|records| - 1];
      FewPayloads(init);
      assert records == init + [last];
      assert Payloads(records) == Payloads(init) + {last.payload};
    }
  }

  /** A payload that resolves all children is new, and it is valid below its parent. */
  lemma PlannedIsGood(env: Env, ledger: Ledger, parent: Payload, owners: seq<Identity>, policy: Policy, r: Record)
    requires ValidLedger(env, ledger) && StrictOrder(env.less)
    requires ResolvesAll(env, Payloads(Records(ledger)), parent, owners, policy, r.payload)
    requires |ChildrenOf(Payloads(Records(ledger)), HashOf(parent))| >= 2
    requires ValidOwners(env, owners) && env.payloadFits(r.payload) && NodeOf(parent).epoch < MAX_EPOCH
    requires Approved(env, r.payload, r.approvals, NodeOf(parent).owners, NodeOf(parent).policy)
    ensures Good(env, r) && r.payload !in Payloads(Records(ledger))
  {
    var p, payloads := r.payload, Payloads(Records(ledger));
    var kids := ChildrenOf(payloads, HashOf(parent));
    ChildrenFew(Records(ledger), HashOf(parent));
    NotSelfReferring(p);
    assert p in payloads ==> HashOf(p) in kids;
    assert forall h :: h in kids ==> h in Elements(p.conflicting);
    forall i | 0 <= i < |p.conflicting| ensures WellSized(p.conflicting[i]) {
      assert p.conflicting[i] in Elements(p.conflicting);
    }
  }

  ghost function WithResolution(ledger: Ledger, r: Record): Ledger {
    ledger.(resolutions := ledger.resolutions + [r])
  }

  lemma RecordsWithResolution(ledger: Ledger, r: Record)
    ensures Records(WithResolution(ledger, r)) == Records(ledger) + [r]
  {
  }

  lemma DistinctAppend(records: seq<Record>, r: Record)
    requires DistinctPayloads(records) && r.payload !in Payloads(records)
    ensures DistinctPayloads(records + [r]) && Payloads(records + [r]) == Payloads(records) + {r.payload}
  {
    var all := records + [r];
    assert forall k :: 0 <= k < |records| ==> records[k] in records && records[k].payload in Payloads(records);
    assert r in all;
    forall x | x in records ensures x in all { }
  }

  /** A good record with a new payload extends a valid ledger. */
  lemma AppendValid(env: Env, genesis: Payload, records: seq<Record>, records': seq<Record>, r: Record)
    requires ValidRecords(env, genesis, records) && Good(env, r)
    requires DistinctPayloads(records') && forall x :: x in records' <==> x in records || x == r
    requires Reaches(genesis, Payloads(records) + {r.payload}, r.payload)
    requires r.payload.Resolution? ==> RefersToSiblings(Payloads(records) + {r.payload}, r.payload)
    ensures ValidRecords(env, genesis, records') && Payloads(records') == Payloads(records) + {r.payload}
  {
    assert Payloads(records') == Payloads(records) + {r.payload};
    forall q | q in Payloads(records)
      ensures Reaches(genesis, Payloads(records), q) && (q.Resolution? ==> RefersToSiblings(Payloads(records), q))
    {
      ValidPayloads(env, genesis, records, q);
    }
    ValidRecordsGrow(env, genesis, records, records');
  }

  lemma ResolutionExtends(env: Env, genesis: Payload, records: seq<Record>, parent: Payload, r: Record)
    requires ValidRecords(env, genesis, records) && (parent == genesis || parent in Payloads(records))
    requires Good(env, r) && r.payload.Resolution? && r.payload.parent == HashOf(parent)
             && r.payload !in Payloads(records)
    requires Elements(r.payload.conflicting) == ChildrenOf(Payloads(records), HashOf(parent))
    requires |ChildrenOf(Payloads(records), HashOf(parent))| >= 2
    ensures ValidRecords(env, genesis, records + [r]) && Payloads(records + [r]) == Payloads(records) + {r.payload}
  {
    var p, all := r.payload, Payloads(records) + {r.payload};
    assert DistinctPayloads(records + [r]) by { DistinctAppend(records, r); }
    assert Reaches(genesis, all, p) by { PlannedReaches(env, genesis, records, parent, p); }
    assert RefersToSiblings(all, p) by { ResolverTakesOver(env, genesis, records, parent, p); }
    AppendValid(env, genesis, records, records + [r], r);
  }

  lemma ResolutionValid(env: Env, ledger: Ledger, parentHash: Hash, owners: seq<Identity>, policy: Policy, r: Record)
    requires ValidLedger(env, ledger) && StrictOrder(env.less)
             && Unresolved(ledger.genesis.payload, Payloads(Records(ledger)), parentHash)
    requires ResolvesAll(env, Payloads(Records(ledger)), parentHash.payload, owners, policy, r.payload)
    requires ValidOwners(env, owners) && env.payloadFits(r.payload)
    requires Approved(env, r.payload, r.approvals, NodeOf(parentHash.payload).owners, NodeOf(parentHash.payload).policy)
    requires WithinLimits(env, WithResolution(ledger, r))
    ensures ValidLedger(env, WithResolution(ledger, r))
    ensures Payloads(Records(WithResolution(ledger, r))) == Payloads(Records(ledger)) + {r.payload}
    ensures r.payload !in Payloads(Records(ledger))
  {
    var genesis, records, parent := ledger.genesis.payload, Records(ledger), parentHash.payload;
    PlannedIsGood(env, ledger, parent, owners, policy, r);
    RecordsWithResolution(ledger, r);
    ResolutionExtends(env, genesis, records, parent, r);
  }

  /** A planned resolution, once approved and added, gives a valid ledger in which it is the one resolver. */
  lemma ResolutionResolves(env: Env, ledger: Ledger, parentHash: Hash, owners: seq<Identity>, policy: Policy, r: Record)
    requires ValidLedger(env, ledger) && StrictOrder(env.less)
             && Unresolved(ledger.genesis.payload, Payloads(Records(ledger)), parentHash)
    requires ResolvesAll(env, Payloads(Records(ledger)), parentHash.payload, owners, policy, r.payload)
    requires ValidOwners(env, owners) && env.payloadFits(r.payload)
    requires Approved(env, r.payload, r.approvals, NodeOf(parentHash.payload).owners, NodeOf(parentHash.payload).policy)
    requires WithinLimits(env, WithResolution(ledger, r))
    ensures ValidLedger(env, WithResolution(ledger, r))
    ensures var payloads' := Payloads(Records(WithResolution(ledger, r)));
            && payloads' == Payloads(Records(ledger)) + {r.payload}
            && Resolvers(payloads', parentHash) == {HashOf(r.payload)}
            && Walk(payloads', parentHash.payload) == Authorized(HashOf(r.payload), NodeOf(r.payload))
  {
    var genesis, records, p, parent := ledger.genesis.payload, Records(ledger), r.payload, parentHash.payload;
    ResolutionValid(env, ledger, parentHash, owners, policy, r);
    ResolverWins(env, genesis, records, parent, p);
  }

  lemma ResolverWins(env: Env, genesis: Payload, records: seq<Record>, parent: Payload, p: Payload)
    requires ValidRecords(env, genesis, records) && p.Resolution? && p.parent == HashOf(parent)
             && p !in Payloads(records) && p != genesis
    requires Elements(p.conflicting) == ChildrenOf(Payloads(records), HashOf(parent))
    requires |ChildrenOf(Payloads(records), HashOf(parent))| >= 2
    ensures Resolvers(Payloads(records) + {p}, HashOf(parent)) == {HashOf(p)}
    ensures Walk(Payloads(records) + {p}, parent) == Authorized(HashOf(p), NodeOf(p))
  {
    ResolverTakesOver(env, genesis, records, parent, p);
    NewIsLeaf(env, genesis, records, p);
    PassesResolver(Payloads(records), parent, p);
  }

  /** Nothing in the ledger lies below a payload that is not in it. */
  lemma NewIsLeaf(env: Env, genesis: Payload, records: seq<Record>, p: Payload)
    requires ValidRecords(env, genesis, records) && p !in Payloads(records) && p != genesis && !p.Genesis?
    ensures ChildrenOf(Payloads(records) + {p}, HashOf(p)) == {}
  {
    forall c | c in Payloads(records) + {p} && !c.Genesis? ensures c.parent != HashOf(p) {
      if c in Payloads(records) {
        ValidPayloads(env, genesis, records, c);
        assert Reaches(genesis, Payloads(records), c);
      }
    }
  }

  lemma PassesResolver(payloads: set<Payload>, parent: Payload, p: Payload)
    requires !p.Genesis? && p.parent == HashOf(parent) && p !in payloads
    requires ChildrenOf(payloads, HashOf(parent)) != {}
    requires Resolvers(payloads + {p}, HashOf(parent)) == {HashOf(p)}
    requires ChildrenOf(payloads + {p}, HashOf(p)) == {}
    ensures Walk(payloads + {p}, parent) == Authorized(HashOf(p), NodeOf(p))
  {
    var all, h := payloads + {p}, HashOf(parent);
    ChildrenGrow(payloads, p, h);
    var k :| k in ChildrenOf(payloads, h);
    assert k != HashOf(p) && k in ChildrenOf(all, h) && HashOf(p) in ChildrenOf(all, h);
    assert forall x :: ChildrenOf(all, h) != {x};
    assert Next(all, parent) == Some(HashOf(p));
    ChildDeeper(all, parent, HashOf(p));
  }

  /** Adding a child below `parent` changes the walk only from `parent` on. */
  lemma {:induction false} WalkUpTo(payloads: set<Payload>, p: Payload, parent: Payload, cursor: Payload)
    requires !p.Genesis? && p.parent == HashOf(parent)
    requires match Walk(payloads, cursor)
             case Ambiguous(h, _) => h == HashOf(parent)
             case Authorized(h, _) => h == HashOf(parent)
    ensures Walk(payloads + {p}, cursor) == Walk(payloads + {p}, parent)
    decreases Deeper(payloads, cursor)
  {
    if cursor != parent {
      ChildrenGrow(payloads, p, HashOf(cursor));
      var all := payloads + {p};
      assert ChildrenOf(all, HashOf(cursor)) == ChildrenOf(payloads, HashOf(cursor));
      assert Resolvers(all, HashOf(cursor)) == Resolvers(payloads, HashOf(cursor));
      SameNext(payloads, all, cursor);
      var c := Next(payloads, cursor).value;
      ChildDeeper(payloads, cursor, c);
      ChildDeeper(all, cursor, c);
      WalkUpTo(payloads, p, parent, c.payload);
    }
  }

  lemma SameNext(payloads: set<Payload>, payloads': set<Payload>, p: Payload)
    requires ChildrenOf(payloads, HashOf(p)) == ChildrenOf(payloads', HashOf(p))
    requires Resolvers(payloads, HashOf(p)) == Resolvers(payloads', HashOf(p))
    ensures Next(payloads, p) == Next(payloads', p)
  {
    var siblings, resolvers := ChildrenOf(payloads, HashOf(p)), Resolvers(payloads, HashOf(p));
    assert forall x, y :: siblings == {x} && siblings == {y} ==> x == y by {
      forall x, y | siblings == {x} && siblings == {y} ensures x == y { assert x in siblings && x in {y}; }
    }
    assert forall x, y :: resolvers == {x} && resolvers == {y} ==> x == y by {
      forall x, y | resolvers == {x} && resolvers == {y} ensures x == y { assert x in resolvers && x in {y}; }
    }
  }

  /** So an approved resolution settles the conflict at which the authority walk had stopped. */
  lemma ResolutionSettles(env: Env, ledger: Ledger, parentHash: Hash, owners: seq<Identity>, policy: Policy, r: Record)
    requires ValidLedger(env, ledger) && StrictOrder(env.less)
             && Unresolved(ledger.genesis.payload, Payloads(Records(ledger)), parentHash)
    requires ResolvesAll(env, Payloads(Records(ledger)), parentHash.payload, owners, policy, r.payload)
    requires ValidOwners(env, owners) && env.payloadFits(r.payload)
    requires Approved(env, r.payload, r.approvals, NodeOf(parentHash.payload).owners, NodeOf(parentHash.payload).policy)
    requires WithinLimits(env, WithResolution(ledger, r))
    requires Walk(Payloads(Records(ledger)), ledger.genesis.payload)
             == Ambiguous(parentHash, ChildrenOf(Payloads(Records(ledger)), parentHash))
    ensures Walk(Payloads(Records(WithResolution(ledger, r))), ledger.genesis.payload)
            == Authorized(HashOf(r.payload), NodeOf(r.payload))
  {
    ResolutionResolves(env, ledger, parentHash, owners, policy, r);
    WalkUpTo(Payloads(Records(ledger)), r.payload, parentHash.payload, ledger.genesis.payload);
  }

  lemma PlannedReaches(env: Env, genesis: Payload, records: seq<Record>, parent: Payload, p: Payload)
    requires ValidRecords(env, genesis, records) && !p.Genesis? && p.parent == HashOf(parent)
    requires parent == genesis || parent in Payloads(records)
    ensures Reaches(genesis, Payloads(records) + {p}, p)
  {
    var all := Payloads(records) + {p};
    if parent != genesis {
      ValidPayloads(env, genesis, records, parent);
      ReachesMonotone(genesis, Payloads(records), all, parent);
    }
  }

  lemma ResolverTakesOver(env: Env, genesis: Payload, records: seq<Record>, parent: Payload, p: Payload)
    requires ValidRecords(env, genesis, records) && p.Resolution? && p.parent == HashOf(parent)
             && p !in Payloads(records)
    requires Elements(p.conflicting) == ChildrenOf(Payloads(records), HashOf(parent))
    requires |ChildrenOf(Payloads(records), HashOf(parent))| >= 2
    ensures Resolvers(Payloads(records) + {p}, HashOf(parent)) == {HashOf(p)}
    ensures RefersToSiblings(Payloads(records) + {p}, p)
  {
    var h, payloads, all := HashOf(parent), Payloads(records), Payloads(records) + {p};
    var kids := ChildrenOf(payloads, h);
    ChildrenGrow(payloads, p, h);
    assert HashOf(p) !in kids;
    assert ChildrenOf(all, h) - {HashOf(p)} == kids;
    forall c | c in kids ensures c !in Resolvers(all, h) {
      OldChildIncomplete(env, genesis, records, h, c, p);
    }
    assert HashOf(p) !in Elements(p.conflicting);
  }

  /** A certificate cannot name a sibling that arrived after it. */
  lemma OldChildIncomplete(env: Env, genesis: Payload, records: seq<Record>, h: Hash, c: Hash, p: Payload)
    requires ValidRecords(env, genesis, records) && !p.Genesis? && p.parent == h && p !in Payloads(records)
    requires c in ChildrenOf(Payloads(records), h)
    ensures c !in Resolvers(Payloads(records) + {p}, h)
  {
    var payloads := Payloads(records);
    ValidPayloads(env, genesis, records, c.payload);
    ChildrenGrow(payloads, p, h);
    if c.payload.Resolution? {
      assert HashOf(p) !in ChildrenOf(payloads, h);
      assert HashOf(p) !in Elements(c.payload.conflicting);
      assert HashOf(p) in ChildrenOf(payloads + {p}, h) - {c};
    }
  }

  /** A later sibling that does not itself cover all others leaves the parent without a resolver. */
  lemma LaterSiblingReopens(env: Env, genesis: Payload, records: seq<Record>, parent: Payload, s: Payload)
    requires ValidRecords(env, genesis, records) && !s.Genesis? && s.parent == HashOf(parent) && s !in Payloads(records)
    requires ChildrenOf(Payloads(records), HashOf(parent)) != {}
    requires s.Resolution? ==> Elements(s.conflicting) != ChildrenOf(Payloads(records), HashOf(parent))
    ensures var all := Payloads(records) + {s};
            && Resolvers(all, HashOf(parent)) == {}
            && Walk(all, parent) == Ambiguous(HashOf(parent), ChildrenOf(all, HashOf(parent)))
  {
    var h, payloads, all := HashOf(parent), Payloads(records), Payloads(records) + {s};
    var kids := ChildrenOf(payloads, h);
    ChildrenGrow(payloads, s, h);
    assert HashOf(s) !in kids && ChildrenOf(all, h) == kids + {HashOf(s)};
    assert ChildrenOf(all, h) - {HashOf(s)} == kids;
    forall c | c in kids ensures c !in Resolvers(all, h) {
      OldChildIncomplete(env, genesis, records, h, c, s);
    }
    assert Resolvers(all, h) == {};
    var k :| k in kids;
    assert forall x :: ChildrenOf(all, h) == {x} ==> x == k && x == HashOf(s);
    assert Next(all, parent) == None;
  }

  // ----- Transitions -----

  /** The transition that follows a certificate. */
  ghost function Successor(certificate: Hash, state: Node, owners: seq<Identity>, policy: Policy): Payload {
    Transition("scope-coownership-transition", VERSION, state.scopeId, certificate, state.epoch + 1, owners, policy)
  }

  /** The new owners are valid and differ from the old authority, the epochs last, and the payload fits. */
  ghost predicate Follows(env: Env, certificate: Hash, state: Node, owners: seq<Identity>, policy: Policy) {
    && ValidOwners(env, owners) && !(owners == state.owners && policy == state.policy) && state.epoch < MAX_EPOCH
    && env.payloadFits(Successor(certificate, state, owners, policy))
  }

  /** The ledger is valid, its walk is unambiguous, and a transition may follow where it ends. */
  ghost predicate MayFollow(env: Env, ledger: Ledger, owners: seq<Identity>, policy: Policy) {
    var status := Walk(Payloads(Records(ledger)), ledger.genesis.payload);
    ValidLedger(env, ledger) && status.Authorized? && Follows(env, status.certificate, status.node, owners, policy)
  }

  method DraftTransition(env: Env, certificate: Hash, state: Node, owners: seq<Identity>, policy: Policy)
    returns (r: Result<Payload, LedgerError>)
    ensures r.Ok? <==> Follows(env, certificate, state, owners, policy)
    ensures r.Ok? ==> r.value == Successor(certificate, state, owners, policy)
  {
    var ownersOk := CheckOwners(env, owners);
    if !ownersOk || (owners == state.owners && policy == state.policy) || state.epoch >= MAX_EPOCH {
      return Err(InvalidPayload);
    }
    var p := Transition("scope-coownership-transition", VERSION, state.scopeId, certificate, state.epoch + 1, owners,
                        policy);
    if !env.payloadFits(p) {
      return Err(LimitExceeded);
    }
    r := Ok(p);
  }

  method PlanTransition(env: Env, ledger: Ledger, owners: seq<Identity>, policy: Policy)
    returns (r: Result<Payload, LedgerError>)
    requires WellTyped(ledger)
    ensures r.Ok? <==> MayFollow(env, ledger, owners, policy)
    ensures r.Ok? ==>
      var status := Walk(Payloads(Records(ledger)), ledger.genesis.payload);
      r.value == Successor(status.certificate, status.node, owners, policy)
  {
    var validated := ValidateLedger(env, ledger);
    if validated.Err? {
      return Err(validated.error);
    }
    if validated.value.Ambiguous? {
      return Err(MissingEvidence);
    }
    r := DraftTransition(env, validated.value.certificate, validated.value.node, owners, policy);
  }

  /** The walk stops at the genesis or at a certificate of the ledger, which has no children if authorized. */
  lemma {:induction false} WalkStops(payloads: set<Payload>, p: Payload)
    ensures var status := Walk(payloads, p);
            status.Authorized? ==>
              && status.certificate.HashOf? && status.node == NodeOf(status.certificate.payload)
              && (status.certificate.payload == p || status.certificate.payload in payloads)
              && ChildrenOf(payloads, status.certificate) == {}
    decreases Deeper(payloads, p)
  {
    if ChildrenOf(payloads, HashOf(p)) != {} && Next(payloads, p).Some? {
      var c := Next(payloads, p).value;
      ChildDeeper(payloads, p, c);
      WalkStops(payloads, c.payload);
    }
  }

  ghost function WithTransition(ledger: Ledger, r: Record): Ledger {
    ledger.(transitions := ledger.transitions + [r])
  }

  lemma DistinctInsert(a: seq<Record>, b: seq<Record>, r: Record)
    requires DistinctPayloads(a + b) && r.payload !in Payloads(a + b)
    ensures DistinctPayloads((a + [r]) + b)
    ensures forall x :: x in (a + [r]) + b <==> x in a + b || x == r
  {
    var all, few := (a + [r]) + b, a + b;
    forall i | 0 <= i < |few| ensures few[i].payload != r.payload {
      assert few[i] in few;
    }
    forall i, j | 0 <= i < j < |all| ensures all[i].payload != all[j].payload {
      var k, l := if i < |a| then i else i - 1, if j < |a| then j else j - 1;
      assert i != |a| ==> all[i] == few[k];
      assert j != |a| ==> all[j] == few[l];
    }
  }

  /** A planned transition, once approved and added, is the authorized certificate. */
  lemma TransitionAdvances(env: Env, ledger: Ledger, owners: seq<Identity>, policy: Policy, r: Record)
    requires MayFollow(env, ledger, owners, policy)
    requires var status := Walk(Payloads(Records(ledger)), ledger.genesis.payload);
             && r.payload == Successor(status.certificate, status.node, owners, policy)
             && Approved(env, r.payload, r.approvals, status.node.owners, status.node.policy)
    requires WithinLimits(env, WithTransition(ledger, r))
    ensures ValidLedger(env, WithTransition(ledger, r))
    ensures Walk(Payloads(Records(WithTransition(ledger, r))), ledger.genesis.payload)
            == Authorized(HashOf(r.payload), NodeOf(r.payload))
  {
    var genesis, records, p := ledger.genesis.payload, Records(ledger), r.payload;
    var payloads := Payloads(records);
    WalkStops(payloads, genesis);
    var parent := Walk(payloads, genesis).certificate.payload;
    assert p in payloads ==> HashOf(p) in ChildrenOf(payloads, HashOf(parent));
    assert p !in payloads;
    assert Good(env, r);
    PlannedReaches(env, genesis, records, parent, p);
    DistinctInsert(ledger.transitions, ledger.resolutions, r);
    AppendValid(env, genesis, records, Records(WithTransition(ledger, r)), r);
    NewIsLeaf(env, genesis, records, p);
    PassesOnlyChild(payloads, parent, p);
    WalkUpTo(payloads, p, parent, genesis);
  }

  lemma PassesOnlyChild(payloads: set<Payload>, parent: Payload, p: Payload)
    requires !p.Genesis? && p.parent == HashOf(parent)
    requires ChildrenOf(payloads, HashOf(parent)) == {} && ChildrenOf(payloads + {p}, HashOf(p)) == {}
    ensures Walk(payloads + {p}, parent) == Authorized(HashOf(p), NodeOf(p))
  {
    var all, h := payloads + {p}, HashOf(parent);
    ChildrenGrow(payloads, p, h);
    assert ChildrenOf(all, h) == {HashOf(p)};
    assert forall x :: {HashOf(p)} == {x} ==> x == HashOf(p) by {
      forall x | {HashOf(p)} == {x} ensures x == HashOf(p) { assert x in {HashOf(p)}; }
    }
    assert Next(all, parent) == Some(HashOf(p));
    ChildDeeper(all, parent, HashOf(p));
  }
}
