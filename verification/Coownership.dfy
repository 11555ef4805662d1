/**
 The shared-owner ledger: a tree of certificates, each approved by a quorum of its parent's owners.
 A certificate hash is the payload it hashes, so hashing is injective and references cannot form a
 cycle; a hash of anything else is opaque text. The breadth-first validator is proved to accept
 exactly the valid ledgers, and to return the graph that their payloads determine.
 */
module Coownership {
  import opened Wrappers
  import opened Ordering
  import opened Finite

  const VERSION: nat := 2
  const MAX_OWNERS: nat := 64
  const MAX_TRANSITIONS: nat := 4096
  const MAX_RESOLUTIONS: nat := 4096
  const MAX_APPROVALS: nat := 2048
  const MAX_SCOPE_BYTES: nat := 512
  const MAX_EPOCH: nat := 0xFFFF_FFFF_FFFF_FFFF

  datatype Policy = Majority | Unanimous

  function Quorum(policy: Policy, owners: nat): nat {
    match policy
    case Majority => owners / 2 + 1
    case Unanimous => owners
  }

  /** More than half of the owners, or all of them. */
  ghost predicate Enough(policy: Policy, people: nat, owners: nat) {
    match policy
    case Majority => 2 * people > owners
    case Unanimous => people >= owners
  }

  datatype Identity = Identity(personId: string, publicKey: string, certificates: seq<string>)

  datatype Approval = Approval(signerKeyId: string, signature: string)

  datatype Hash = HashOf(payload: Payload) | Opaque(text: string)

  datatype Payload =
    | Genesis(kind: string, version: nat, scopeId: string, creator: Identity, policy: Policy, epoch: nat)
    | Transition(kind: string, version: nat, scopeId: string, parent: Hash, epoch: nat,
                 owners: seq<Identity>, policy: Policy)
    | Resolution(kind: string, version: nat, scopeId: string, parent: Hash, epoch: nat,
                 conflicting: seq<Hash>, owners: seq<Identity>, policy: Policy)

  datatype Record = Record(payload: Payload, approvals: seq<Approval>)

  datatype GenesisRecord = GenesisRecord(payload: Payload, signerKeyId: string, signature: string)

  datatype Ledger = Ledger(genesis: GenesisRecord, transitions: seq<Record>, resolutions: seq<Record>)

  /** Identity checks, signatures, serialized sizes and the order of encoded hashes are the environment's. */
  datatype Env = Env(
    validIdentity: Identity -> bool,
    signedBy: (Payload, string, string, Identity) -> bool,
    ownersFit: seq<Identity> -> bool,
    payloadFits: Payload -> bool,
    ledgerFits: Ledger -> bool,
    less: (Hash, Hash) -> bool)

  datatype LedgerError =
    | LimitExceeded | InvalidGenesis | InvalidSignature | DuplicatePayload | InvalidPayload
    | OrphanOrCycle | MissingEvidence | GenesisChanged

  datatype Node = Node(scopeId: string, epoch: nat, owners: seq<Identity>, policy: Policy)

  datatype Graph = Graph(
    genesisHash: Hash,
    nodes: map<Hash, Node>,
    children: map<Hash, set<Hash>>,
    resolutions: map<Hash, Payload>)

  /** The kinds of payload that each list of the ledger can hold. */
  ghost predicate WellTyped(ledger: Ledger) {
    && ledger.genesis.payload.Genesis?
    && (forall r :: r in ledger.transitions ==> r.payload.Transition?)
    && (forall r :: r in ledger.resolutions ==> r.payload.Resolution?)
  }

  function Records(ledger: Ledger): seq<Record> {
    ledger.transitions + ledger.resolutions
  }

  function NodeOf(p: Payload): (node: Node)
    ensures node.scopeId == p.scopeId && node.epoch == p.epoch && node.policy == p.policy
    ensures node.owners == if p.Genesis? then [p.creator] else p.owners
  {
    match p
    case Genesis(_, _, scopeId, creator, policy, epoch) => Node(scopeId, epoch, [creator], policy)
    case Transition(_, _, scopeId, _, epoch, owners, policy) => Node(scopeId, epoch, owners, policy)
    case Resolution(_, _, scopeId, _, epoch, _, owners, policy) => Node(scopeId, epoch, owners, policy)
  }

  // ----- Approvals -----

  datatype Match = NoOwner | One(person: string) | Many

  /** The owners whose root or device key made this approval. */
  ghost function MatchOwners(env: Env, p: Payload, a: Approval, owners: seq<Identity>): Match {
    if owners == [] then NoOwner
    else
      var before, last := MatchOwners(env, p, a, owners[..|owners| - 1]), owners[|owners| - 1];
      if !env.signedBy(p, a.signerKeyId, a.signature, last) then before
      else if before.NoOwner? then One(last.personId)
      else Many
  }

  ghost function PersonOf(env: Env, p: Payload, owners: seq<Identity>, a: Approval): string {
    var m := MatchOwners(env, p, a, owners);
    if m.One? then m.person else ""
  }

  ghost function People(env: Env, p: Payload, approvals: seq<Approval>, owners: seq<Identity>): set<string> {
    set a | a in approvals :: PersonOf(env, p, owners, a)
  }

  ghost predicate WellFormedApproval(a: Approval) {
    0 < |a.signerKeyId| <= MAX_SCOPE_BYTES && |a.signature| == 86
  }

  ghost predicate GoodApproval(env: Env, p: Payload, owners: seq<Identity>, a: Approval) {
    WellFormedApproval(a) && MatchOwners(env, p, a, owners).One?
  }

  ghost predicate GoodApprovals(env: Env, p: Payload, owners: seq<Identity>, approvals: seq<Approval>) {
    Distinct(approvals) && forall a :: a in approvals ==> GoodApproval(env, p, owners, a)
  }

  /** Distinct well-formed approvals, each by exactly one owner, and enough different people. */
  ghost predicate Approved(env: Env, p: Payload, approvals: seq<Approval>, owners: seq<Identity>, policy: Policy) {
    && 0 < |approvals| <= MAX_APPROVALS
    && GoodApprovals(env, p, owners, approvals)
    && Enough(policy, |People(env, p, approvals, owners)|, |owners|)
  }

  /** The owner at this index, and no other, made the approval. */
  ghost predicate OnlySigner(env: Env, p: Payload, a: Approval, owners: seq<Identity>, i: nat) {
    && i < |owners| && env.signedBy(p, a.signerKeyId, a.signature, owners[i])
    && forall j :: 0 <= j < |owners| && j != i ==> !env.signedBy(p, a.signerKeyId, a.signature, owners[j])
  }

  lemma {:induction false} NobodySigns(env: Env, p: Payload, a: Approval, owners: seq<Identity>)
    ensures MatchOwners(env, p, a, owners).NoOwner? <==>
            forall j :: 0 <= j < |owners| ==> !env.signedBy(p, a.signerKeyId, a.signature, owners[j])
  {
    if owners != [] { NobodySigns(env, p, a, owners[..|owners| - 1]); }
  }

  /** There is one match exactly when one index signs, and it is the person at that index. */
  lemma {:induction false} OneMatch(env: Env, p: Payload, a: Approval, owners: seq<Identity>)
    ensures MatchOwners(env, p, a, owners).One? <==> exists i: nat :: OnlySigner(env, p, a, owners, i)
    ensures forall i: nat :: OnlySigner(env, p, a, owners, i) ==>
            MatchOwners(env, p, a, owners) == One(owners[i].personId)
  {
    if owners != [] {
      var n, init := |owners| - 1, owners[..|owners| - 1];
      NobodySigns(env, p, a, init);
      OneMatch(env, p, a, init);
      if env.signedBy(p, a.signerKeyId, a.signature, owners[n]) {
        if MatchOwners(env, p, a, init).NoOwner? {
          assert forall j :: 0 <= j < n ==> init[j] == owners[j];
          assert OnlySigner(env, p, a, owners, n);
        } else {
          var j :| 0 <= j < n && env.signedBy(p, a.signerKeyId, a.signature, init[j]);
          assert owners[j] == init[j];
          assert forall i: nat :: !OnlySigner(env, p, a, owners, i);
        }
      } else {
        forall i: nat ensures OnlySigner(env, p, a, owners, i) <==> OnlySigner(env, p, a, init, i) {
          assert forall j :: 0 <= j < n ==> init[j] == owners[j];
        }
      }
    }
  }

  /** Answers the owner when exactly one index signs. */
  method MatchOwner(env: Env, p: Payload, a: Approval, owners: seq<Identity>) returns (r: Option<string>)
    ensures r == (if MatchOwners(env, p, a, owners).One? then Some(MatchOwners(env, p, a, owners).person) else None)
    ensures r.Some? <==> exists i: nat :: OnlySigner(env, p, a, owners, i)
    ensures forall i: nat :: OnlySigner(env, p, a, owners, i) ==> r == Some(owners[i].personId)
  {
    OneMatch(env, p, a, owners);
    var matched: Option<string> := None;
    for i := 0 to |owners|
      invariant MatchOwners(env, p, a, owners[..i]) == if matched.Some? then One(matched.value) else NoOwner
    {
      assert owners[..i + 1][..i] == owners[..i];
      if env.signedBy(p, a.signerKeyId, a.signature, owners[i]) {
        if matched.Some? {
          ManyStays(env, p, a, owners, i + 1);
          return None;
        }
        matched := Some(owners[i].personId);
      }
    }
    assert owners[..|owners|] == owners;
    r := matched;
  }

  lemma {:induction false} ManyStays(env: Env, p: Payload, a: Approval, owners: seq<Identity>, n: nat)
    requires n <= |owners| && MatchOwners(env, p, a, owners[..n]).Many?
    ensures MatchOwners(env, p, a, owners).Many?
    decreases |owners| - n
  {
    if n == |owners| {
      assert owners[..n] == owners;
    } else {
      assert owners[..n + 1][..n] == owners[..n];
      ManyStays(env, p, a, owners, n + 1);
    }
  }

  lemma ApprovalsSnoc(env: Env, p: Payload, owners: seq<Identity>, approvals: seq<Approval>, i: nat)
    requires i < |approvals| && GoodApprovals(env, p, owners, approvals[..i])
    ensures GoodApprovals(env, p, owners, approvals[..i + 1]) <==>
            GoodApproval(env, p, owners, approvals[i]) && approvals[i] !in Elements(approvals[..i])
    ensures !GoodApprovals(env, p, owners, approvals[..i + 1]) ==> !GoodApprovals(env, p, owners, approvals)
    ensures Elements(approvals[..i + 1]) == Elements(approvals[..i]) + {approvals[i]}
    ensures People(env, p, approvals[..i + 1], owners) ==
            People(env, p, approvals[..i], owners) + {PersonOf(env, p, owners, approvals[i])}
  {
    var before, all := approvals[..i], approvals[..i + 1];
    assert all == before + [approvals[i]];
    assert forall k :: 0 <= k < i ==> all[k] == before[k];
    assert approvals[i] in before ==> !Distinct(all) by {
      if approvals[i] in before {
        var k :| 0 <= k < i && before[k] == approvals[i];
        assert all[k] == all[i];
      }
    }
    forall a | a in before ensures PersonOf(env, p, owners, a) in People(env, p, all, owners) {
      assert a in all;
    }
    assert approvals[i] in all;
    assert forall a :: a in all ==> a in approvals;
  }

  method VerifyApprovals(env: Env, p: Payload, approvals: seq<Approval>, owners: seq<Identity>, policy: Policy)
    returns (ok: bool)
    ensures ok <==> Approved(env, p, approvals, owners, policy)
  {
    if |approvals| == 0 || |approvals| > MAX_APPROVALS {
      return false;
    }
    var seen: set<Approval>, people: set<string> := {}, {};
    for i := 0 to |approvals|
      invariant seen == Elements(approvals[..i])
      invariant people == People(env, p, approvals[..i], owners)
      invariant GoodApprovals(env, p, owners, approvals[..i])
    {
      var a := approvals[i];
      ApprovalsSnoc(env, p, owners, approvals, i);
      if a.signerKeyId == "" || |a.signerKeyId| > MAX_SCOPE_BYTES || |a.signature| != 86 || a in seen {
        return false;
      }
      seen := seen + {a};
      var person := MatchOwner(env, p, a, owners);
      if person.None? {
        return false;
      }
      people := people + {person.value};
    }
    assert approvals[..|approvals|] == approvals;
    ok := |people| >= Quorum(policy, |owners|);
  }

  // ----- Payloads -----

  ghost predicate WellSized(h: Hash) {
    h.HashOf? || |h.text| == 43
  }

  /** A bounded list of valid owners in strictly increasing order of their person ids. */
  ghost predicate ValidOwners(env: Env, owners: seq<Identity>) {
    && env.ownersFit(owners)
    && 0 < |owners| <= MAX_OWNERS
    && (forall i, j :: 0 <= i < j < |owners| ==> StrLess(owners[i].personId, owners[j].personId))
    && (forall i :: 0 <= i < |owners| ==> env.validIdentity(owners[i]))
  }

  /** Comparing neighbours is enough. */
  method CheckOwners(env: Env, owners: seq<Identity>) returns (ok: bool)
    ensures ok <==> ValidOwners(env, owners)
  {
    if !env.ownersFit(owners) || owners == [] || |owners| > MAX_OWNERS {
      return false;
    }
    StrOrder();
    for i := 1 to |owners|
      invariant forall j, k :: 0 <= j < k < i ==> StrLess(owners[j].personId, owners[k].personId)
    {
      if !StrLess(owners[i - 1].personId, owners[i].personId) {
        return false;
      }
      forall j | 0 <= j < i ensures StrLess(owners[j].personId, owners[i].personId) { }
    }
    for i := 0 to |owners|
      invariant forall j :: 0 <= j < i ==> env.validIdentity(owners[j])
    {
      if !env.validIdentity(owners[i]) {
        return false;
      }
    }
    ok := true;
  }

  ghost predicate ValidGenesis(env: Env, g: GenesisRecord)
    requires g.payload.Genesis?
  {
    var p := g.payload;
    && 0 < |p.scopeId| <= MAX_SCOPE_BYTES
    && p.kind == "scope-coownership-genesis" && p.version == VERSION && p.epoch == 1
    && env.payloadFits(p)
    && env.validIdentity(p.creator)
    && |g.signature| == 86 && env.signedBy(p, g.signerKeyId, g.signature, p.creator)
  }

  method CheckGenesis(env: Env, g: GenesisRecord) returns (ok: bool)
    requires g.payload.Genesis?
    ensures ok <==> ValidGenesis(env, g)
  {
    var p := g.payload;
    if p.scopeId == "" || |p.scopeId| > MAX_SCOPE_BYTES {
      return false;
    }
    if p.kind != "scope-coownership-genesis" || p.version != VERSION || p.epoch != 1 || !env.payloadFits(p) {
      return false;
    }
    if !env.validIdentity(p.creator) || |g.signature| != 86 {
      return false;
    }
    ok := env.signedBy(p, g.signerKeyId, g.signature, p.creator);
  }

  /** The hashes increase from each to the next, and each has the size of a hash. */
  ghost predicate ValidConflict(env: Env, conflicting: seq<Hash>) {
    && 2 <= |conflicting| <= MAX_TRANSITIONS + MAX_RESOLUTIONS
    && (forall i {:trigger conflicting[i]} :: 0 <= i < |conflicting| - 1 ==>
        env.less(conflicting[i], conflicting[i + 1]))
    && (forall i :: 0 <= i < |conflicting| ==> WellSized(conflicting[i]))
  }

  method CheckConflict(env: Env, conflicting: seq<Hash>) returns (ok: bool)
    ensures ok <==> ValidConflict(env, conflicting)
  {
    if |conflicting| < 2 || |conflicting| > MAX_TRANSITIONS + MAX_RESOLUTIONS {
      return false;
    }
    for i := 0 to |conflicting|
      invariant forall j {:trigger conflicting[j]} :: 0 <= j < i - 1 ==> env.less(conflicting[j], conflicting[j + 1])
      invariant forall j :: 0 <= j < i ==> WellSized(conflicting[j])
    {
      if i > 0 && !env.less(conflicting[i - 1], conflicting[i]) {
        return false;
      }
      if conflicting[i].Opaque? && |conflicting[i].text| != 43 {
        return false;
      }
    }
    ok := true;
  }

  /** What a transition or resolution must satisfy below its parent, apart from approvals. */
  ghost predicate ValidUnder(env: Env, p: Payload, parent: Node)
    requires !p.Genesis?
  {
    && parent.epoch < MAX_EPOCH
    && p.kind == (if p.Transition? then "scope-coownership-transition" else "scope-coownership-resolution")
    && p.version == VERSION && p.scopeId == parent.scopeId && WellSized(p.parent) && p.epoch == parent.epoch + 1
    && ValidOwners(env, p.owners)
    && (p.Resolution? ==> ValidConflict(env, p.conflicting))
    && env.payloadFits(p)
  }

  method CheckPayload(env: Env, p: Payload, parent: Node) returns (ok: bool)
    requires !p.Genesis?
    ensures ok <==> ValidUnder(env, p, parent)
  {
    if parent.epoch >= MAX_EPOCH {
      return false;
    }
    var expected := if p.Transition? then "scope-coownership-transition" else "scope-coownership-resolution";
    if p.kind != expected || p.version != VERSION || p.scopeId != parent.scopeId
      || (p.parent.Opaque? && |p.parent.text| != 43) || p.epoch != parent.epoch + 1 {
      return false;
    }
    var ownersOk := CheckOwners(env, p.owners);
    if !ownersOk {
      return false;
    }
    if p.Resolution? {
      var conflictOk := CheckConflict(env, p.conflicting);
      if !conflictOk {
        return false;
      }
    }
    ok := env.payloadFits(p);
  }

  // ----- Valid ledgers -----

  ghost function Payloads(records: seq<Record>): set<Payload> {
    set r | r in records :: r.payload
  }

  ghost predicate DistinctPayloads(records: seq<Record>) {
    forall i, j :: 0 <= i < j < |records| ==> records[i].payload != records[j].payload
  }

  /** `p` is reached from the genesis through payloads of the ledger. */
  ghost predicate Reaches(genesis: Payload, payloads: set<Payload>, p: Payload)
    decreases p
  {
    && p in payloads && !p.Genesis? && p.parent.HashOf?
    && (p.parent.payload == genesis || Reaches(genesis, payloads, p.parent.payload))
  }

  ghost predicate Good(env: Env, r: Record) {
    var p := r.payload;
    && !p.Genesis? && p.parent.HashOf?
    && ValidUnder(env, p, NodeOf(p.parent.payload))
    && Approved(env, p, r.approvals, NodeOf(p.parent.payload).owners, NodeOf(p.parent.payload).policy)
  }

  /** The certificates with the given parent. */
  ghost function ChildrenOf(payloads: set<Payload>, parent: Hash): set<Hash> {
    set p | p in payloads && !p.Genesis? && p.parent == parent :: HashOf(p)
  }

  /** A resolution names at least two retained siblings, and not itself. */
  ghost predicate RefersToSiblings(payloads: set<Payload>, p: Payload)
    requires p.Resolution?
  {
    && |Elements(p.conflicting)| >= 2
    && HashOf(p) !in p.conflicting
    && Elements(p.conflicting) <= ChildrenOf(payloads, p.parent)
  }

  ghost predicate WithinLimits(env: Env, ledger: Ledger) {
    |ledger.transitions| <= MAX_TRANSITIONS && |ledger.resolutions| <= MAX_RESOLUTIONS && env.ledgerFits(ledger)
  }

  ghost predicate ValidRecords(env: Env, genesis: Payload, records: seq<Record>) {
    && DistinctPayloads(records)
    && (forall r :: r in records ==> Reaches(genesis, Payloads(records), r.payload))
    && (forall r :: r in records ==> Good(env, r))
    && (forall r :: r in records && r.payload.Resolution? ==> RefersToSiblings(Payloads(records), r.payload))
  }

  ghost predicate ValidLedger(env: Env, ledger: Ledger) {
    && WellTyped(ledger) && WithinLimits(env, ledger) && ValidGenesis(env, ledger.genesis)
    && ValidRecords(env, ledger.genesis.payload, Records(ledger))
  }

  ghost function NodeMap(payloads: set<Payload>): map<Hash, Node> {
    var hashes := set p | p in payloads :: HashOf(p);
    map h | h in hashes && h.HashOf? :: NodeOf(h.payload)
  }

  ghost function ChildMap(payloads: set<Payload>): map<Hash, set<Hash>> {
    var parents := set p | p in payloads && !p.Genesis? :: p.parent;
    map h | h in parents :: ChildrenOf(payloads, h)
  }

  ghost function ResolutionMap(payloads: set<Payload>): map<Hash, Payload> {
    var hashes := set p | p in payloads && p.Resolution? :: HashOf(p);
    map h | h in hashes && h.HashOf? :: h.payload
  }

  /** The graph that a set of payloads determines. */
  ghost function GraphOf(genesis: Payload, payloads: set<Payload>): Graph {
    Graph(HashOf(genesis), NodeMap(payloads + {genesis}), ChildMap(payloads), ResolutionMap(payloads))
  }

  // ----- The validator -----

  ghost predicate NoGenesis(records: seq<Record>) {
    forall r :: r in records ==> !r.payload.Genesis?
  }

  ghost predicate IsGroup(records: seq<Record>, parent: Hash, group: seq<Record>)
    requires NoGenesis(records)
  {
    group != [] && forall r :: r in group <==> r in records && r.payload.parent == parent
  }

  /** `pending` holds the records by parent. */
  ghost predicate Indexed(records: seq<Record>, pending: map<Hash, seq<Record>>)
    requires NoGenesis(records)
  {
    && (forall h {:trigger IsGroup(records, h, pending[h])} :: h in pending ==> IsGroup(records, h, pending[h]))
    && (forall r :: r in records ==> r.payload.parent in pending)
  }

  lemma IndexSnoc(records: seq<Record>, r: Record, pending: map<Hash, seq<Record>>)
    requires NoGenesis(records) && Indexed(records, pending) && !r.payload.Genesis?
    ensures NoGenesis(records + [r])
    ensures var h := r.payload.parent;
            Indexed(records + [r], pending[h := (if h in pending then pending[h] else []) + [r]])
  {
    var h := r.payload.parent;
    var next := pending[h := (if h in pending then pending[h] else []) + [r]];
    forall x | x in next ensures IsGroup(records + [r], x, next[x]) {
      if x in pending { assert IsGroup(records, x, pending[x]); }
    }
  }

  lemma PayloadsSnoc(records: seq<Record>, i: nat)
    requires i < |records| && DistinctPayloads(records[..i])
    ensures Payloads(records[..i + 1]) == Payloads(records[..i]) + {records[i].payload}
    ensures DistinctPayloads(records[..i + 1]) <==> records[i].payload !in Payloads(records[..i])
    ensures !DistinctPayloads(records[..i + 1]) ==> !DistinctPayloads(records)
  {
    var before, all := records[..i], records[..i + 1];
    assert all == before + [records[i]];
    forall r | r in before ensures r.payload in Payloads(all) { assert r in all; }
    assert records[i] in all;
    assert forall k :: 0 <= k < i ==> all[k] == before[k] && before[k].payload in Payloads(before);
    if records[i].payload in Payloads(before) {
      var r :| r in before && r.payload == records[i].payload;
      var k :| 0 <= k < i && before[k] == r;
      assert all[k].payload == all[i].payload;
    }
  }

  /** Groups the records by parent, refusing a payload that does not fit or comes twice. */
  method Index(env: Env, records: seq<Record>) returns (r: Option<map<Hash, seq<Record>>>)
    requires NoGenesis(records)
    ensures r.Some? <==> DistinctPayloads(records) && forall x :: x in records ==> env.payloadFits(x.payload)
    ensures r.Some? ==> Indexed(records, r.value)
  {
    var pending: map<Hash, seq<Record>> := map[];
    var seen: set<Payload> := {};
    for i := 0 to |records|
      invariant DistinctPayloads(records[..i]) && seen == Payloads(records[..i])
      invariant forall x :: x in records[..i] ==> env.payloadFits(x.payload)
      invariant NoGenesis(records[..i]) && Indexed(records[..i], pending)
    {
      var record := records[i];
      assert record in records && records[..i + 1] == records[..i] + [record];
      PayloadsSnoc(records, i);
      if !env.payloadFits(record.payload) || record.payload in seen {
        return None;
      }
      seen := seen + {record.payload};
      IndexSnoc(records[..i], record, pending);
      var h := record.payload.parent;
      pending := pending[h := (if h in pending then pending[h] else []) + [record]];
    }
    assert records[..|records|] == records;
    r := Some(pending);
  }

  // Every certificate explored so far is good and reached, and the graph is theirs.
  ghost predicate Explored(env: Env, genesis: Payload, records: seq<Record>, done: set<Payload>, graph: Graph) {
    && done <= Payloads(records)
    && graph == GraphOf(genesis, done)
    && (forall r :: r in records && r.payload in done ==> Good(env, r))
    && (forall p :: p in done ==> Reaches(genesis, Payloads(records), p))
  }

  /**
   What is left lies in `pending` under its parent or in `group`; explored parents of pending groups are in
   `ready`.
   */
  ghost predicate Frontier(records: seq<Record>, done: set<Payload>, known: set<Hash>, pending: map<Hash, seq<Record>>,
                           ready: seq<Hash>, group: seq<Record>)
    requires NoGenesis(records)
  {
    && (forall h {:trigger IsGroup(records, h, pending[h])} :: h in pending ==> IsGroup(records, h, pending[h]))
    && (forall r :: r in records ==> r.payload in done || r.payload.parent in pending || r in group)
    && (forall p :: p in done ==> !p.Genesis? && p.parent !in pending)
    && (forall h :: h in pending && h in known ==> h in ready)
    && (forall h :: h in ready ==> h in known)
  }

  function AddNode(graph: Graph, p: Payload): Graph
    requires !p.Genesis?
  {
    var h := p.parent;
    Graph(
      graph.genesisHash,
      graph.nodes[HashOf(p) := NodeOf(p)],
      graph.children[h := (if h in graph.children then graph.children[h] else {}) + {HashOf(p)}],
      if p.Resolution? then graph.resolutions[HashOf(p) := p] else graph.resolutions)
  }

  lemma NodeKeys(payloads: set<Payload>)
    ensures forall h :: h in NodeMap(payloads) <==> h.HashOf? && h.payload in payloads
    ensures forall h :: h in NodeMap(payloads) ==> NodeMap(payloads)[h] == NodeOf(h.payload)
  {
    forall h: Hash | h.HashOf? && h.payload in payloads ensures h in NodeMap(payloads) {
      assert h == HashOf(h.payload);
    }
  }

  lemma ResolutionKeys(payloads: set<Payload>)
    ensures forall h :: h in ResolutionMap(payloads) <==> h.HashOf? && h.payload in payloads && h.payload.Resolution?
    ensures forall h :: h in ResolutionMap(payloads) ==> ResolutionMap(payloads)[h] == h.payload
  {
    forall h: Hash | h.HashOf? && h.payload in payloads && h.payload.Resolution? ensures h in ResolutionMap(payloads) {
      assert h == HashOf(h.payload);
    }
  }

  lemma GraphKeys(genesis: Payload, done: set<Payload>)
    ensures var g := GraphOf(genesis, done);
            && (forall h :: h in g.nodes <==> h.HashOf? && (h.payload in done || h.payload == genesis))
            && (forall h :: h in g.children <==> exists p :: p in done && !p.Genesis? && p.parent == h)
            && (forall h :: h in g.resolutions <==> h.HashOf? && h.payload in done && h.payload.Resolution?)
  {
    NodeKeys(done + {genesis});
    ResolutionKeys(done);
  }

  lemma ChildrenGrow(done: set<Payload>, p: Payload, h: Hash)
    requires !p.Genesis?
    ensures ChildrenOf(done + {p}, h) == ChildrenOf(done, h) + if p.parent == h then {HashOf(p)} else {}
  {
    forall c | c in ChildrenOf(done, h) ensures c in ChildrenOf(done + {p}, h) {
      assert c.payload in done + {p};
    }
    assert p in done + {p};
  }

  lemma ParentsGrow(done: set<Payload>, p: Payload)
    requires !p.Genesis?
    ensures ChildMap(done + {p}).Keys == ChildMap(done).Keys + {p.parent}
  {
    forall h | h in ChildMap(done) ensures h in ChildMap(done + {p}) {
      var q :| q in done && !q.Genesis? && q.parent == h;
      assert q in done + {p};
    }
    assert p in done + {p};
  }

  lemma NodesGrow(done: set<Payload>, p: Payload)
    ensures NodeMap(done + {p}) == NodeMap(done)[HashOf(p) := NodeOf(p)]
  {
    NodeKeys(done);
    NodeKeys(done + {p});
  }

  lemma ResolutionsGrow(done: set<Payload>, p: Payload)
    ensures ResolutionMap(done + {p}) == if p.Resolution?
            then ResolutionMap(done)[HashOf(p) := p] else ResolutionMap(done)
  {
    ResolutionKeys(done);
    ResolutionKeys(done + {p});
  }

  lemma ChildMapGrows(done: set<Payload>, p: Payload)
    requires !p.Genesis?
    ensures var c, h := ChildMap(done), p.parent;
            ChildMap(done + {p}) == c[h := (if h in c then c[h] else {}) + {HashOf(p)}]
  {
    var c, c' := ChildMap(done), ChildMap(done + {p});
    var a := c[p.parent := (if p.parent in c then c[p.parent] else {}) + {HashOf(p)}];
    ParentsGrow(done, p);
    forall h | h in c' ensures c'[h] == a[h] {
      ChildrenGrow(done, p, h);
      ChildlessMap(done, h);
    }
  }

  lemma ChildlessMap(done: set<Payload>, h: Hash)
    ensures h !in ChildMap(done) ==> ChildrenOf(done, h) == {}
  {
    if c :| c in ChildrenOf(done, h) {
      assert c.payload in done && c.payload.parent == h;
    }
  }

  lemma GraphGrows(genesis: Payload, done: set<Payload>, p: Payload)
    requires !p.Genesis?
    ensures GraphOf(genesis, done + {p}) == AddNode(GraphOf(genesis, done), p)
  {
    assert done + {p} + {genesis} == done + {genesis} + {p};
    NodesGrow(done + {genesis}, p);
    ResolutionsGrow(done, p);
    ChildMapGrows(done, p);
  }

  lemma NoChildren(genesis: Payload, done: set<Payload>, h: Hash)
    ensures h !in GraphOf(genesis, done).children ==> ChildrenOf(done, h) == {}
    ensures h in GraphOf(genesis, done).children ==> GraphOf(genesis, done).children[h] == ChildrenOf(done, h)
  {
    GraphKeys(genesis, done);
  }

  /** Adding one good record below an explored parent. */
  lemma ExploredGrows(env: Env, genesis: Payload, records: seq<Record>, done: set<Payload>, graph: Graph, r: Record)
    requires NoGenesis(records) && DistinctPayloads(records) && Explored(env, genesis, records, done, graph)
    requires r in records && Good(env, r) && r.payload.parent in graph.nodes
    ensures Explored(env, genesis, records, done + {r.payload}, AddNode(graph, r.payload))
  {
    var p := r.payload;
    GraphGrows(genesis, done, p);
    GraphKeys(genesis, done);
    assert p in Payloads(records);
    assert Reaches(genesis, Payloads(records), p);
    forall x | x in records && x.payload in done + {p} ensures Good(env, x) {
      if x.payload == p { SamePayload(records, x, r); }
    }
  }

  lemma SamePayload(records: seq<Record>, x: Record, y: Record)
    requires DistinctPayloads(records) && x in records && y in records && x.payload == y.payload
    ensures x == y
  {
    var i :| 0 <= i < |records| && records[i] == x;
    var j :| 0 <= j < |records| && records[j] == y;
  }

  lemma FrontierGrows(records: seq<Record>, done: set<Payload>, known: set<Hash>, pending: map<Hash, seq<Record>>,
                      ready: seq<Hash>, group: seq<Record>)
    requires NoGenesis(records) && group != [] && group[0] in records
    requires Frontier(records, done, known, pending, ready, group) && group[0].payload.parent !in pending
    ensures var p := group[0].payload;
            Frontier(records, done + {p}, known + {HashOf(p)}, pending, ready + [HashOf(p)], group[1..])
  {
    assert group == [group[0]] + group[1..];
    assert HashOf(group[0].payload) in ready + [HashOf(group[0].payload)];
  }

  /** Validates the records of one parent, in order. */
  method ExploreGroup(env: Env, parentHash: Hash, group: seq<Record>, graph: Graph, ready: seq<Hash>,
                      ghost genesis: Payload, ghost records: seq<Record>, ghost done: set<Payload>,
                      ghost pending: map<Hash, seq<Record>>)
    returns (r: Option<(Graph, seq<Hash>)>, ghost done': set<Payload>)
    requires NoGenesis(records) && DistinctPayloads(records)
    requires Explored(env, genesis, records, done, graph)
             && Frontier(records, done, graph.nodes.Keys, pending, ready, group)
    requires parentHash in graph.nodes && parentHash !in pending
    requires forall x :: x in group ==> x in records && x.payload.parent == parentHash
    ensures r.Some? ==>
            Explored(env, genesis, records, done', r.value.0)
              && Frontier(records, done', r.value.0.nodes.Keys, pending, r.value.1, [])
    ensures r.None? ==> exists x :: x in records && !Good(env, x)
  {
    var parent := graph.nodes[parentHash];
    var graph', ready' := graph, ready;
    done' := done;
    GraphKeys(genesis, done);
    for i := 0 to |group|
      invariant Explored(env, genesis, records, done', graph')
      invariant Frontier(records, done', graph'.nodes.Keys, pending, ready', group[i..])
      invariant parentHash in graph'.nodes
    {
      var record := group[i];
      var p := record.payload;
      assert record in group && record in records;
      var valid := CheckPayload(env, p, parent);
      if !valid {
        assert !Good(env, record);
        return None, done';
      }
      var ok := VerifyApprovals(env, p, record.approvals, parent.owners, parent.policy);
      if !ok {
        assert !Good(env, record);
        return None, done';
      }
      ExploredGrows(env, genesis, records, done', graph', record);
      FrontierGrows(records, done', graph'.nodes.Keys, pending, ready', group[i..]);
      assert group[i..][1..] == group[i + 1..];
      graph', ready', done' := AddNode(graph', p), ready' + [HashOf(p)], done' + {p};
    }
    assert group[|group|..] == [];
    r := Some((graph', ready'));
  }

  /** Once nothing is ready, whatever reaches the genesis is explored. */
  lemma {:induction false} ReachedIsExplored(env: Env, genesis: Payload, records: seq<Record>, done: set<Payload>,
                                             graph: Graph,
                                             pending: map<Hash, seq<Record>>, r: Record)
    requires NoGenesis(records) && Explored(env, genesis, records, done, graph)
    requires Frontier(records, done, graph.nodes.Keys, pending, [], [])
    requires r in records && Reaches(genesis, Payloads(records), r.payload)
    ensures r.payload in done
    decreases r.payload
  {
    var q := r.payload.parent.payload;
    GraphKeys(genesis, done);
    if q != genesis {
      var parent :| parent in records && parent.payload == q;
      ReachedIsExplored(env, genesis, records, done, graph, pending, parent);
    }
    assert r.payload.parent in graph.nodes;
  }

  /** Breadth-first from the genesis; None when a record is bad or out of reach. */
  method Explore(env: Env, genesis: Payload, records: seq<Record>, index: map<Hash, seq<Record>>)
    returns (r: Option<Graph>)
    requires NoGenesis(records) && DistinctPayloads(records) && Indexed(records, index)
    ensures r.Some? <==> forall x :: x in records ==> Good(env, x) && Reaches(genesis, Payloads(records), x.payload)
    ensures r.Some? ==> r.value == GraphOf(genesis, Payloads(records))
  {
    var graph := Graph(HashOf(genesis), map[HashOf(genesis) := NodeOf(genesis)], map[], map[]);
    var pending, ready := index, [HashOf(genesis)];
    ghost var done: set<Payload> := {};
    GraphKeys(genesis, {});
    assert graph == GraphOf(genesis, {});
    FrontierStarts(genesis, records, index);
    while ready != []
      invariant Explored(env, genesis, records, done, graph)
      invariant Frontier(records, done, graph.nodes.Keys, pending, ready, [])
      decreases pending.Keys, |ready|
    {
      var parentHash := ready[0];
      if parentHash !in pending {
        FrontierSkips(records, done, graph.nodes.Keys, pending, ready);
        ready := ready[1..];
        continue;
      }
      var group := pending[parentHash];
      assert IsGroup(records, parentHash, pending[parentHash]);
      FrontierPops(records, done, graph.nodes.Keys, pending, ready);
      ready := ready[1..];
      pending := pending - {parentHash};
      var next;
      next, done := ExploreGroup(env, parentHash, group, graph, ready, genesis, records, done, pending);
      if next.None? {
        return None;
      }
      graph, ready := next.value.0, next.value.1;
    }
    if pending.Keys != {} {
      OrphanUnreached(env, genesis, records, done, graph, pending);
      return None;
    }
    AllExplored(records, done, graph, pending);
    r := Some(graph);
  }

  lemma FrontierSkips(records: seq<Record>, done: set<Payload>, known: set<Hash>, pending: map<Hash, seq<Record>>,
                      ready: seq<Hash>)
    requires NoGenesis(records) && ready != [] && ready[0] !in pending
    requires Frontier(records, done, known, pending, ready, [])
    ensures Frontier(records, done, known, pending, ready[1..], [])
  {
    assert ready == [ready[0]] + ready[1..];
  }

  lemma FrontierStarts(genesis: Payload, records: seq<Record>, index: map<Hash, seq<Record>>)
    requires NoGenesis(records) && Indexed(records, index)
    ensures Frontier(records, {}, {HashOf(genesis)}, index, [HashOf(genesis)], [])
  {
  }

  lemma FrontierPops(records: seq<Record>, done: set<Payload>, known: set<Hash>, pending: map<Hash, seq<Record>>,
                     ready: seq<Hash>)
    requires NoGenesis(records) && ready != [] && ready[0] in pending
    requires Frontier(records, done, known, pending, ready, [])
    ensures Frontier(records, done, known, pending - {ready[0]}, ready[1..], pending[ready[0]])
  {
    assert IsGroup(records, ready[0], pending[ready[0]]);
    var rest := pending - {ready[0]};
    forall h | h in rest ensures IsGroup(records, h, rest[h]) {
      assert IsGroup(records, h, pending[h]);
    }
    assert ready == [ready[0]] + ready[1..];
  }

  lemma OrphanUnreached(env: Env, genesis: Payload, records: seq<Record>, done: set<Payload>, graph: Graph,
                        pending: map<Hash, seq<Record>>)
    requires NoGenesis(records) && Explored(env, genesis, records, done, graph)
    requires Frontier(records, done, graph.nodes.Keys, pending, [], []) && pending.Keys != {}
    ensures exists x :: x in records && !Reaches(genesis, Payloads(records), x.payload)
  {
    var h :| h in pending;
    assert IsGroup(records, h, pending[h]);
    var x := pending[h][0];
    assert x in records && x.payload !in done;
    if Reaches(genesis, Payloads(records), x.payload) {
      ReachedIsExplored(env, genesis, records, done, graph, pending, x);
    }
  }

  lemma AllExplored(records: seq<Record>, done: set<Payload>, graph: Graph, pending: map<Hash, seq<Record>>)
    requires NoGenesis(records) && Frontier(records, done, graph.nodes.Keys, pending, [], []) && pending.Keys == {}
    requires done <= Payloads(records)
    ensures done == Payloads(records)
  {
  }

  /** Accepts exactly the valid ledgers; the graph is a function of their payloads. */
  method BuildGraph(env: Env, ledger: Ledger) returns (r: Result<Graph, LedgerError>)
    requires WellTyped(ledger)
    ensures r.Ok? <==> ValidLedger(env, ledger)
    ensures r.Ok? ==> r.value == GraphOf(ledger.genesis.payload, Payloads(Records(ledger)))
  {
    if |ledger.transitions| > MAX_TRANSITIONS || |ledger.resolutions| > MAX_RESOLUTIONS || !env.ledgerFits(ledger) {
      return Err(LimitExceeded);
    }
    var genesisOk := CheckGenesis(env, ledger.genesis);
    if !genesisOk {
      return Err(InvalidGenesis);
    }
    var genesis, records := ledger.genesis.payload, Records(ledger);
    var index := Index(env, records);
    if index.None? {
      BadRecords(env, genesis, records);
      return Err(DuplicatePayload);
    }
    var graph := Explore(env, genesis, records, index.value);
    if graph.None? {
      return Err(OrphanOrCycle);
    }
    var ok := CheckReferences(graph.value, genesis, records);
    if !ok {
      return Err(MissingEvidence);
    }
    r := Ok(graph.value);
  }

  lemma BadRecords(env: Env, genesis: Payload, records: seq<Record>)
    requires NoGenesis(records)
    requires !(DistinctPayloads(records) && forall x :: x in records ==> env.payloadFits(x.payload))
    ensures !ValidRecords(env, genesis, records)
  {
    if x :| x in records && !env.payloadFits(x.payload) {
      assert !Good(env, x);
    }
  }

  /** Resolution references must name sibling evidence retained in the ledger. */
  method CheckReferences(graph: Graph, ghost genesis: Payload, ghost records: seq<Record>) returns (ok: bool)
    requires NoGenesis(records) && graph == GraphOf(genesis, Payloads(records))
    ensures ok <==> forall r :: r in records && r.payload.Resolution? ==> RefersToSiblings(Payloads(records), r.payload)
  {
    GraphKeys(genesis, Payloads(records));
    var todo := graph.resolutions.Keys;
    while todo != {}
      invariant todo <= graph.resolutions.Keys
      invariant forall h :: h in graph.resolutions.Keys - todo ==>
                RefersToSiblings(Payloads(records), graph.resolutions[h])
      decreases todo
    {
      var id :| id in todo;
      var p := graph.resolutions[id];
      NoChildren(genesis, Payloads(records), p.parent);
      var siblings := if p.parent in graph.children then graph.children[p.parent] else {};
      var referenced := set h | h in p.conflicting;
      if |referenced| < 2 || id in referenced || !(referenced <= siblings) {
        ghost var r :| r in records && r.payload == p;
        return false;
      }
      todo := todo - {id};
    }
    forall r | r in records && r.payload.Resolution? ensures RefersToSiblings(Payloads(records), r.payload) {
      assert HashOf(r.payload) in graph.resolutions;
    }
    ok := true;
  }
}
