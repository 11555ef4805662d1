/**
 The ownership chain of a workspace. Transfers and succession claims arrive as an unordered bag;
 the verifier picks them one by one. It is proved to accept exactly when the bag, sorted by epoch,
 links owner to owner with rising epochs, and its answer does not depend on who has been revoked.
 */
module OwnershipChain {
  import opened Wrappers
  import opened Ordering
  import opened Finite
  import opened Succession

  type DocumentGraph = map<string, seq<string>>

  // ----- Ancestry -----

  /** A path from a head to `h` along dependencies. */
  ghost predicate LeadsTo(graph: DocumentGraph, heads: seq<string>, path: seq<string>, h: string) {
    && path != [] && path[|path| - 1] == h
    && (if |path| == 1 then h in heads
        else
          var init := path[..|path| - 1];
          var before := init[|init| - 1];
          before in graph && h in graph[before] && LeadsTo(graph, heads, init, before))
  }

  /** `h` is a head or a dependency, direct or not, of one. */
  ghost predicate Reached(graph: DocumentGraph, heads: seq<string>, h: string) {
    exists path :: LeadsTo(graph, heads, path, h)
  }

  ghost predicate Present(graph: DocumentGraph, heads: seq<string>) {
    forall h :: Reached(graph, heads, h) ==> h in graph
  }

  ghost function Ancestors(graph: DocumentGraph, heads: seq<string>): set<string> {
    set h | h in graph.Keys && Reached(graph, heads, h)
  }

  ghost predicate Closed(graph: DocumentGraph, s: set<string>) {
    forall h, d :: h in s && h in graph && d in graph[h] ==> d in s
  }

  lemma HeadReached(graph: DocumentGraph, heads: seq<string>, h: string)
    requires h in heads
    ensures Reached(graph, heads, h)
  {
    assert LeadsTo(graph, heads, [h], h);
  }

  lemma DependencyReached(graph: DocumentGraph, heads: seq<string>, h: string, d: string)
    requires Reached(graph, heads, h) && h in graph && d in graph[h]
    ensures Reached(graph, heads, d)
  {
    var path :| LeadsTo(graph, heads, path, h);
    assert (path + [d])[..|path|] == path;
    assert LeadsTo(graph, heads, path + [d], d);
  }

  lemma {:induction false} PathStaysIn(graph: DocumentGraph, heads: seq<string>, path: seq<string>, h: string,
                                       s: set<string>)
    requires LeadsTo(graph, heads, path, h) && Closed(graph, s) && forall x :: x in heads ==> x in s
    ensures h in s
    decreases |path|
  {
    if |path| > 1 {
      var init := path[..|path| - 1];
      PathStaysIn(graph, heads, init, init[|init| - 1], s);
    }
  }

  lemma ReachedStaysIn(graph: DocumentGraph, heads: seq<string>, s: set<string>, h: string)
    requires Closed(graph, s) && (forall x :: x in heads ==> x in s) && Reached(graph, heads, h)
    ensures h in s
  {
    var path :| LeadsTo(graph, heads, path, h);
    PathStaysIn(graph, heads, path, h, s);
  }

  lemma AncestorsClosed(graph: DocumentGraph, heads: seq<string>)
    requires Present(graph, heads)
    ensures Closed(graph, Ancestors(graph, heads))
  {
    forall h, d | h in Ancestors(graph, heads) && d in graph[h] ensures d in Ancestors(graph, heads) {
      DependencyReached(graph, heads, h, d);
    }
  }

  ghost predicate Searching(graph: DocumentGraph, heads: seq<string>, allowed: set<string>, pending: seq<string>) {
    && allowed <= graph.Keys
    && (forall h :: h in allowed || h in pending ==> Reached(graph, heads, h))
    && (forall h :: h in heads ==> h in allowed || h in pending)
    && (forall h, d :: h in allowed && h in graph && d in graph[h] ==> d in allowed || d in pending)
  }

  lemma Visits(graph: DocumentGraph, heads: seq<string>, allowed: set<string>, pending: seq<string>)
    requires pending != [] && Searching(graph, heads, allowed, pending)
    requires pending[|pending| - 1] !in allowed && pending[|pending| - 1] in graph
    ensures var h := pending[|pending| - 1];
            Searching(graph, heads, allowed + {h}, pending[..|pending| - 1] + graph[h])
  {
    var h := pending[|pending| - 1];
    assert h in pending && pending == pending[..|pending| - 1] + [h];
    forall d | d in graph[h] ensures Reached(graph, heads, d) {
      DependencyReached(graph, heads, h, d);
    }
  }

  /** Depth-first closure: exactly the reachable hashes, or nothing when one of them is absent. */
  method Ancestry(graph: DocumentGraph, heads: seq<string>) returns (r: Option<set<string>>)
    ensures r.Some? <==> Present(graph, heads)
    ensures r.Some? ==> r.value == Ancestors(graph, heads)
    ensures r.Some? ==> forall h :: h in r.value <==> Reached(graph, heads, h)
  {
    var allowed: set<string>, pending := {}, heads;
    forall h | h in heads ensures Reached(graph, heads, h) { HeadReached(graph, heads, h); }
    while pending != []
      invariant Searching(graph, heads, allowed, pending)
      decreases graph.Keys - allowed, |pending|
    {
      var h := pending[|pending| - 1];
      assert pending == pending[..|pending| - 1] + [h];
      if h !in allowed {
        if h !in graph {
          assert h in pending;
          return None;
        }
        Visits(graph, heads, allowed, pending);
        allowed, pending := allowed + {h}, pending[..|pending| - 1] + graph[h];
      } else {
        pending := pending[..|pending| - 1];
      }
    }
    forall h | Reached(graph, heads, h) ensures h in allowed {
      ReachedStaysIn(graph, heads, allowed, h);
    }
    assert allowed == Ancestors(graph, heads);
    r := Some(allowed);
  }

  // ----- Transitions -----

  datatype Transfer = Transfer(fromOwner: string, next: Authority, heads: seq<string>, epoch: nat, evidence: string)

  datatype Transition = Transferred(transfer: Transfer) | Claimed(claim: Claim) {
    function From(): string { if Transferred? then transfer.fromOwner else claim.fromOwner }
    function Epoch(): nat { if Transferred? then transfer.epoch else claim.epoch }
    function Heads(): seq<string> { if Transferred? then transfer.heads else claim.heads }
    function Next(): Authority { if Transferred? then transfer.next else claim.next }
  }

  /** What a chain starts from and is checked against. */
  datatype Chain = Chain(
    env: Crypto,
    transferValid: (Transfer, Authority, nat) -> bool,
    workspace: string,
    owner: Authority,
    epoch: nat,
    needHeads: bool,
    graph: DocumentGraph)

  datatype ChainError = MissingTransition | ConflictingTransitions | InvalidLink | MissingHeads

  datatype Ownership = Ownership(current: Authority, history: seq<Authority>, frontiers: map<string, set<string>>)

  /** What a picked transition must pass: its own evidence, and heads that the document has. */
  ghost predicate Usable(c: Chain, revoked: set<string>, t: Transition, owner: Authority, epoch: nat) {
    LinkValid(c, revoked, t, owner, epoch) && (c.needHeads ==> Present(c.graph, t.Heads()))
  }

  ghost predicate LinkValid(c: Chain, revoked: set<string>, t: Transition, owner: Authority, epoch: nat) {
    match t
    case Transferred(transfer) => c.transferValid(transfer, owner, epoch)
    case Claimed(claim) => ValidClaim(c.env, claim, c.workspace, owner, epoch, revoked)
  }

  // ----- The specification: the bag in epoch order is a chain -----

  function OwnerAt(c: Chain, order: seq<Transition>, i: nat): Authority
    requires i <= |order|
  {
    if i == 0 then c.owner else order[i - 1].Next()
  }

  function EpochAt(c: Chain, order: seq<Transition>, i: nat): nat
    requires i <= |order|
  {
    if i == 0 then c.epoch else order[i - 1].Epoch()
  }

  ghost predicate Link(c: Chain, revoked: set<string>, order: seq<Transition>, i: nat)
    requires i < |order|
  {
    var t := order[i];
    && t.From() == OwnerAt(c, order, i).personId && t.Epoch() > EpochAt(c, order, i)
    && Usable(c, revoked, t, OwnerAt(c, order, i), EpochAt(c, order, i))
  }

  ghost predicate IsChain(c: Chain, revoked: set<string>, order: seq<Transition>) {
    forall i :: 0 <= i < |order| ==> Link(c, revoked, order, i)
  }

  predicate EpochLess(a: Transition, b: Transition) {
    a.Epoch() < b.Epoch()
  }

  function ByEpoch(bag: seq<Transition>): seq<Transition> {
    Sort(EpochLess, bag)
  }

  ghost function Frontier(c: Chain, t: Transition): set<string> {
    if c.needHeads then Ancestors(c.graph, t.Heads()) else {}
  }

  /** Everything that a former owner's own terms, taken together, may cover. */
  ghost function OwnFrontier(c: Chain, order: seq<Transition>, person: string): set<string> {
    set i, h | 0 <= i < |order| && OwnerAt(c, order, i).personId == person && h in Frontier(c, order[i]) :: h
  }

  ghost function FormerOwners(c: Chain, order: seq<Transition>): set<string> {
    set i | 0 <= i < |order| :: OwnerAt(c, order, i).personId
  }

  ghost function History(c: Chain, order: seq<Transition>): seq<Authority> {
    seq(|order|, i requires 0 <= i < |order| => OwnerAt(c, order, i))
  }

  ghost function Frontiers(c: Chain, order: seq<Transition>): map<string, set<string>> {
    map person | person in FormerOwners(c, order) :: OwnFrontier(c, order, person)
  }

  ghost function Outcome(c: Chain, order: seq<Transition>): Ownership {
    Ownership(OwnerAt(c, order, |order|), History(c, order), Frontiers(c, order))
  }

  // ----- Bags -----

  lemma {:induction false} DistinctCount<T(!new)>(q: seq<T>, x: T)
    requires Distinct(q)
    ensures multiset(q)[x] <= 1
  {
    if q != [] {
      var init, last := q[..|q| - 1], q[|q| - 1];
      DistinctCount(init, x);
      assert q == init + [last] && last !in init;
      if x == last { assert x !in multiset(init); }
    }
  }

  lemma PermutedDistinct<T(!new)>(p: seq<T>, q: seq<T>)
    requires Distinct(q) && multiset(p) == multiset(q)
    ensures Distinct(p)
  {
    forall i, j | 0 <= i < j < |p| ensures p[i] != p[j] {
      DistinctCount(q, p[i]);
      assert p == p[..j] + [p[j]] + p[j + 1..];
      assert p[i] in p[..j];
      assert multiset(p) == multiset(p[..j]) + multiset{p[j]} + multiset(p[j + 1..]);
    }
  }

  lemma {:induction false} InsertMultiset<T>(less: (T, T) -> bool, x: T, q: seq<T>)
    ensures multiset(Insert(less, x, q)) == multiset(q) + multiset{x}
  {
    if q != [] {
      assert q == q[..|q| - 1] + [q[|q| - 1]];
      if less(x, q[|q| - 1]) { InsertMultiset(less, x, q[..|q| - 1]); }
    }
  }

  lemma {:induction false} SortMultiset<T>(less: (T, T) -> bool, q: seq<T>)
    ensures multiset(Sort(less, q)) == multiset(q)
  {
    if q != [] {
      assert q == q[..|q| - 1] + [q[|q| - 1]];
      SortMultiset(less, q[..|q| - 1]);
      InsertMultiset(less, q[|q| - 1], Sort(less, q[..|q| - 1]));
    }
  }

  // ----- Chains rise, so a bag has at most one -----

  lemma {:induction false} EpochsRise(c: Chain, revoked: set<string>, order: seq<Transition>, i: nat, j: nat)
    requires IsChain(c, revoked, order) && i < j < |order|
    ensures order[i].Epoch() < order[j].Epoch()
    decreases j
  {
    assert Link(c, revoked, order, j);
    if i < j - 1 { EpochsRise(c, revoked, order, i, j - 1); }
  }

  lemma ChainSorted(c: Chain, revoked: set<string>, order: seq<Transition>)
    requires IsChain(c, revoked, order)
    ensures Sorted(EpochLess, order) && Distinct(order)
  {
    forall i, j | 0 <= i < j < |order| ensures EpochLess(order[i], order[j]) {
      EpochsRise(c, revoked, order, i, j);
    }
  }

  /** A chain over the bag is the bag in epoch order. */
  lemma ChainIsByEpoch(c: Chain, revoked: set<string>, bag: seq<Transition>, order: seq<Transition>)
    requires multiset(order) == multiset(bag) && IsChain(c, revoked, order)
    ensures order == ByEpoch(bag)
  {
    ChainSorted(c, revoked, order);
    PermutedDistinct(bag, order);
    forall x ensures x in order <==> x in bag {
      assert x in order <==> x in multiset(order);
      assert x in bag <==> x in multiset(bag);
    }
    forall i, j | 0 <= i < j < |bag| ensures EpochLess(bag[i], bag[j]) || EpochLess(bag[j], bag[i]) {
      assert bag[i] in bag && bag[j] in bag;
      var x :| 0 <= x < |order| && order[x] == bag[i];
      var y :| 0 <= y < |order| && order[y] == bag[j];
    }
    SortSorted(EpochLess, bag);
    SortElements(EpochLess, bag);
    SortedUnique(EpochLess, order, ByEpoch(bag));
  }

  // ----- The verifier -----

  predicate Candidate(t: Transition, owner: string, epoch: nat) {
    t.From() == owner && t.Epoch() > epoch
  }

  ghost predicate OnlyNext(rest: seq<Transition>, owner: string, epoch: nat, i: nat)
    requires i < |rest|
  {
    && Candidate(rest[i], owner, epoch)
    && forall j :: 0 <= j < |rest| && j != i && Candidate(rest[j], owner, epoch) ==> rest[i].Epoch() < rest[j].Epoch()
  }

  /** The one transition of the current owner with the least later epoch. */
  method PickNext(rest: seq<Transition>, owner: string, epoch: nat) returns (r: Result<nat, ChainError>)
    ensures r.Ok? ==> r.value < |rest| && OnlyNext(rest, owner, epoch, r.value)
    ensures r.Err? ==> forall i :: 0 <= i < |rest| ==> !OnlyNext(rest, owner, epoch, i)
  {
    var next := -1;
    for i := 0 to |rest|
      invariant -1 <= next < i
      invariant next == -1 ==> forall j :: 0 <= j < i ==> !Candidate(rest[j], owner, epoch)
      invariant next >= 0 ==> Candidate(rest[next], owner, epoch)
      invariant next >= 0 ==> forall j :: 0 <= j < i && Candidate(rest[j], owner, epoch) ==>
                rest[next].Epoch() <= rest[j].Epoch()
      invariant next >= 0 ==> forall j :: 0 <= j < next && Candidate(rest[j], owner, epoch) ==>
                rest[next].Epoch() < rest[j].Epoch()
    {
      if Candidate(rest[i], owner, epoch) && (next == -1 || rest[i].Epoch() < rest[next].Epoch()) {
        next := i;
      }
    }
    if next == -1 {
      return Err(MissingTransition);
    }
    for i := next + 1 to |rest|
      invariant forall j :: next < j < i && Candidate(rest[j], owner, epoch) ==> rest[next].Epoch() < rest[j].Epoch()
    {
      if rest[i].From() == owner && rest[i].Epoch() == rest[next].Epoch() {
        assert Candidate(rest[i], owner, epoch) && Candidate(rest[next], owner, epoch);
        return Err(ConflictingTransitions);
      }
    }
    r := Ok(next);
  }

  method CheckLink(c: Chain, revoked: set<string>, t: Transition, owner: Authority, epoch: nat) returns (ok: bool)
    ensures ok <==> LinkValid(c, revoked, t, owner, epoch)
  {
    match t
    case Transferred(transfer) => ok := c.transferValid(transfer, owner, epoch);
    case Claimed(claim) => ok := VerifyClaim(c.env, claim, c.workspace, owner, epoch, revoked);
  }

  lemma RestDistinct(c: Chain, revoked: set<string>, sorted: seq<Transition>, k: nat, rest: seq<Transition>)
    requires IsChain(c, revoked, sorted) && k <= |sorted| && multiset(rest) == multiset(sorted[k..])
    ensures Distinct(rest) && forall t :: t in rest ==> exists j :: k <= j < |sorted| && sorted[j] == t
  {
    ChainSorted(c, revoked, sorted);
    PermutedDistinct(rest, sorted[k..]);
    forall t | t in rest ensures exists j :: k <= j < |sorted| && sorted[j] == t {
      assert t in multiset(sorted[k..]);
      var j :| 0 <= j < |sorted[k..]| && sorted[k..][j] == t;
      assert sorted[k + j] == t;
    }
  }

  /** When the sorted bag is a chain, its next link is the one that is picked. */
  lemma SortedIsPicked(c: Chain, revoked: set<string>, sorted: seq<Transition>, k: nat, rest: seq<Transition>)
    requires IsChain(c, revoked, sorted) && k < |sorted| && multiset(rest) == multiset(sorted[k..])
    ensures exists i :: 0 <= i < |rest| && rest[i] == sorted[k]
    ensures forall i :: 0 <= i < |rest| ==>
            (OnlyNext(rest, OwnerAt(c, sorted, k).personId, EpochAt(c, sorted, k), i) <==> rest[i] == sorted[k])
  {
    var owner, epoch := OwnerAt(c, sorted, k).personId, EpochAt(c, sorted, k);
    RestDistinct(c, revoked, sorted, k, rest);
    assert sorted[k] == sorted[k..][0] && sorted[k] in multiset(rest);
    var at :| 0 <= at < |rest| && rest[at] == sorted[k];
    assert Link(c, revoked, sorted, k) && Candidate(rest[at], owner, epoch);
    forall j | 0 <= j < |rest| && j != at ensures rest[at].Epoch() < rest[j].Epoch() {
      assert rest[j] in rest;
      var m :| k <= m < |sorted| && sorted[m] == rest[j];
      EpochsRise(c, revoked, sorted, k, m);
    }
    assert OnlyNext(rest, owner, epoch, at);
  }

  lemma SnocChain(c: Chain, revoked: set<string>, done: seq<Transition>, t: Transition)
    requires IsChain(c, revoked, done)
    requires t.From() == OwnerAt(c, done, |done|).personId && t.Epoch() > EpochAt(c, done, |done|)
    requires Usable(c, revoked, t, OwnerAt(c, done, |done|), EpochAt(c, done, |done|))
    ensures IsChain(c, revoked, done + [t])
  {
    var more := done + [t];
    forall i | 0 <= i < |more| ensures Link(c, revoked, more, i) {
      if i < |done| {
        assert Link(c, revoked, done, i);
        assert OwnerAt(c, more, i) == OwnerAt(c, done, i) && EpochAt(c, more, i) == EpochAt(c, done, i);
      } else {
        assert OwnerAt(c, more, i) == OwnerAt(c, done, i) && EpochAt(c, more, i) == EpochAt(c, done, i);
      }
    }
  }

  lemma FrontierSnoc(c: Chain, done: seq<Transition>, t: Transition, person: string)
    ensures OwnFrontier(c, done + [t], person) ==
            OwnFrontier(c, done, person) + if OwnerAt(c, done, |done|).personId == person then Frontier(c, t) else {}
  {
    var more, n := done + [t], |done|;
    assert forall i :: 0 <= i <= n ==> OwnerAt(c, more, i) == OwnerAt(c, done, i);
    var extra := if OwnerAt(c, done, n).personId == person then Frontier(c, t) else {};
    forall h ensures h in OwnFrontier(c, more, person) <==> h in OwnFrontier(c, done, person) || h in extra {
      if h in OwnFrontier(c, more, person) {
        var i :| 0 <= i < |more| && OwnerAt(c, more, i).personId == person && h in Frontier(c, more[i]);
        if i < n { assert more[i] == done[i]; }
      }
      if h in OwnFrontier(c, done, person) {
        var i :| 0 <= i < |done| && OwnerAt(c, done, i).personId == person && h in Frontier(c, done[i]);
        assert more[i] == done[i];
      }
      if h in extra { assert more[n] == t; }
    }
  }

  lemma OwnersSnoc(c: Chain, done: seq<Transition>, t: Transition)
    ensures FormerOwners(c, done + [t]) == FormerOwners(c, done) + {OwnerAt(c, done, |done|).personId}
  {
    var more, n := done + [t], |done|;
    assert forall i :: 0 <= i <= n ==> OwnerAt(c, more, i) == OwnerAt(c, done, i);
    assert OwnerAt(c, more, n).personId in FormerOwners(c, more);
    forall p | p in FormerOwners(c, done) ensures p in FormerOwners(c, more) {
      var i :| 0 <= i < |done| && OwnerAt(c, done, i).personId == p;
      assert OwnerAt(c, more, i).personId == p;
    }
  }

  lemma HistorySnoc(c: Chain, done: seq<Transition>, t: Transition)
    ensures History(c, done + [t]) == History(c, done) + [OwnerAt(c, done, |done|)]
  {
    var more := done + [t];
    assert forall i :: 0 <= i <= |done| ==> OwnerAt(c, more, i) == OwnerAt(c, done, i);
  }

  lemma FrontiersSnoc(c: Chain, done: seq<Transition>, t: Transition)
    ensures var f, owner := Frontiers(c, done), OwnerAt(c, done, |done|).personId;
            var known := if owner in f then f[owner] else {};
            Frontiers(c, done + [t]) == f[owner := known + Frontier(c, t)]
  {
    var f, owner := Frontiers(c, done), OwnerAt(c, done, |done|).personId;
    var next := f[owner := (if owner in f then f[owner] else {}) + Frontier(c, t)];
    OwnersSnoc(c, done, t);
    if owner !in f {
      assert OwnFrontier(c, done, owner) == {};
    }
    assert next.Keys == FormerOwners(c, done + [t]);
    forall person | person in next ensures next[person] == OwnFrontier(c, done + [t], person) {
      FrontierSnoc(c, done, t, person);
    }
  }

  ghost predicate Building(c: Chain, revoked: set<string>, bag: seq<Transition>, done: seq<Transition>,
                           rest: seq<Transition>)
  {
    && IsChain(c, revoked, done) && multiset(done) + multiset(rest) == multiset(bag)
    && (IsChain(c, revoked, ByEpoch(bag)) ==>
          |done| <= |bag| && done == ByEpoch(bag)[..|done|])
  }

  lemma Remaining<T>(done: seq<T>, rest: seq<T>, sorted: seq<T>)
    requires multiset(done) + multiset(rest) == multiset(sorted) && |done| <= |sorted| && done == sorted[..|done|]
    ensures multiset(rest) == multiset(sorted[|done|..])
  {
    var tail := sorted[|done|..];
    assert sorted == done + tail;
    assert multiset(sorted) == multiset(done) + multiset(tail);
    forall x ensures multiset(rest)[x] == multiset(tail)[x] {
      assert (multiset(done) + multiset(rest))[x] == (multiset(done) + multiset(tail))[x];
    }
  }

  lemma Moved<T>(done: seq<T>, rest: seq<T>, i: nat)
    requires i < |rest|
    ensures multiset(done + [rest[i]]) + multiset(rest[..i] + rest[i + 1..]) == multiset(done) + multiset(rest)
  {
    assert rest == rest[..i] + [rest[i]] + rest[i + 1..];
  }

  lemma PickedIsNext(c: Chain, revoked: set<string>, bag: seq<Transition>, done: seq<Transition>, rest: seq<Transition>)
    requires rest != [] && Building(c, revoked, bag, done, rest) && IsChain(c, revoked, ByEpoch(bag))
    ensures |done| < |bag|
    ensures OwnerAt(c, ByEpoch(bag), |done|) == OwnerAt(c, done, |done|)
            && EpochAt(c, ByEpoch(bag), |done|) == EpochAt(c, done, |done|)
    ensures exists i ::
            0 <= i < |rest| && OnlyNext(rest, OwnerAt(c, done, |done|).personId, EpochAt(c, done, |done|), i)
    ensures forall i ::
            0 <= i < |rest| && OnlyNext(rest, OwnerAt(c, done, |done|).personId, EpochAt(c, done, |done|), i) ==>
              rest[i] == ByEpoch(bag)[|done|]
    ensures Link(c, revoked, ByEpoch(bag), |done|)
  {
    var sorted, k := ByEpoch(bag), |done|;
    SortMultiset(EpochLess, bag);
    Remaining(done, rest, sorted);
    assert rest[0] in multiset(sorted[k..]);
    SortedIsPicked(c, revoked, sorted, k, rest);
  }

  lemma BuildingGrows(c: Chain, revoked: set<string>, bag: seq<Transition>, done: seq<Transition>,
                      rest: seq<Transition>, i: nat)
    requires i < |rest| && Building(c, revoked, bag, done, rest)
    requires OnlyNext(rest, OwnerAt(c, done, |done|).personId, EpochAt(c, done, |done|), i)
    requires Usable(c, revoked, rest[i], OwnerAt(c, done, |done|), EpochAt(c, done, |done|))
    ensures Building(c, revoked, bag, done + [rest[i]], rest[..i] + rest[i + 1..])
  {
    var t, k, sorted := rest[i], |done|, ByEpoch(bag);
    SnocChain(c, revoked, done, t);
    Moved(done, rest, i);
    if IsChain(c, revoked, sorted) {
      PickedIsNext(c, revoked, bag, done, rest);
      assert sorted[..k + 1] == sorted[..k] + [t];
    }
  }

  /** While links of a chain are left, one is picked and usable. */
  lemma NextExists(c: Chain, revoked: set<string>, bag: seq<Transition>, done: seq<Transition>, rest: seq<Transition>)
    requires rest != [] && Building(c, revoked, bag, done, rest) && IsChain(c, revoked, ByEpoch(bag))
    ensures exists i ::
            0 <= i < |rest| && Selected(c, revoked, rest, OwnerAt(c, done, |done|), EpochAt(c, done, |done|), i)
  {
    PickedIsNext(c, revoked, bag, done, rest);
    var i :| 0 <= i < |rest| && OnlyNext(rest, OwnerAt(c, done, |done|).personId, EpochAt(c, done, |done|), i);
    assert Selected(c, revoked, rest, OwnerAt(c, done, |done|), EpochAt(c, done, |done|), i);
  }

  ghost predicate Selected(c: Chain, revoked: set<string>, rest: seq<Transition>, owner: Authority, epoch: nat, i: nat)
    requires i < |rest|
  {
    OnlyNext(rest, owner.personId, epoch, i) && Usable(c, revoked, rest[i], owner, epoch)
  }

  /** The next link and what its heads cover. */
  method NextLink(c: Chain, revoked: set<string>, rest: seq<Transition>, owner: Authority, epoch: nat)
    returns (r: Result<(nat, set<string>), ChainError>)
    ensures r.Ok? ==> r.value.0 < |rest| && Selected(c, revoked, rest, owner, epoch, r.value.0)
    ensures r.Ok? ==> r.value.1 == Frontier(c, rest[r.value.0])
    ensures r.Err? ==> forall i :: 0 <= i < |rest| ==> !Selected(c, revoked, rest, owner, epoch, i)
  {
    var next := PickNext(rest, owner.personId, epoch);
    if next.Err? {
      return Err(next.error);
    }
    var t := rest[next.value];
    var valid := CheckLink(c, revoked, t, owner, epoch);
    if !valid {
      return Err(InvalidLink);
    }
    if !c.needHeads {
      return Ok((next.value, {}));
    }
    var found := Ancestry(c.graph, t.Heads());
    if found.None? {
      return Err(MissingHeads);
    }
    r := Ok((next.value, found.value));
  }

  /**
   Accepts the bag exactly when it is a chain in epoch order; the outcome is a function of that
   order alone, so passes with different revocation sets that both succeed return the same.
   */
  method VerifyChain(c: Chain, revoked: set<string>, bag: seq<Transition>) returns (r: Result<Ownership, ChainError>)
    ensures r.Ok? <==> IsChain(c, revoked, ByEpoch(bag))
    ensures r.Ok? ==> r.value == Outcome(c, ByEpoch(bag))
  {
    var rest, current, epoch := bag, c.owner, c.epoch;
    var history: seq<Authority>, frontiers: map<string, set<string>> := [], map[];
    ghost var done: seq<Transition> := [];
    SortMultiset(EpochLess, bag);
    while rest != []
      invariant Building(c, revoked, bag, done, rest)
      invariant current == OwnerAt(c, done, |done|) && epoch == EpochAt(c, done, |done|)
      invariant history == History(c, done) && frontiers == Frontiers(c, done)
      decreases |rest|
    {
      if IsChain(c, revoked, ByEpoch(bag)) { NextExists(c, revoked, bag, done, rest); }
      var next := NextLink(c, revoked, rest, current, epoch);
      if next.Err? {
        return Err(next.error);
      }
      var (i, allowed) := next.value;
      var t := rest[i];
      BuildingGrows(c, revoked, bag, done, rest, i);
      HistorySnoc(c, done, t);
      FrontiersSnoc(c, done, t);
      var known := if current.personId in frontiers then frontiers[current.personId] else {};
      frontiers := frontiers[current.personId := known + allowed];
      history := history + [current];
      rest := rest[..i] + rest[i + 1..];
      current, epoch := t.Next(), t.Epoch();
      done := done + [t];
    }
    ChainIsByEpoch(c, revoked, bag, done);
    r := Ok(Ownership(current, history, frontiers));
  }
}
