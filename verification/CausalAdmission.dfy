/**
 Causal admission: every change of a dependency graph becomes admitted, quarantined or pending.
 The fixpoint, the quarantine passes, the cascade and the projection are followed step by step, and
 their outcome is proved to be a function of the graph alone. The content checks of one change read
 only that change and its causal frontier, so they enter as evidence carried by the change.
 */
module CausalAdmission {
  import opened Roles
  import opened Wrappers
  import opened Finite
  import CausalOrder

  type Hash = CausalOrder.Hash

  datatype Wait = Unresolved | MissingDependency | OutsideProjection | ChainUnresolved

  datatype Reason =
    | SourceRule(text: string) | AutomationRule(text: string) | Provenance(text: string)
    | InitialEditor | ScopeMissing | Uncovered
    | SourceConflict | RebindConflict | MoveConflict

  datatype Status = Admitted(role: Role) | Quarantined(reason: Reason) | Pending(wait: Wait)

  datatype Effect = Effect(itemId: string, moved: bool)

  /** What the signed proofs and the content checks say about one change. */
  datatype Evidence = Evidence(
    role: Option<Role>,                          // the role its verified proofs give it
    provenanceError: Option<string>,
    sources: Result<seq<string>, string>,        // application sources it creates, or the rule it breaks
    sourceBase: Option<string>,                  // the entities map those sources live in
    rebound: Option<string>,                     // the entities map it replaces
    automation: Option<Result<Effect, string>>)  // verdict of the automation policy; None without a scope

  datatype Change = Change(hash: Hash, dependencies: seq<Hash>, evidence: Evidence)

  type Graph = map<Hash, Change>

  /** The role its verified proofs give it, with its content checks passed. */
  predicate Vetted(change: Change, role: Role) {
    var e := change.evidence;
    && e.role == Some(role) && e.sources.Ok?
    && (role == Editor ==> change.dependencies != [])
    && (role == Automation ==> e.automation.Some? && e.automation.value.Ok?)
  }

  /** What the evidence must show for a change to be refused with this reason. */
  predicate Refuses(change: Change, reason: Reason) {
    var e := change.evidence;
    match reason
    case Provenance(text) => e.role == None && e.provenanceError == Some(text)
    case Uncovered => e.role == None && e.provenanceError == None
    case SourceRule(text) => e.role != None && e.sources == Err(text)
    case InitialEditor => e.role == Some(Editor) && e.sources.Ok? && change.dependencies == []
    case ScopeMissing => e.role == Some(Automation) && e.sources.Ok? && e.automation == None
    case AutomationRule(text) => e.role == Some(Automation) && e.sources.Ok? && e.automation == Some(Err(text))
    case _ => false
  }

  /**
   The verdict on a change whose dependencies are all admitted: admitted with exactly the role it is vetted
   for, refused with exactly the reason its evidence gives.
   */
  function OwnStatus(change: Change): (s: Status)
    ensures !s.Pending?
    ensures s.Admitted? ==> Vetted(change, s.role)
    ensures forall role :: Vetted(change, role) ==> s == Admitted(role)
    ensures s.Quarantined? ==> Refuses(change, s.reason)
    ensures forall reason :: Refuses(change, reason) ==> s == Quarantined(reason)
  {
    var e := change.evidence;
    if e.role.None? then
      if e.provenanceError.Some? then Quarantined(Provenance(e.provenanceError.value)) else Quarantined(Uncovered)
    else if e.sources.Err? then Quarantined(SourceRule(e.sources.error))
    else if e.role.value == Editor && change.dependencies == [] then Quarantined(InitialEditor)
    else if e.role.value == Automation then
      match e.automation
      case None => Quarantined(ScopeMissing)
      case Some(Err(text)) => Quarantined(AutomationRule(text))
      case Some(Ok(_)) => Admitted(Automation)
    else Admitted(e.role.value)
  }

  // ----- What the graph alone says -----

  ghost predicate Edge(g: Graph, a: Hash, b: Hash) {
    a in g && b in g[a].dependencies
  }

  /** Each hash is followed by one of its dependencies. */
  ghost predicate IsPath(g: Graph, p: seq<Hash>) {
    p != [] && forall i, j {:trigger Edge(g, p[i], p[j])} :: 0 <= i < j < |p| && j == i + 1 ==> Edge(g, p[i], p[j])
  }

  lemma PathSlice(g: Graph, p: seq<Hash>, lo: nat, hi: nat)
    requires IsPath(g, p) && lo < hi <= |p|
    ensures IsPath(g, p[lo..hi])
  {
    var q := p[lo..hi];
    forall i, j | 0 <= i < j < |q| && j == i + 1 ensures Edge(g, q[i], q[j]) {
      assert Edge(g, p[lo + i], p[lo + j]);
    }
  }

  lemma PathConcat(g: Graph, p: seq<Hash>, q: seq<Hash>)
    requires IsPath(g, p) && IsPath(g, q) && Edge(g, p[|p| - 1], q[0])
    ensures IsPath(g, p + q)
  {
    var r := p + q;
    forall i, j | 0 <= i < j < |r| && j == i + 1 ensures Edge(g, r[i], r[j]) {
      if j < |p| {
        assert Edge(g, p[i], p[j]);
      } else if i >= |p| {
        assert Edge(g, q[i - |p|], q[j - |p|]);
      }
    }
  }

  ghost predicate LacksDependency(g: Graph, h: Hash)
    requires h in g
  {
    exists d :: d in g[h].dependencies && d !in g
  }

  /** It is there, and it is the trusted basis or vetted for some role. */
  ghost predicate Acceptable(g: Graph, basis: Option<Hash>, h: Hash) {
    h in g && (basis == Some(h) || exists role :: Vetted(g[h], role))
  }

  /** A dependency path that meets only present changes passing their own check, none of them twice. */
  ghost predicate CleanPath(g: Graph, basis: Option<Hash>, p: seq<Hash>)
    requires p != []
  {
    Acceptable(g, basis, p[|p| - 1]) && Distinct(p)
  }

  /** All transitive dependencies of `h` are present, acyclic and pass their own check. */
  ghost predicate Clean(g: Graph, basis: Option<Hash>, h: Hash) {
    forall p {:trigger CleanPath(g, basis, p)} :: IsPath(g, p) && p[0] == h ==> CleanPath(g, basis, p)
  }

  ghost predicate DependenciesClean(g: Graph, basis: Option<Hash>, h: Hash)
    requires h in g
  {
    forall d {:trigger Clean(g, basis, d)} :: d in g[h].dependencies ==> Clean(g, basis, d)
  }

  /** A change that fails by itself: a dependency is missing, or its own check refuses it. */
  ghost predicate BadRoot(g: Graph, basis: Option<Hash>, h: Hash) {
    h in g && (LacksDependency(g, h) || (DependenciesClean(g, basis, h) && !Acceptable(g, basis, h)))
  }

  ghost predicate BadBelow(g: Graph, basis: Option<Hash>, h: Hash) {
    exists p :: IsPath(g, p) && |p| >= 2 && p[0] == h && BadRoot(g, basis, p[|p| - 1])
  }

  /** The status the graph gives a change, with no reference to the order of evaluation. */
  ghost function GraphStatus(g: Graph, basis: Option<Hash>, h: Hash): Status
    requires h in g
  {
    if basis == Some(h) then Admitted(Owner)
    else if LacksDependency(g, h) then Pending(MissingDependency)
    else if DependenciesClean(g, basis, h) then OwnStatus(g[h])
    else if BadBelow(g, basis, h) then Pending(OutsideProjection)
    else Pending(ChainUnresolved)
  }

  /** The checks on a trusted basis: it is there, and it is the single root. */
  ghost predicate BasisOk(g: Graph, basis: Option<Hash>) {
    basis.Some? ==>
      && basis.value in g && g[basis.value].dependencies == []
      && forall h :: h in g && g[h].dependencies == [] ==> h == basis.value
  }

  // ----- The fixpoint -----

  predicate Refused(status: Status) {
    status.Quarantined? || (status.Pending? && status.wait != Unresolved)
  }

  ghost predicate AllAdmitted(g: Graph, statuses: map<Hash, Status>, h: Hash)
    requires h in g
  {
    forall d :: d in g[h].dependencies ==> d in statuses && statuses[d].Admitted?
  }

  ghost predicate SomeRefused(g: Graph, statuses: map<Hash, Status>, h: Hash)
    requires h in g
  {
    exists d :: d in g[h].dependencies && d in statuses && Refused(statuses[d])
  }

  ghost predicate SomeUnresolved(g: Graph, statuses: map<Hash, Status>, h: Hash)
    requires h in g
  {
    exists d :: d in g[h].dependencies && d in statuses && statuses[d] == Pending(Unresolved)
  }

  ghost predicate RankedBelow(g: Graph, rank: map<Hash, nat>, h: Hash)
    requires h in g
  {
    h in rank && forall d :: d in g[h].dependencies ==> d in rank && rank[d] < rank[h]
  }

  ghost predicate RefusedBefore(g: Graph, statuses: map<Hash, Status>, rank: map<Hash, nat>, h: Hash)
    requires h in g
  {
    h in rank && exists d ::
      d in g[h].dependencies && d in statuses && Refused(statuses[d]) && d in rank && rank[d] < rank[h]
  }

  /** A decided status has its reason in the statuses decided before it; `rank` is the moment of decision. */
  ghost predicate Justified(g: Graph, basis: Option<Hash>, statuses: map<Hash, Status>, rank: map<Hash, nat>, h: Hash)
    requires h in g && h in statuses
  {
    if basis == Some(h) then statuses[h] == Admitted(Owner) && h in rank
    else match statuses[h]
      case Pending(Unresolved) => true
      case Pending(MissingDependency) => LacksDependency(g, h) && h in rank
      case Pending(OutsideProjection) => !LacksDependency(g, h) && RefusedBefore(g, statuses, rank, h)
      case Pending(ChainUnresolved) => false
      case _ => statuses[h] == OwnStatus(g[h]) && AllAdmitted(g, statuses, h) && RankedBelow(g, rank, h)
  }

  ghost predicate Sound(g: Graph, basis: Option<Hash>, statuses: map<Hash, Status>, rank: map<Hash, nat>) {
    && statuses.Keys == g.Keys && rank.Keys <= g.Keys
    && (forall h :: h in g ==> (h in rank <==> statuses[h] != Pending(Unresolved)))
    && forall h {:trigger Justified(g, basis, statuses, rank, h)} :: h in g ==> Justified(g, basis, statuses, rank, h)
  }

  /** No rule of the fixpoint applies to an unresolved change. */
  ghost predicate Settled(g: Graph, statuses: map<Hash, Status>, h: Hash)
    requires h in g && h in statuses
  {
    statuses[h] == Pending(Unresolved) ==>
      !LacksDependency(g, h) && !SomeRefused(g, statuses, h) && SomeUnresolved(g, statuses, h)
  }

  ghost predicate Quiescent(g: Graph, statuses: map<Hash, Status>)
    requires statuses.Keys == g.Keys
  {
    forall h {:trigger Settled(g, statuses, h)} :: h in g ==> Settled(g, statuses, h)
  }

  // ----- The fixpoint is what the graph says -----

  lemma {:induction false} AdmittedPath(g: Graph, basis: Option<Hash>, statuses: map<Hash, Status>,
                                        rank: map<Hash, nat>, p: seq<Hash>)
    requires BasisOk(g, basis) && Sound(g, basis, statuses, rank)
    requires IsPath(g, p) && p[0] in g && statuses[p[0]].Admitted?
    ensures forall i :: 0 <= i < |p| ==> p[i] in g && statuses[p[i]].Admitted? && p[i] in rank
    ensures forall i, j :: 0 <= i < j < |p| ==> rank[p[j]] < rank[p[i]]
    decreases |p|
  {
    var last := p[|p| - 1];
    if |p| > 1 {
      var init := p[0..|p| - 1];
      PathSlice(g, p, 0, |p| - 1);
      AdmittedPath(g, basis, statuses, rank, init);
      var prior := init[|init| - 1];
      assert prior == p[|p| - 2] && Edge(g, p[|p| - 2], p[|p| - 1]);
      assert Justified(g, basis, statuses, rank, prior);
      assert AllAdmitted(g, statuses, prior) && RankedBelow(g, rank, prior);
    } else {
      assert Justified(g, basis, statuses, rank, last);
    }
  }

  lemma AdmittedIsClean(g: Graph, basis: Option<Hash>, statuses: map<Hash, Status>, rank: map<Hash, nat>, h: Hash)
    requires BasisOk(g, basis) && Sound(g, basis, statuses, rank)
    requires h in g && statuses[h].Admitted?
    ensures Clean(g, basis, h)
  {
    forall p | IsPath(g, p) && p[0] == h ensures CleanPath(g, basis, p) {
      AdmittedPath(g, basis, statuses, rank, p);
      assert Justified(g, basis, statuses, rank, p[|p| - 1]);
    }
  }

  lemma FreshLast(p: seq<Hash>, d: Hash)
    requires Distinct(p + [d])
    ensures d !in Elements(p) && Elements(p + [d]) == Elements(p) + {d}
  {
    var q := p + [d];
    assert forall i :: 0 <= i < |p| ==> q[i] == p[i] && q[i] != q[|p|];
    ElementsConcat(p, [d]);
  }

  /** In a settled state a clean change is admitted: otherwise a path of unadmitted changes never ends. */
  lemma {:induction false} CleanIsAdmitted(g: Graph, basis: Option<Hash>, statuses: map<Hash, Status>,
                                           rank: map<Hash, nat>, p: seq<Hash>)
    requires Sound(g, basis, statuses, rank) && Quiescent(g, statuses)
    requires IsPath(g, p) && Clean(g, basis, p[0]) && Elements(p) <= g.Keys
    ensures statuses[p[|p| - 1]].Admitted?
    decreases g.Keys - Elements(p)
  {
    var last := p[|p| - 1];
    assert last in Elements(p) && CleanPath(g, basis, p);
    assert Justified(g, basis, statuses, rank, last) && Settled(g, statuses, last);
    if !statuses[last].Admitted? {
      var d :| d in g[last].dependencies && (d !in g || !statuses[d].Admitted?);
      PathConcat(g, p, [d]);
      var q := p + [d];
      assert CleanPath(g, basis, q) && q[|q| - 1] == d;
      FreshLast(p, d);
      CleanIsAdmitted(g, basis, statuses, rank, q);
    }
  }

  lemma AdmittedIffClean(g: Graph, basis: Option<Hash>, statuses: map<Hash, Status>, rank: map<Hash, nat>, h: Hash)
    requires BasisOk(g, basis) && Sound(g, basis, statuses, rank) && Quiescent(g, statuses)
    ensures Clean(g, basis, h) <==> h in g && statuses[h].Admitted?
  {
    if Clean(g, basis, h) {
      var p := [h];
      assert IsPath(g, p) && CleanPath(g, basis, p) && Elements(p) == {h};
      CleanIsAdmitted(g, basis, statuses, rank, p);
    }
    if h in g && statuses[h].Admitted? {
      AdmittedIsClean(g, basis, statuses, rank, h);
    }
  }

  lemma DependenciesIffClean(g: Graph, basis: Option<Hash>, statuses: map<Hash, Status>, rank: map<Hash, nat>, h: Hash)
    requires BasisOk(g, basis) && Sound(g, basis, statuses, rank) && Quiescent(g, statuses) && h in g
    ensures DependenciesClean(g, basis, h) <==> AllAdmitted(g, statuses, h)
  {
    forall d | d in g[h].dependencies
      ensures Clean(g, basis, d) <==> d in statuses && statuses[d].Admitted?
    {
      AdmittedIffClean(g, basis, statuses, rank, d);
    }
  }

  lemma BadRootRefused(g: Graph, basis: Option<Hash>, statuses: map<Hash, Status>, rank: map<Hash, nat>, h: Hash)
    requires BasisOk(g, basis) && Sound(g, basis, statuses, rank) && Quiescent(g, statuses)
    requires BadRoot(g, basis, h)
    ensures Refused(statuses[h])
  {
    assert Justified(g, basis, statuses, rank, h) && Settled(g, statuses, h);
    DependenciesIffClean(g, basis, statuses, rank, h);
  }

  /** Whatever depends on a bad root is refused. */
  lemma {:induction false} AboveBadRoot(g: Graph, basis: Option<Hash>, statuses: map<Hash, Status>,
                                        rank: map<Hash, nat>, p: seq<Hash>)
    requires BasisOk(g, basis) && Sound(g, basis, statuses, rank) && Quiescent(g, statuses)
    requires IsPath(g, p) && BadRoot(g, basis, p[|p| - 1])
    ensures p[0] in g && Refused(statuses[p[0]])
    decreases |p|
  {
    if |p| == 1 {
      BadRootRefused(g, basis, statuses, rank, p[0]);
    } else {
      var q := p[1..|p|];
      PathSlice(g, p, 1, |p|);
      assert Edge(g, p[0], p[1]);
      AboveBadRoot(g, basis, statuses, rank, q);
      assert Justified(g, basis, statuses, rank, p[0]) && Settled(g, statuses, p[0]);
      assert SomeRefused(g, statuses, p[0]);
    }
  }

  /** A refused change has a bad root at or below it. */
  lemma {:induction false} RefusedHasRoot(g: Graph, basis: Option<Hash>, statuses: map<Hash, Status>,
                                          rank: map<Hash, nat>, h: Hash)
    returns (p: seq<Hash>)
    requires BasisOk(g, basis) && Sound(g, basis, statuses, rank) && Quiescent(g, statuses)
    requires h in g && h in rank && Refused(statuses[h])
    ensures IsPath(g, p) && p[0] == h && BadRoot(g, basis, p[|p| - 1])
    decreases rank[h]
  {
    assert Justified(g, basis, statuses, rank, h);
    p := [h];
    if statuses[h] == Pending(OutsideProjection) {
      var d :| d in g[h].dependencies && d in statuses && Refused(statuses[d]) && d in rank && rank[d] < rank[h];
      var q := RefusedHasRoot(g, basis, statuses, rank, d);
      PathConcat(g, [h], q);
      p := [h] + q;
    } else if statuses[h].Quarantined? {
      DependenciesIffClean(g, basis, statuses, rank, h);
    }
  }

  /** Renaming of what is still unresolved once nothing changes any more. */
  function Close(status: Status): Status {
    if status == Pending(Unresolved) then Pending(ChainUnresolved) else status
  }

  /** A sound and settled state is the one the graph determines. */
  lemma FixpointExact(g: Graph, basis: Option<Hash>, statuses: map<Hash, Status>, rank: map<Hash, nat>, h: Hash)
    requires BasisOk(g, basis) && Sound(g, basis, statuses, rank) && Quiescent(g, statuses) && h in g
    ensures Close(statuses[h]) == GraphStatus(g, basis, h)
  {
    assert Justified(g, basis, statuses, rank, h) && Settled(g, statuses, h);
    if basis != Some(h) && !LacksDependency(g, h) {
      DependenciesIffClean(g, basis, statuses, rank, h);
      if BadBelow(g, basis, h) {
        var p :| IsPath(g, p) && |p| >= 2 && p[0] == h && BadRoot(g, basis, p[|p| - 1]);
        AboveBadRoot(g, basis, statuses, rank, p);
      }
      if statuses[h] == Pending(OutsideProjection) {
        var p := RefusedHasRoot(g, basis, statuses, rank, h);
        assert |p| >= 2;
      }
    }
  }

  // ----- Running the fixpoint -----

  ghost predicate UniqueHashes(nodes: seq<Change>) {
    forall i, j :: 0 <= i < j < |nodes| ==> nodes[i].hash != nodes[j].hash
  }

  lemma UniqueByHash(nodes: seq<Change>)
    requires UniqueHashes(nodes)
    ensures forall a, b :: a in nodes && b in nodes && a.hash == b.hash ==> a == b
  {
  }

  function ByHash(nodes: seq<Change>): (g: Graph)
    requires UniqueHashes(nodes)
    ensures forall c :: c in nodes ==> c.hash in g && g[c.hash] == c
    ensures forall h :: h in g ==> g[h] in nodes && g[h].hash == h
  {
    UniqueByHash(nodes);
    map c | c in nodes :: c.hash := c
  }

  /** One turn of the fixpoint on an unresolved change; None leaves it unresolved. */
  function Decide(g: Graph, statuses: map<Hash, Status>, change: Change): Option<Status> {
    if exists d :: d in change.dependencies && d !in g then Some(Pending(MissingDependency))
    else if exists d :: d in change.dependencies && d in statuses && Refused(statuses[d])
    then Some(Pending(OutsideProjection))
    else if exists d :: d in change.dependencies && d in statuses && statuses[d] == Pending(Unresolved) then None
    else Some(OwnStatus(change))
  }

  lemma JustifiedStays(g: Graph, basis: Option<Hash>, statuses: map<Hash, Status>, rank: map<Hash, nat>,
                       h: Hash, status: Status, clock: nat, x: Hash)
    requires Sound(g, basis, statuses, rank) && h in g && statuses[h] == Pending(Unresolved) && x in g && x != h
    ensures Justified(g, basis, statuses[h := status], rank[h := clock], x)
  {
    var statuses', rank' := statuses[h := status], rank[h := clock];
    assert Justified(g, basis, statuses, rank, x);
    if basis != Some(x) {
      if statuses[x] == Pending(OutsideProjection) {
        var d :| d in g[x].dependencies && d in statuses && Refused(statuses[d]) && d in rank && rank[d] < rank[x];
        assert d != h && Refused(statuses'[d]) && rank'[d] < rank'[x];
      } else if !statuses[x].Pending? {
        assert h !in g[x].dependencies;
        assert AllAdmitted(g, statuses', x) && RankedBelow(g, rank', x);
      }
    }
  }

  lemma DecidedJustified(g: Graph, basis: Option<Hash>, statuses: map<Hash, Status>, rank: map<Hash, nat>, h: Hash,
                         clock: nat)
    requires Sound(g, basis, statuses, rank) && h in g && statuses[h] == Pending(Unresolved)
    requires forall x :: x in rank ==> rank[x] < clock
    requires Decide(g, statuses, g[h]).Some?
    ensures Justified(g, basis, statuses[h := Decide(g, statuses, g[h]).value], rank[h := clock], h)
  {
    var status := Decide(g, statuses, g[h]).value;
    var statuses', rank' := statuses[h := status], rank[h := clock];
    assert Justified(g, basis, statuses, rank, h);
    if LacksDependency(g, h) {
    } else if SomeRefused(g, statuses, h) {
      var d :| d in g[h].dependencies && d in statuses && Refused(statuses[d]);
      assert d != h && d in rank && Refused(statuses'[d]) && rank'[d] < rank'[h];
    } else {
      forall d | d in g[h].dependencies
        ensures d in statuses' && statuses'[d].Admitted? && d in rank' && rank'[d] < rank'[h]
      {
        assert d in statuses && !Refused(statuses[d]) && statuses[d] != Pending(Unresolved);
        assert d != h;
      }
    }
  }

  lemma DecideSound(g: Graph, basis: Option<Hash>, statuses: map<Hash, Status>, rank: map<Hash, nat>, h: Hash,
                    clock: nat)
    requires Sound(g, basis, statuses, rank) && h in g && statuses[h] == Pending(Unresolved)
    requires forall x :: x in rank ==> rank[x] < clock
    requires Decide(g, statuses, g[h]).Some?
    ensures Sound(g, basis, statuses[h := Decide(g, statuses, g[h]).value], rank[h := clock])
    ensures Decide(g, statuses, g[h]).value != Pending(Unresolved)
  {
    var status := Decide(g, statuses, g[h]).value;
    var statuses', rank' := statuses[h := status], rank[h := clock];
    DecidedJustified(g, basis, statuses, rank, h, clock);
    forall x | x in g ensures Justified(g, basis, statuses', rank', x) {
      if x != h {
        JustifiedStays(g, basis, statuses, rank, h, status, clock, x);
      }
    }
  }

  lemma UndecidedSettled(g: Graph, statuses: map<Hash, Status>, h: Hash)
    requires statuses.Keys == g.Keys && h in g
    requires statuses[h] != Pending(Unresolved) || Decide(g, statuses, g[h]).None?
    ensures Settled(g, statuses, h)
  {
  }

  ghost function UnresolvedIn(g: Graph, statuses: map<Hash, Status>): set<Hash>
    requires statuses.Keys == g.Keys
  {
    set h | h in g && statuses[h] == Pending(Unresolved)
  }

  /** The changes whose own check was run, with all dependencies admitted. */
  ghost function EvaluatedIn(g: Graph, basis: Option<Hash>, statuses: map<Hash, Status>): set<Hash>
    requires statuses.Keys == g.Keys
  {
    set h | h in g && basis != Some(h) && !statuses[h].Pending?
  }

  /** What every turn of the fixpoint keeps. */
  ghost predicate Progress(g: Graph, basis: Option<Hash>, statuses: map<Hash, Status>, evaluated: set<Hash>,
                           rank: map<Hash, nat>, clock: nat)
  {
    && Sound(g, basis, statuses, rank)
    && (forall x :: x in rank ==> rank[x] < clock)
    && evaluated == EvaluatedIn(g, basis, statuses)
  }

  lemma DecideProgress(g: Graph, basis: Option<Hash>, statuses: map<Hash, Status>, evaluated: set<Hash>,
                       rank: map<Hash, nat>, clock: nat, h: Hash)
    requires Progress(g, basis, statuses, evaluated, rank, clock) && h in g && statuses[h] == Pending(Unresolved)
    requires Decide(g, statuses, g[h]).Some? && Decide(g, statuses, g[h]).value != Pending(Unresolved)
    ensures var status := Decide(g, statuses, g[h]).value;
            && EvaluatedIn(g, basis, statuses[h := status]) == evaluated + (if status.Pending? then {} else {h})
            && UnresolvedIn(g, statuses[h := status]) < UnresolvedIn(g, statuses)
  {
    assert Justified(g, basis, statuses, rank, h);
    assert h in UnresolvedIn(g, statuses);
  }

  /** One change in its turn; it acts only on an unresolved change that a rule fits. */
  method Turn(g: Graph, basis: Option<Hash>, statuses: map<Hash, Status>, evaluated: set<Hash>, change: Change,
              ghost rank: map<Hash, nat>, ghost clock: nat)
    returns (acted: bool, statuses': map<Hash, Status>, evaluated': set<Hash>, ghost rank': map<Hash, nat>,
             ghost clock': nat)
    requires Progress(g, basis, statuses, evaluated, rank, clock)
    requires change.hash in g && g[change.hash] == change
    ensures Progress(g, basis, statuses', evaluated', rank', clock')
    ensures acted ==> UnresolvedIn(g, statuses') < UnresolvedIn(g, statuses)
    ensures !acted ==> statuses' == statuses && Settled(g, statuses, change.hash)
  {
    acted, statuses', evaluated', rank', clock' := false, statuses, evaluated, rank, clock;
    var h := change.hash;
    if statuses[h] != Pending(Unresolved) {
      UndecidedSettled(g, statuses, h);
      return;
    }
    var decision := Decide(g, statuses, change);
    if decision.None? {
      UndecidedSettled(g, statuses, h);
      return;
    }
    DecideSound(g, basis, statuses, rank, h, clock);
    DecideProgress(g, basis, statuses, evaluated, rank, clock, h);
    if !decision.value.Pending? {
      evaluated' := evaluated + {h};
    }
    statuses' := statuses[h := decision.value];
    acted, rank', clock' := true, rank[h := clock], clock + 1;
  }

  ghost predicate SettledUpTo(g: Graph, statuses: map<Hash, Status>, nodes: seq<Change>, n: nat)
    requires statuses.Keys == g.Keys && n <= |nodes|
  {
    forall k {:trigger nodes[k]} :: 0 <= k < n ==> nodes[k].hash in g && Settled(g, statuses, nodes[k].hash)
  }

  lemma SettledSnoc(g: Graph, statuses: map<Hash, Status>, nodes: seq<Change>, n: nat)
    requires statuses.Keys == g.Keys && n < |nodes| && SettledUpTo(g, statuses, nodes, n)
    requires nodes[n].hash in g && Settled(g, statuses, nodes[n].hash)
    ensures SettledUpTo(g, statuses, nodes, n + 1)
  {
  }

  lemma SettledEverywhere(nodes: seq<Change>, statuses: map<Hash, Status>)
    requires UniqueHashes(nodes) && statuses.Keys == ByHash(nodes).Keys
    requires SettledUpTo(ByHash(nodes), statuses, nodes, |nodes|)
    ensures Quiescent(ByHash(nodes), statuses)
  {
    var g := ByHash(nodes);
    forall h | h in g ensures Settled(g, statuses, h) {
      assert g[h] in nodes;
      var k :| 0 <= k < |nodes| && nodes[k] == g[h];
    }
  }

  /** One pass over the changes in their given order. */
  method Pass(nodes: seq<Change>, g: Graph, basis: Option<Hash>, statuses: map<Hash, Status>, evaluated: set<Hash>,
              ghost rank: map<Hash, nat>, ghost clock: nat)
    returns (changed: bool, statuses': map<Hash, Status>, evaluated': set<Hash>, ghost rank': map<Hash, nat>,
             ghost clock': nat)
    requires UniqueHashes(nodes) && g == ByHash(nodes)
    requires Progress(g, basis, statuses, evaluated, rank, clock)
    ensures Progress(g, basis, statuses', evaluated', rank', clock')
    ensures changed ==> UnresolvedIn(g, statuses') < UnresolvedIn(g, statuses)
    ensures !changed ==> statuses' == statuses && Quiescent(g, statuses')
  {
    changed, statuses', evaluated', rank', clock' := false, statuses, evaluated, rank, clock;
    for i := 0 to |nodes|
      invariant Progress(g, basis, statuses', evaluated', rank', clock')
      invariant changed ==> UnresolvedIn(g, statuses') < UnresolvedIn(g, statuses)
      invariant !changed ==> statuses' == statuses && SettledUpTo(g, statuses, nodes, i)
    {
      var acted;
      assert nodes[i] in nodes;
      acted, statuses', evaluated', rank', clock' := Turn(g, basis, statuses', evaluated', nodes[i], rank', clock');
      changed := changed || acted;
      if !changed {
        SettledSnoc(g, statuses, nodes, i);
      }
    }
    if !changed {
      SettledEverywhere(nodes, statuses);
    }
  }

  /** The changes whose own check decides them: all their dependencies are clean. */
  ghost function Evaluated(g: Graph, basis: Option<Hash>): set<Hash> {
    set h | h in g && basis != Some(h) && !LacksDependency(g, h) && DependenciesClean(g, basis, h)
  }

  ghost function GraphStatuses(g: Graph, basis: Option<Hash>): map<Hash, Status> {
    map h | h in g :: GraphStatus(g, basis, h)
  }

  function CloseAll(statuses: map<Hash, Status>): map<Hash, Status> {
    map h | h in statuses :: Close(statuses[h])
  }

  function InitialStatuses(g: Graph, basis: Option<Hash>): map<Hash, Status> {
    map h | h in g :: if basis == Some(h) then Admitted(Owner) else Pending(Unresolved)
  }

  ghost function InitialRank(g: Graph, basis: Option<Hash>): map<Hash, nat> {
    map h | h in g && basis == Some(h) :: 0
  }

  lemma FixpointGraph(g: Graph, basis: Option<Hash>, statuses: map<Hash, Status>, evaluated: set<Hash>,
                      rank: map<Hash, nat>, clock: nat)
    requires BasisOk(g, basis) && Progress(g, basis, statuses, evaluated, rank, clock) && Quiescent(g, statuses)
    ensures CloseAll(statuses) == GraphStatuses(g, basis) && evaluated == Evaluated(g, basis)
  {
    forall h | h in g ensures Close(statuses[h]) == GraphStatus(g, basis, h) {
      FixpointExact(g, basis, statuses, rank, h);
    }
    EvaluatedExact(g, basis, statuses, rank);
  }

  /** Passes until nothing changes: the outcome is the graph's, whatever the order of the changes. */
  method Resolve(nodes: seq<Change>, basis: Option<Hash>) returns (statuses: map<Hash, Status>, evaluated: set<Hash>)
    requires UniqueHashes(nodes) && BasisOk(ByHash(nodes), basis)
    ensures statuses == GraphStatuses(ByHash(nodes), basis)
    ensures evaluated == Evaluated(ByHash(nodes), basis)
  {
    var g := ByHash(nodes);
    statuses, evaluated := InitialStatuses(g, basis), {};
    ghost var rank, clock := InitialRank(g, basis), 1;
    InitialProgress(g, basis);
    var changed := true;
    while changed
      invariant Progress(g, basis, statuses, evaluated, rank, clock)
      invariant !changed ==> Quiescent(g, statuses)
      decreases UnresolvedIn(g, statuses), changed
    {
      changed, statuses, evaluated, rank, clock := Pass(nodes, g, basis, statuses, evaluated, rank, clock);
    }
    FixpointGraph(g, basis, statuses, evaluated, rank, clock);
    statuses := CloseAll(statuses);
  }

  lemma InitialProgress(g: Graph, basis: Option<Hash>)
    requires BasisOk(g, basis)
    ensures Progress(g, basis, InitialStatuses(g, basis), {}, InitialRank(g, basis), 1)
  {
  }

  lemma EvaluatedExact(g: Graph, basis: Option<Hash>, statuses: map<Hash, Status>, rank: map<Hash, nat>)
    requires BasisOk(g, basis) && Sound(g, basis, statuses, rank) && Quiescent(g, statuses)
    ensures EvaluatedIn(g, basis, statuses) == Evaluated(g, basis)
  {
    forall h | h in g && basis != Some(h)
      ensures !statuses[h].Pending? <==> !LacksDependency(g, h) && DependenciesClean(g, basis, h)
    {
      assert Justified(g, basis, statuses, rank, h) && Settled(g, statuses, h);
      DependenciesIffClean(g, basis, statuses, rank, h);
    }
  }
}
