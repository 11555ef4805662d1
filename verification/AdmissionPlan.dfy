/**
 After the fixpoint: quarantines across changes, the projected document, the cascade, and the
 shortcut that skips replay. A document is the set of changes it holds; applying a change whose
 dependencies are absent leaves it queued.
 */
module AdmissionPlan {
  import opened Roles
  import opened Wrappers
  import opened Finite
  import opened CausalAdmission

  // ----- Quarantines across changes -----

  predicate Creates(change: Change) {
    change.evidence.role.Some? && change.evidence.sources.Ok? && change.evidence.sources.value != []
  }

  /** A source it creates is also created concurrently under the same id. */
  predicate SourceHit(g: Graph, evaluated: set<Hash>, conflicted: set<string>, h: Hash)
    requires h in g
  {
    h in evaluated && Creates(g[h]) && exists id :: id in g[h].evidence.sources.value && id in conflicted
  }

  /** It replaces the entities map that another change created a source in. */
  predicate RebindHit(g: Graph, evaluated: set<Hash>, h: Hash)
    requires h in g && evaluated <= g.Keys
  {
    && h in evaluated && g[h].evidence.role.Some? && g[h].evidence.rebound.Some?
    && exists c :: c in evaluated && Creates(g[c]) && g[c].evidence.sourceBase == Some(g[h].evidence.rebound.value)
  }

  function QuarantineSources(g: Graph, evaluated: set<Hash>, conflicted: set<string>,
                             statuses: map<Hash, Status>): map<Hash, Status>
    requires statuses.Keys == g.Keys && evaluated <= g.Keys
  {
    map h | h in g ::
      if RebindHit(g, evaluated, h) then Quarantined(RebindConflict)
      else if SourceHit(g, evaluated, conflicted, h) then Quarantined(SourceConflict)
      else statuses[h]
  }

  /** An automation change that moves its card. */
  predicate Moves(change: Change) {
    && change.evidence.role == Some(Automation) && change.evidence.sources.Ok?
    && change.evidence.automation.Some? && change.evidence.automation.value.Ok?
    && change.evidence.automation.value.value.moved
  }

  /** The move meets a concurrent status change in the projected document. */
  predicate MoveHit(g: Graph, evaluated: set<Hash>, statuses: map<Hash, Status>, conflict: (set<Hash>, string) -> bool,
                    document: set<Hash>, h: Hash)
    requires h in g && statuses.Keys == g.Keys
  {
    && h in evaluated && Moves(g[h]) && statuses[h].Admitted?
    && conflict(document, g[h].evidence.automation.value.value.itemId)
  }

  function QuarantineMoves(g: Graph, evaluated: set<Hash>, statuses: map<Hash, Status>,
                           conflict: (set<Hash>, string) -> bool,
                           document: set<Hash>): map<Hash, Status>
    requires statuses.Keys == g.Keys
  {
    map h | h in g ::
      if MoveHit(g, evaluated, statuses, conflict, document, h) then Quarantined(MoveConflict) else statuses[h]
  }

  function AdmittedIn(statuses: map<Hash, Status>): set<Hash> {
    set h | h in statuses && statuses[h].Admitted?
  }

  // ----- Dependency-closed sets -----

  ghost predicate HoldsDependencies(g: Graph, s: set<Hash>, h: Hash) {
    h in g && forall d :: d in g[h].dependencies ==> d in s
  }

  ghost predicate ClosedIn(g: Graph, s: set<Hash>) {
    forall h {:trigger HoldsDependencies(g, s, h)} :: h in s ==> HoldsDependencies(g, s, h)
  }

  /** `core` is the greatest dependency-closed subset of `s`. */
  ghost predicate GreatestClosed(g: Graph, s: set<Hash>, core: set<Hash>) {
    core <= s && ClosedIn(g, core) && forall c {:trigger ClosedIn(g, c)} :: c <= s && ClosedIn(g, c) ==> c <= core
  }

  lemma GreatestUnique(g: Graph, s: set<Hash>, a: set<Hash>, b: set<Hash>)
    requires GreatestClosed(g, s, a) && GreatestClosed(g, s, b)
    ensures a == b
  {
  }

  // ----- The projection -----

  function NodesOf(nodes: seq<Change>): seq<CausalOrder.Node> {
    seq(|nodes|, i requires 0 <= i < |nodes| => CausalOrder.Node(nodes[i].hash, nodes[i].dependencies))
  }

  lemma NodesUnique(nodes: seq<Change>)
    requires UniqueHashes(nodes)
    ensures CausalOrder.UniqueHashes(NodesOf(nodes))
  {
  }

  /** The ordering graph of the admitted changes. */
  ghost predicate Mirrors(g: Graph, o: CausalOrder.Graph, admitted: set<Hash>) {
    && admitted <= g.Keys && o.Keys == admitted
    && forall h, d :: h in admitted ==> (d in o[h] <==> d in g[h].dependencies && d in admitted)
  }

  lemma NodesMirror(nodes: seq<Change>, admitted: set<Hash>)
    requires UniqueHashes(nodes) && admitted <= ByHash(nodes).Keys
    ensures CausalOrder.UniqueHashes(NodesOf(nodes)) && admitted <= CausalOrder.NodeHashes(NodesOf(nodes))
    ensures Mirrors(ByHash(nodes), CausalOrder.AdmittedGraph(NodesOf(nodes), admitted), admitted)
  {
    var g, o := ByHash(nodes), CausalOrder.AdmittedGraph(NodesOf(nodes), admitted);
    NodesUnique(nodes);
    forall h | h in admitted
      ensures h in CausalOrder.NodeHashes(NodesOf(nodes))
      ensures h in o && forall d :: d in o[h] <==> d in g[h].dependencies && d in admitted
    {
      var i :| 0 <= i < |nodes| && nodes[i] == g[h];
      var n := NodesOf(nodes)[i];
      assert n in NodesOf(nodes) && n.hash == h && n.dependencies == g[h].dependencies;
      CausalOrder.AdmittedGraphAt(NodesOf(nodes), admitted, n);
    }
  }

  ghost function Backwards(p: seq<Hash>): seq<Hash> {
    seq(|p|, i requires 0 <= i < |p| => p[|p| - 1 - i])
  }

  lemma BackwardsPath(g: Graph, o: CausalOrder.Graph, admitted: set<Hash>, p: seq<Hash>)
    requires Mirrors(g, o, admitted) && CausalOrder.Chain(o, p) && p != []
    ensures IsPath(g, Backwards(p))
  {
    var q := Backwards(p);
    forall i, j | 0 <= i < j < |q| && j == i + 1 ensures Edge(g, q[i], q[j]) {
      assert p[|p| - 1 - j] in o[p[|p| - 1 - i]];
    }
  }

  /** Clean changes depend on each other without a cycle, so ordering them never fails. */
  lemma CleanAcyclic(g: Graph, o: CausalOrder.Graph, basis: Option<Hash>, admitted: set<Hash>)
    requires Mirrors(g, o, admitted) && forall h :: h in admitted ==> Clean(g, basis, h)
    ensures !CausalOrder.Cyclic(o)
  {
    forall p | CausalOrder.Chain(o, p) && |p| >= 2 ensures p[0] != p[|p| - 1] {
      var q := Backwards(p);
      BackwardsPath(g, o, admitted, p);
      assert q[0] == p[|p| - 1] && q[0] in o && q[|q| - 1] == p[0];
      assert Clean(g, basis, q[0]) && CleanPath(g, basis, q);
    }
  }

  predicate Ready(g: Graph, document: set<Hash>, h: Hash)
    requires h in g
  {
    forall d :: d in g[h].dependencies ==> d in document
  }

  ghost predicate Covers(g: Graph, c: set<Hash>, seen: set<Hash>, document: set<Hash>) {
    ClosedIn(g, c) ==> c * seen <= document
  }

  /** While the ordered changes are applied, the document holds what any closed subset has among those seen. */
  ghost predicate Applied(g: Graph, admitted: set<Hash>, seen: set<Hash>, document: set<Hash>) {
    && document <= seen && ClosedIn(g, document)
    && forall c {:trigger Covers(g, c, seen, document)} :: c <= admitted ==> Covers(g, c, seen, document)
  }

  lemma ApplyClosed(g: Graph, document: set<Hash>, h: Hash)
    requires ClosedIn(g, document) && h in g && Ready(g, document, h)
    ensures ClosedIn(g, document + {h})
  {
    forall x | x in document + {h} ensures HoldsDependencies(g, document + {h}, x) {
      if x in document { assert HoldsDependencies(g, document, x); }
    }
  }

  lemma ApplyOne(g: Graph, admitted: set<Hash>, seen: set<Hash>, document: set<Hash>, h: Hash)
    requires Applied(g, admitted, seen, document) && h in g
    requires forall d :: d in g[h].dependencies && d in admitted ==> d in seen
    ensures Applied(g, admitted, seen + {h}, if Ready(g, document, h) then document + {h} else document)
  {
    var document' := if Ready(g, document, h) then document + {h} else document;
    if Ready(g, document, h) {
      ApplyClosed(g, document, h);
    }
    forall c | c <= admitted ensures Covers(g, c, seen + {h}, document') {
      assert Covers(g, c, seen, document);
      if ClosedIn(g, c) && h in c {
        assert HoldsDependencies(g, c, h);
        forall d | d in g[h].dependencies ensures d in document {
          assert d in c * seen;
        }
      }
    }
  }

  lemma AppliedAll(g: Graph, admitted: set<Hash>, document: set<Hash>)
    requires Applied(g, admitted, admitted, document)
    ensures GreatestClosed(g, admitted, document)
  {
    forall c | c <= admitted && ClosedIn(g, c) ensures c <= document {
      assert Covers(g, c, admitted, document) && c * admitted == c;
    }
  }

  lemma OrderFacts(g: Graph, o: CausalOrder.Graph, admitted: set<Hash>)
    requires Mirrors(g, o, admitted) && !CausalOrder.Cyclic(o)
    ensures CausalOrder.DependenciesFirst(o, CausalOrder.RescanOrder(o, {}))
    ensures Elements(CausalOrder.RescanOrder(o, {})) == admitted
  {
    forall h | h in o ensures o[h] <= o.Keys {
    }
    CausalOrder.RescanCompleteIffAcyclic(o);
    CausalOrder.RescanTopological(o, {}, []);
    assert [] + CausalOrder.RescanOrder(o, {}) == CausalOrder.RescanOrder(o, {});
  }

  /** Applies changes in order, queueing any whose dependencies are absent. */
  method ApplyChanges(g: Graph, order: seq<Hash>, ghost o: CausalOrder.Graph, ghost admitted: set<Hash>)
    returns (document: set<Hash>)
    requires Mirrors(g, o, admitted) && Elements(order) == admitted && CausalOrder.DependenciesFirst(o, order)
    ensures GreatestClosed(g, admitted, document)
  {
    document := {};
    for i := 0 to |order|
      invariant Applied(g, admitted, Elements(order[..i]), document)
    {
      var h := order[i];
      assert h in Elements(order) && order[..i + 1] == order[..i] + [h];
      ElementsConcat(order[..i], [h]);
      assert Elements([h]) == {h};
      forall d | d in g[h].dependencies && d in admitted ensures d in Elements(order[..i]) {
        assert d in o[h];
      }
      ApplyOne(g, admitted, Elements(order[..i]), document, h);
      if Ready(g, document, h) {
        document := document + {h};
      }
    }
    assert order[..|order|] == order;
    AppliedAll(g, admitted, document);
  }

  /** Fails exactly on a cycle among the admitted changes; otherwise the document is their greatest closed subset. */
  method BuildProjection(nodes: seq<Change>, admitted: set<Hash>) returns (r: Result<set<Hash>, CausalOrder.OrderError>)
    requires UniqueHashes(nodes) && admitted <= ByHash(nodes).Keys
    ensures r.Ok? <==> !CausalOrder.Cyclic(CausalOrder.AdmittedGraph(NodesOf(nodes), admitted))
    ensures r.Ok? ==> GreatestClosed(ByHash(nodes), admitted, r.value)
  {
    var g := ByHash(nodes);
    ghost var o := CausalOrder.AdmittedGraph(NodesOf(nodes), admitted);
    NodesMirror(nodes, admitted);
    var ordered := CausalOrder.OrderedAdmittedHashes(NodesOf(nodes), admitted);
    if ordered.Err? {
      return Err(ordered.error);
    }
    OrderFacts(g, o, admitted);
    var document := ApplyChanges(g, ordered.value, o, admitted);
    r := Ok(document);
  }

  /** The projection of clean changes never fails. */
  lemma CleanProjects(nodes: seq<Change>, admitted: set<Hash>, basis: Option<Hash>)
    requires UniqueHashes(nodes) && admitted <= ByHash(nodes).Keys
    requires forall h :: h in admitted ==> Clean(ByHash(nodes), basis, h)
    ensures !CausalOrder.Cyclic(CausalOrder.AdmittedGraph(NodesOf(nodes), admitted))
  {
    NodesMirror(nodes, admitted);
    CleanAcyclic(ByHash(nodes), CausalOrder.AdmittedGraph(NodesOf(nodes), admitted), basis, admitted);
  }

  // ----- The cascade -----

  /** Admitted changes outside `core` become pending; nothing else changes. */
  ghost function Demote(g: Graph, statuses: map<Hash, Status>, core: set<Hash>): map<Hash, Status>
    requires statuses.Keys == g.Keys
  {
    map h | h in g :: if statuses[h].Admitted? && h !in core then Pending(OutsideProjection) else statuses[h]
  }

  ghost predicate Kept(g: Graph, c: set<Hash>, statuses: map<Hash, Status>) {
    ClosedIn(g, c) ==> c <= AdmittedIn(statuses)
  }

  /** Nothing was admitted anew, and no closed set of admitted changes has lost a member. */
  ghost predicate Cascading(g: Graph, initial: map<Hash, Status>, statuses: map<Hash, Status>) {
    && initial.Keys == g.Keys && statuses == Demote(g, initial, AdmittedIn(statuses))
    && forall c {:trigger Kept(g, c, statuses)} :: c <= AdmittedIn(initial) ==> Kept(g, c, statuses)
  }

  predicate Unsupported(g: Graph, statuses: map<Hash, Status>, h: Hash)
    requires h in g && h in statuses
  {
    statuses[h].Admitted? && exists d :: d in g[h].dependencies && d in statuses && !statuses[d].Admitted?
  }

  lemma UnsupportedOutside(g: Graph, statuses: map<Hash, Status>, c: set<Hash>, h: Hash)
    requires h in g && h in statuses && Unsupported(g, statuses, h) && ClosedIn(g, c) && h in c
    ensures !(c <= AdmittedIn(statuses))
  {
    assert HoldsDependencies(g, c, h);
    var d :| d in g[h].dependencies && d in statuses && !statuses[d].Admitted?;
    assert d in c && d !in AdmittedIn(statuses);
  }

  lemma CascadeOne(g: Graph, initial: map<Hash, Status>, statuses: map<Hash, Status>, h: Hash)
    requires Cascading(g, initial, statuses) && h in g && Unsupported(g, statuses, h)
    ensures Cascading(g, initial, statuses[h := Pending(OutsideProjection)])
    ensures AdmittedIn(statuses[h := Pending(OutsideProjection)]) == AdmittedIn(statuses) - {h}
    ensures h in AdmittedIn(statuses)
  {
    var next := statuses[h := Pending(OutsideProjection)];
    assert AdmittedIn(next) == AdmittedIn(statuses) - {h};
    forall c | c <= AdmittedIn(initial) ensures Kept(g, c, next) {
      assert Kept(g, c, statuses);
      if ClosedIn(g, c) && h in c {
        UnsupportedOutside(g, statuses, c, h);
      }
    }
  }

  method CascadePass(nodes: seq<Change>, g: Graph, statuses: map<Hash, Status>, ghost initial: map<Hash, Status>)
    returns (changed: bool, statuses': map<Hash, Status>)
    requires UniqueHashes(nodes) && g == ByHash(nodes) && Cascading(g, initial, statuses)
    ensures Cascading(g, initial, statuses')
    ensures changed ==> AdmittedIn(statuses') < AdmittedIn(statuses)
    ensures !changed ==> statuses' == statuses && forall h :: h in g ==> !Unsupported(g, statuses, h)
  {
    changed, statuses' := false, statuses;
    for i := 0 to |nodes|
      invariant Cascading(g, initial, statuses')
      invariant changed ==> AdmittedIn(statuses') < AdmittedIn(statuses)
      invariant !changed ==> statuses' == statuses
      invariant !changed ==> forall k :: 0 <= k < i ==> !Unsupported(g, statuses, nodes[k].hash)
    {
      var h := nodes[i].hash;
      assert nodes[i] in nodes;
      if Unsupported(g, statuses', h) {
        CascadeOne(g, initial, statuses', h);
        statuses' := statuses'[h := Pending(OutsideProjection)];
        changed := true;
      }
    }
    if !changed {
      forall h | h in g ensures !Unsupported(g, statuses, h) {
        assert g[h] in nodes;
        var k :| 0 <= k < |nodes| && nodes[k] == g[h];
        assert !Unsupported(g, statuses, nodes[k].hash);
      }
    }
  }

  lemma CascadeStart(g: Graph, initial: map<Hash, Status>)
    requires initial.Keys == g.Keys
    ensures Cascading(g, initial, initial)
  {
  }

  lemma CascadeEnd(g: Graph, initial: map<Hash, Status>, statuses: map<Hash, Status>)
    requires Cascading(g, initial, statuses)
    requires forall h :: h in AdmittedIn(initial) ==> HoldsDependencies(g, g.Keys, h)
    requires forall h :: h in g ==> !Unsupported(g, statuses, h)
    ensures GreatestClosed(g, AdmittedIn(initial), AdmittedIn(statuses))
  {
    var core := AdmittedIn(statuses);
    forall h | h in core ensures HoldsDependencies(g, core, h) {
      assert h in AdmittedIn(initial) && HoldsDependencies(g, g.Keys, h) && !Unsupported(g, statuses, h);
    }
    forall c | c <= AdmittedIn(initial) && ClosedIn(g, c) ensures c <= core {
      assert Kept(g, c, statuses);
    }
  }

  /** Demotes changes until every admitted one is supported: the greatest closed set stays admitted. */
  method Cascade(nodes: seq<Change>, initial: map<Hash, Status>) returns (statuses: map<Hash, Status>)
    requires UniqueHashes(nodes) && initial.Keys == ByHash(nodes).Keys
    requires forall h :: h in AdmittedIn(initial) ==> HoldsDependencies(ByHash(nodes), ByHash(nodes).Keys, h)
    ensures GreatestClosed(ByHash(nodes), AdmittedIn(initial), AdmittedIn(statuses))
    ensures statuses == Demote(ByHash(nodes), initial, AdmittedIn(statuses))
  {
    var g := ByHash(nodes);
    statuses := initial;
    CascadeStart(g, initial);
    var changed := true;
    while changed
      invariant Cascading(g, initial, statuses)
      invariant !changed ==> forall h :: h in g ==> !Unsupported(g, statuses, h)
      decreases AdmittedIn(statuses), changed
    {
      changed, statuses := CascadePass(nodes, g, statuses, initial);
    }
    CascadeEnd(g, initial, statuses);
  }

  // ----- The whole evaluation -----

  datatype Plan = Plan(statuses: map<Hash, Status>, document: set<Hash>)

  datatype AdmissionError = BasisAbsent | BasisNotRoot

  /** Statuses after the quarantines that need no projection. */
  ghost function Screened(g: Graph, basis: Option<Hash>, conflicted: set<string>): map<Hash, Status> {
    QuarantineSources(g, Evaluated(g, basis), conflicted, GraphStatuses(g, basis))
  }

  /** Statuses after the moves that conflict in the projected document `projected` are quarantined too. */
  ghost function Moved(g: Graph, basis: Option<Hash>, conflicted: set<string>, conflict: (set<Hash>, string) -> bool,
                       projected: set<Hash>): map<Hash, Status>
  {
    QuarantineMoves(g, Evaluated(g, basis), Screened(g, basis, conflicted), conflict, projected)
  }

  /** The plan the graph determines. */
  ghost predicate PlanFor(g: Graph, basis: Option<Hash>, conflicted: set<string>, conflict: (set<Hash>, string) -> bool,
                          projected: set<Hash>, plan: Plan)
  {
    && GreatestClosed(g, AdmittedIn(Screened(g, basis, conflicted)), projected)
    && GreatestClosed(g, AdmittedIn(Moved(g, basis, conflicted, conflict, projected)), plan.document)
    && plan.statuses == Demote(g, Moved(g, basis, conflicted, conflict, projected), plan.document)
  }

  lemma CleanPresent(g: Graph, basis: Option<Hash>, h: Hash)
    requires Clean(g, basis, h)
    ensures h in g && HoldsDependencies(g, g.Keys, h)
  {
    assert IsPath(g, [h]) && CleanPath(g, basis, [h]);
    forall d | d in g[h].dependencies ensures d in g {
      assert Edge(g, [h, d][0], [h, d][1]) && IsPath(g, [h, d]);
      assert CleanPath(g, basis, [h, d]);
    }
  }

  /** Every admitted change is clean. */
  lemma GraphAdmitsClean(g: Graph, basis: Option<Hash>, h: Hash)
    requires BasisOk(g, basis) && h in g
    ensures GraphStatus(g, basis, h).Admitted? ==> Clean(g, basis, h)
  {
    if GraphStatus(g, basis, h).Admitted? {
      forall p | IsPath(g, p) && p[0] == h ensures CleanPath(g, basis, p) {
        if |p| == 1 {
          assert Acceptable(g, basis, p[0]);
        } else {
          assert Edge(g, p[0], p[1]);
          TailClean(g, basis, h, p);
        }
      }
    }
  }

  /** A path that returns to its start makes its second change unclean. */
  lemma ReturnUnclean(g: Graph, basis: Option<Hash>, p: seq<Hash>, k: nat)
    requires IsPath(g, p) && 1 <= k < |p| && p[k] == p[0]
    ensures !Clean(g, basis, p[1])
  {
    var first := p[1..k + 1];
    PathSlice(g, p, 1, k + 1);
    assert Edge(g, p[0], p[1]) && first[|first| - 1] == p[k];
    PathConcat(g, first, [p[1]]);
    var round := first + [p[1]];
    assert round[0] == round[|round| - 1] && |round| >= 2;
    assert !CleanPath(g, basis, round);
  }

  lemma TailClean(g: Graph, basis: Option<Hash>, h: Hash, p: seq<Hash>)
    requires h in g && DependenciesClean(g, basis, h)
    requires IsPath(g, p) && |p| >= 2 && p[0] == h
    ensures CleanPath(g, basis, p)
  {
    assert Edge(g, p[0], p[1]) && Clean(g, basis, p[1]);
    var q := p[1..|p|];
    PathSlice(g, p, 1, |p|);
    assert CleanPath(g, basis, q) && q[|q| - 1] == p[|p| - 1];
    forall i, j | 0 <= i < j < |p| ensures p[i] != p[j] {
      if i == 0 {
        if p[j] == p[0] { ReturnUnclean(g, basis, p, j); }
      } else {
        assert p[i] == q[i - 1] && p[j] == q[j - 1];
      }
    }
  }

  lemma ScreenedClean(g: Graph, basis: Option<Hash>, conflicted: set<string>)
    requires BasisOk(g, basis)
    ensures forall h :: h in AdmittedIn(Screened(g, basis, conflicted)) ==> Clean(g, basis, h)
  {
    forall h | h in AdmittedIn(Screened(g, basis, conflicted)) ensures Clean(g, basis, h) {
      GraphAdmitsClean(g, basis, h);
    }
  }

  lemma AllAdmittedClosed(g: Graph, basis: Option<Hash>, statuses: map<Hash, Status>)
    requires statuses.Keys == g.Keys && AdmittedIn(statuses) == g.Keys
    requires forall h :: h in AdmittedIn(statuses) ==> Clean(g, basis, h)
    ensures GreatestClosed(g, g.Keys, g.Keys)
  {
    forall h | h in g.Keys ensures HoldsDependencies(g, g.Keys, h) {
      CleanPresent(g, basis, h);
    }
  }

  predicate AllAre(statuses: map<Hash, Status>) {
    forall h :: h in statuses ==> statuses[h].Admitted?
  }

  /** The projection of the screened statuses: the whole document when nothing was refused. */
  method Project(nodes: seq<Change>, statuses: map<Hash, Status>, hasPending: bool, ghost basis: Option<Hash>)
    returns (r: Result<set<Hash>, AdmissionError>)
    requires UniqueHashes(nodes) && statuses.Keys == ByHash(nodes).Keys
    requires forall h :: h in AdmittedIn(statuses) ==> Clean(ByHash(nodes), basis, h)
    ensures r.Ok? && GreatestClosed(ByHash(nodes), AdmittedIn(statuses), r.value)
  {
    var g := ByHash(nodes);
    if !hasPending && AllAre(statuses) {
      assert AdmittedIn(statuses) == g.Keys;
      AllAdmittedClosed(g, basis, statuses);
      return Ok(g.Keys);
    }
    CleanProjects(nodes, AdmittedIn(statuses), basis);
    var built := BuildProjection(nodes, AdmittedIn(statuses));
    r := Ok(built.value);
  }

  method CheckBasis(nodes: seq<Change>, basis: Option<Hash>) returns (r: Option<AdmissionError>)
    requires UniqueHashes(nodes)
    ensures r.None? <==> BasisOk(ByHash(nodes), basis)
  {
    var g := ByHash(nodes);
    if basis.None? {
      return None;
    }
    if basis.value !in g {
      return Some(BasisAbsent);
    }
    if g[basis.value].dependencies != [] || exists h :: h in g && h != basis.value && g[h].dependencies == [] {
      return Some(BasisNotRoot);
    }
    r := None;
  }

  lemma NothingMoved(g: Graph, basis: Option<Hash>, conflicted: set<string>, conflict: (set<Hash>, string) -> bool,
                     projected: set<Hash>)
    requires forall h :: h in Evaluated(g, basis) ==> !Moves(g[h])
    ensures Moved(g, basis, conflicted, conflict, projected) == Screened(g, basis, conflicted)
  {
  }

  lemma DemoteNone(g: Graph, statuses: map<Hash, Status>)
    requires statuses.Keys == g.Keys && AdmittedIn(statuses) == g.Keys
    ensures Demote(g, statuses, g.Keys) == statuses
  {
  }

  /** With everything admitted and no card moved, the loaded document is the plan. */
  lemma ShortcutExact(g: Graph, basis: Option<Hash>, conflicted: set<string>, conflict: (set<Hash>, string) -> bool)
    requires BasisOk(g, basis) && AllAre(Screened(g, basis, conflicted))
    requires forall h :: h in Evaluated(g, basis) ==> !Moves(g[h])
    ensures PlanFor(g, basis, conflicted, conflict, g.Keys, Plan(Screened(g, basis, conflicted), g.Keys))
  {
    var statuses := Screened(g, basis, conflicted);
    assert AdmittedIn(statuses) == g.Keys;
    ScreenedClean(g, basis, conflicted);
    AllAdmittedClosed(g, basis, statuses);
    NothingMoved(g, basis, conflicted, conflict, g.Keys);
    DemoteNone(g, statuses);
  }

  /** The changes that reach the cascade have all their dependencies in the graph. */
  lemma MovedPresent(g: Graph, basis: Option<Hash>, conflicted: set<string>, conflict: (set<Hash>, string) -> bool,
                     projected: set<Hash>)
    requires BasisOk(g, basis)
    ensures forall h :: h in AdmittedIn(Moved(g, basis, conflicted, conflict, projected)) ==>
              Clean(g, basis, h) && HoldsDependencies(g, g.Keys, h)
  {
    ScreenedClean(g, basis, conflicted);
    forall h | h in AdmittedIn(Moved(g, basis, conflicted, conflict, projected))
      ensures Clean(g, basis, h) && HoldsDependencies(g, g.Keys, h)
    {
      assert h in AdmittedIn(Screened(g, basis, conflicted));
      CleanPresent(g, basis, h);
    }
  }

  /** Projection, move quarantine, cascade and the rebuilt document. */
  method Replay(nodes: seq<Change>, evaluated: set<Hash>, screened: map<Hash, Status>, hasPending: bool,
                conflict: (set<Hash>, string) -> bool, ghost basis: Option<Hash>, ghost conflicted: set<string>)
    returns (plan: Plan, ghost projected: set<Hash>)
    requires UniqueHashes(nodes) && BasisOk(ByHash(nodes), basis) && evaluated == Evaluated(ByHash(nodes), basis)
    requires screened == Screened(ByHash(nodes), basis, conflicted)
    ensures PlanFor(ByHash(nodes), basis, conflicted, conflict, projected, plan)
  {
    var g := ByHash(nodes);
    ScreenedClean(g, basis, conflicted);
    var first := Project(nodes, screened, hasPending, basis);
    projected := first.value;
    var moved := QuarantineMoves(g, evaluated, screened, conflict, first.value);
    MovedPresent(g, basis, conflicted, conflict, projected);
    WholeProjection(g, basis, conflicted, conflict, projected);
    plan := Settle(nodes, moved, first.value, basis);
  }

  /** If the moves leave everything admitted and that is closed, the first projection already held it all. */
  lemma WholeProjection(g: Graph, basis: Option<Hash>, conflicted: set<string>, conflict: (set<Hash>, string) -> bool,
                        projected: set<Hash>)
    requires GreatestClosed(g, AdmittedIn(Screened(g, basis, conflicted)), projected)
    ensures ClosedIn(g, g.Keys) && AdmittedIn(Moved(g, basis, conflicted, conflict, projected)) == g.Keys ==>
            projected == g.Keys
  {
    assert AdmittedIn(Moved(g, basis, conflicted, conflict, projected)) <= AdmittedIn(Screened(g, basis, conflicted)) <=
      g.Keys;
  }

  /** Cascade and final document. */
  method Settle(nodes: seq<Change>, moved: map<Hash, Status>, projected: set<Hash>, ghost basis: Option<Hash>)
    returns (plan: Plan)
    requires UniqueHashes(nodes) && moved.Keys == ByHash(nodes).Keys
    requires forall h :: h in AdmittedIn(moved) ==>
             Clean(ByHash(nodes), basis, h) && HoldsDependencies(ByHash(nodes), ByHash(nodes).Keys, h)
    requires ClosedIn(ByHash(nodes), ByHash(nodes).Keys) && AdmittedIn(moved) == ByHash(nodes).Keys ==>
             projected == ByHash(nodes).Keys
    ensures GreatestClosed(ByHash(nodes), AdmittedIn(moved), plan.document)
    ensures plan.statuses == Demote(ByHash(nodes), moved, plan.document)
  {
    var statuses := Cascade(nodes, moved);
    assert AllAre(statuses) ==> AdmittedIn(statuses) == ByHash(nodes).Keys;
    var document := Rebuild(nodes, statuses, projected, basis);
    plan := Plan(statuses, document);
  }

  /** The projected document is kept when everything is still admitted, and rebuilt otherwise. */
  method Rebuild(nodes: seq<Change>, statuses: map<Hash, Status>, document: set<Hash>, ghost basis: Option<Hash>)
    returns (final: set<Hash>)
    requires UniqueHashes(nodes) && AdmittedIn(statuses) <= ByHash(nodes).Keys
             && ClosedIn(ByHash(nodes), AdmittedIn(statuses))
    requires forall h :: h in AdmittedIn(statuses) ==> Clean(ByHash(nodes), basis, h)
    requires AllAre(statuses) ==> document == AdmittedIn(statuses)
    ensures final == AdmittedIn(statuses)
  {
    final := document;
    if !AllAre(statuses) {
      CleanProjects(nodes, AdmittedIn(statuses), basis);
      var rebuilt := BuildProjection(nodes, AdmittedIn(statuses));
      final := rebuilt.value;
      CoreOfClosed(ByHash(nodes), AdmittedIn(statuses), final);
    }
  }

  /**
   Evaluates a history. `hasPending` tells that changes arrived beside the loaded document; the
   conflicts of the raw document and of a projection are given as `conflicted` and `conflict`. Once
   the basis is sound it never fails, and the plan is the one the graph determines.
   */
  method Evaluate(nodes: seq<Change>, basis: Option<Hash>, hasPending: bool, conflicted: set<string>,
                  conflict: (set<Hash>, string) -> bool)
    returns (r: Result<Plan, AdmissionError>, ghost projected: set<Hash>)
    requires UniqueHashes(nodes)
    ensures r.Ok? <==> BasisOk(ByHash(nodes), basis)
    ensures r.Ok? ==> PlanFor(ByHash(nodes), basis, conflicted, conflict, projected, r.value)
  {
    var g := ByHash(nodes);
    projected := g.Keys;
    var bad := CheckBasis(nodes, basis);
    if bad.Some? {
      return Err(bad.value), projected;
    }
    var statuses, evaluated := Resolve(nodes, basis);
    var screened := QuarantineSources(g, evaluated, conflicted, statuses);
    if !hasPending && AllAre(screened) && forall h :: h in evaluated ==> !Moves(g[h]) {
      ShortcutExact(g, basis, conflicted, conflict);
      return Ok(Plan(screened, g.Keys)), projected;
    }
    var plan;
    plan, projected := Replay(nodes, evaluated, screened, hasPending, conflict, basis, conflicted);
    r := Ok(plan);
  }

  lemma CoreOfClosed(g: Graph, s: set<Hash>, core: set<Hash>)
    requires ClosedIn(g, s) && GreatestClosed(g, s, core)
    ensures core == s
  {
  }

  /** The plan does not depend on the order in which the changes arrive, nor on the shortcut. */
  lemma PlanUnique(g: Graph, basis: Option<Hash>, conflicted: set<string>, conflict: (set<Hash>, string) -> bool,
                   projected: set<Hash>, plan: Plan, projected': set<Hash>, plan': Plan)
    requires PlanFor(g, basis, conflicted, conflict, projected, plan)
    requires PlanFor(g, basis, conflicted, conflict, projected', plan')
    ensures plan == plan'
  {
    GreatestUnique(g, AdmittedIn(Screened(g, basis, conflicted)), projected, projected');
    GreatestUnique(g, AdmittedIn(Moved(g, basis, conflicted, conflict, projected)), plan.document, plan'.document);
  }

  /** The document holds exactly the admitted changes, all of them clean, and with all their dependencies. */
  lemma PlanSafe(g: Graph, basis: Option<Hash>, conflicted: set<string>, conflict: (set<Hash>, string) -> bool,
                 projected: set<Hash>, plan: Plan)
    requires BasisOk(g, basis) && PlanFor(g, basis, conflicted, conflict, projected, plan)
    ensures AdmittedIn(plan.statuses) == plan.document && ClosedIn(g, plan.document)
    ensures forall h :: h in plan.document ==> Clean(g, basis, h)
  {
    MovedPresent(g, basis, conflicted, conflict, projected);
  }

  /**
   The status the graph gives a change, by its evidence: with every dependency clean it is admitted with the
   role it is vetted for, or refused with the reason its evidence gives.
   */
  lemma GraphRole(g: Graph, basis: Option<Hash>, h: Hash)
    requires h in g
    ensures forall role :: GraphStatus(g, basis, h) == Admitted(role) <==>
                             if basis == Some(h) then role == Owner
                             else !LacksDependency(g, h) && DependenciesClean(g, basis, h) && Vetted(g[h], role)
    ensures forall reason :: GraphStatus(g, basis, h) == Quarantined(reason) <==>
                               && basis != Some(h) && !LacksDependency(g, h) && DependenciesClean(g, basis, h)
                               && Refuses(g[h], reason)
  {
  }

  lemma PlanKeepsStatus(g: Graph, basis: Option<Hash>, conflicted: set<string>, conflict: (set<Hash>, string) -> bool,
                        projected: set<Hash>, plan: Plan, h: Hash)
    requires PlanFor(g, basis, conflicted, conflict, projected, plan) && h in plan.document
    ensures h in g && h in plan.statuses && plan.statuses[h] == GraphStatus(g, basis, h) && plan.statuses[h].Admitted?
  {
    var moved := Moved(g, basis, conflicted, conflict, projected);
    assert h in AdmittedIn(moved) && plan.statuses[h] == moved[h];
  }

  /** One of the three cross-change rules quarantines this change. */
  ghost predicate Hit(g: Graph, basis: Option<Hash>, conflicted: set<string>, conflict: (set<Hash>, string) -> bool,
                      projected: set<Hash>, h: Hash)
    requires h in g
  {
    || RebindHit(g, Evaluated(g, basis), h) || SourceHit(g, Evaluated(g, basis), conflicted, h)
    || MoveHit(g, Evaluated(g, basis), Screened(g, basis, conflicted), conflict, projected, h)
  }

  ghost predicate Spares(g: Graph, basis: Option<Hash>, conflicted: set<string>, conflict: (set<Hash>, string) -> bool,
                         projected: set<Hash>, p: seq<Hash>)
    requires p != []
  {
    p[|p| - 1] in g ==> !Hit(g, basis, conflicted, conflict, projected, p[|p| - 1])
  }

  /** Neither the change nor anything it depends on is quarantined by a cross-change rule. */
  ghost predicate Spared(g: Graph, basis: Option<Hash>, conflicted: set<string>, conflict: (set<Hash>, string) -> bool,
                         projected: set<Hash>, h: Hash)
  {
    forall p {:trigger Spares(g, basis, conflicted, conflict, projected, p)} ::
      IsPath(g, p) && p[0] == h ==> Spares(g, basis, conflicted, conflict, projected, p)
  }

  lemma CleanIsAdmittedByGraph(g: Graph, basis: Option<Hash>, h: Hash)
    requires Clean(g, basis, h)
    ensures h in g && GraphStatus(g, basis, h).Admitted?
  {
    CleanPresent(g, basis, h);
    forall d | d in g[h].dependencies ensures Clean(g, basis, d) { CleanDependency(g, basis, h, d); }
    assert IsPath(g, [h]) && CleanPath(g, basis, [h]);
  }

  lemma CleanDependency(g: Graph, basis: Option<Hash>, h: Hash, d: Hash)
    requires Clean(g, basis, h) && h in g && d in g[h].dependencies
    ensures Clean(g, basis, d)
  {
    forall q | IsPath(g, q) && q[0] == d ensures CleanPath(g, basis, q) {
      assert IsPath(g, [h]) && Edge(g, h, q[0]);
      PathConcat(g, [h], q);
      var p := [h] + q;
      assert CleanPath(g, basis, p) && p[|p| - 1] == q[|q| - 1];
      forall i, j | 0 <= i < j < |q| ensures q[i] != q[j] { assert p[i + 1] == q[i] && p[j + 1] == q[j]; }
    }
  }

  lemma SparedDependency(g: Graph, basis: Option<Hash>, conflicted: set<string>, conflict: (set<Hash>, string) -> bool,
                         projected: set<Hash>, h: Hash, d: Hash)
    requires Spared(g, basis, conflicted, conflict, projected, h) && h in g && d in g[h].dependencies
    ensures Spared(g, basis, conflicted, conflict, projected, d)
  {
    forall q | IsPath(g, q) && q[0] == d ensures Spares(g, basis, conflicted, conflict, projected, q) {
      assert IsPath(g, [h]) && Edge(g, h, q[0]);
      PathConcat(g, [h], q);
      var p := [h] + q;
      assert p[0] == h && p[|p| - 1] == q[|q| - 1];
      assert Spares(g, basis, conflicted, conflict, projected, p);
    }
  }

  lemma {:induction false} ClosedAlongPath(g: Graph, s: set<Hash>, p: seq<Hash>)
    requires ClosedIn(g, s) && IsPath(g, p) && p[0] in s
    ensures p[|p| - 1] in s
    decreases |p|
  {
    if |p| > 1 {
      assert Edge(g, p[0], p[1]) && HoldsDependencies(g, s, p[0]);
      PathSlice(g, p, 1, |p|);
      ClosedAlongPath(g, s, p[1..|p|]);
    }
  }

  lemma MovedAdmits(g: Graph, basis: Option<Hash>, conflicted: set<string>, conflict: (set<Hash>, string) -> bool,
                    projected: set<Hash>, h: Hash)
    requires BasisOk(g, basis)
    ensures h in AdmittedIn(Moved(g, basis, conflicted, conflict, projected)) <==>
              h in g && Clean(g, basis, h) && !Hit(g, basis, conflicted, conflict, projected, h)
  {
    if h in g {
      GraphAdmitsClean(g, basis, h);
      if Clean(g, basis, h) { CleanIsAdmittedByGraph(g, basis, h); }
    }
  }

  /**
   In the end a change is admitted exactly when it is clean and no cross-change rule hits it or anything it
   depends on.
   */
  lemma PlanExact(g: Graph, basis: Option<Hash>, conflicted: set<string>, conflict: (set<Hash>, string) -> bool,
                  projected: set<Hash>, plan: Plan, h: Hash)
    requires BasisOk(g, basis) && PlanFor(g, basis, conflicted, conflict, projected, plan)
    ensures h in plan.document <==> Clean(g, basis, h) && Spared(g, basis, conflicted, conflict, projected, h)
  {
    var moved := AdmittedIn(Moved(g, basis, conflicted, conflict, projected));
    if h in plan.document {
      MovedAdmits(g, basis, conflicted, conflict, projected, h);
      forall p | IsPath(g, p) && p[0] == h ensures Spares(g, basis, conflicted, conflict, projected, p) {
        ClosedAlongPath(g, plan.document, p);
        MovedAdmits(g, basis, conflicted, conflict, projected, p[|p| - 1]);
      }
    }
    SparedClosed(g, basis, conflicted, conflict, projected);
    if Clean(g, basis, h) && Spared(g, basis, conflicted, conflict, projected, h) {
      CleanPresent(g, basis, h);
      assert h in SparedSet(g, basis, conflicted, conflict, projected);
    }
  }

  /**
   The plan admits a change with `role` exactly when every change on every path from it is present, met once,
   the basis or vetted for some role, and spared by the cross-change rules; and it is vetted for `role` itself.
   */
  lemma PlanRoles(g: Graph, basis: Option<Hash>, conflicted: set<string>, conflict: (set<Hash>, string) -> bool,
                  projected: set<Hash>, plan: Plan, h: Hash, role: Role)
    requires BasisOk(g, basis) && PlanFor(g, basis, conflicted, conflict, projected, plan) && h in g
    ensures h in plan.statuses
    ensures plan.statuses[h] == Admitted(role) <==>
              && Clean(g, basis, h) && Spared(g, basis, conflicted, conflict, projected, h)
              && (if basis == Some(h) then role == Owner else Vetted(g[h], role))
  {
    PlanExact(g, basis, conflicted, conflict, projected, plan, h);
    PlanSafe(g, basis, conflicted, conflict, projected, plan);
    GraphRole(g, basis, h);
    if h in plan.document {
      PlanKeepsStatus(g, basis, conflicted, conflict, projected, plan, h);
    }
  }

  ghost function SparedSet(g: Graph, basis: Option<Hash>, conflicted: set<string>,
                           conflict: (set<Hash>, string) -> bool, projected: set<Hash>): set<Hash>
  {
    set h | h in g && Clean(g, basis, h) && Spared(g, basis, conflicted, conflict, projected, h)
  }

  lemma SparedClosed(g: Graph, basis: Option<Hash>, conflicted: set<string>, conflict: (set<Hash>, string) -> bool,
                     projected: set<Hash>)
    requires BasisOk(g, basis)
    ensures ClosedIn(g, SparedSet(g, basis, conflicted, conflict, projected))
    ensures SparedSet(g, basis, conflicted, conflict, projected) <=
            AdmittedIn(Moved(g, basis, conflicted, conflict, projected))
  {
    var s := SparedSet(g, basis, conflicted, conflict, projected);
    forall h | h in s
      ensures HoldsDependencies(g, s, h) && h in AdmittedIn(Moved(g, basis, conflicted, conflict, projected)) {
      assert IsPath(g, [h]) && Spares(g, basis, conflicted, conflict, projected, [h]);
      MovedAdmits(g, basis, conflicted, conflict, projected, h);
      CleanPresent(g, basis, h);
      forall d | d in g[h].dependencies ensures d in s {
        CleanDependency(g, basis, h, d);
        SparedDependency(g, basis, conflicted, conflict, projected, h, d);
      }
    }
  }

  /** The change was checked under a role, all its dependencies clean, and creates the source `id`. */
  ghost predicate MakesSource(g: Graph, basis: Option<Hash>, c: Hash, id: string) {
    && c in Evaluated(g, basis) && g[c].evidence.role != None
    && g[c].evidence.sources.Ok? && id in g[c].evidence.sources.value
  }

  /** The change replaces the entities map in which some change creates a source. */
  ghost predicate ReplacesSources(g: Graph, basis: Option<Hash>, h: Hash) {
    && h in Evaluated(g, basis) && g[h].evidence.role != None && g[h].evidence.rebound != None
    && exists c, id :: MakesSource(g, basis, c, id) && g[c].evidence.sourceBase == g[h].evidence.rebound
  }

  lemma HitsByEvidence(g: Graph, basis: Option<Hash>, conflicted: set<string>, h: Hash)
    requires h in g
    ensures RebindHit(g, Evaluated(g, basis), h) <==> ReplacesSources(g, basis, h)
    ensures SourceHit(g, Evaluated(g, basis), conflicted, h) <==>
              exists id :: MakesSource(g, basis, h, id) && id in conflicted
  {
    if RebindHit(g, Evaluated(g, basis), h) {
      var c :| c in Evaluated(g, basis) && Creates(g[c])
               && g[c].evidence.sourceBase == Some(g[h].evidence.rebound.value);
      assert MakesSource(g, basis, c, g[c].evidence.sources.value[0]);
    }
    if SourceHit(g, Evaluated(g, basis), conflicted, h) {
      var id :| id in g[h].evidence.sources.value && id in conflicted;
      assert MakesSource(g, basis, h, id);
    }
  }

  /** When the plan quarantines a change, and with which reason, by what the changes carry. */
  lemma PlanQuarantines(g: Graph, basis: Option<Hash>, conflicted: set<string>, conflict: (set<Hash>, string) -> bool,
                        projected: set<Hash>, plan: Plan, h: Hash, reason: Reason)
    requires BasisOk(g, basis) && PlanFor(g, basis, conflicted, conflict, projected, plan) && h in g
    ensures h in plan.statuses
    ensures plan.statuses[h] == Quarantined(reason) <==>
              if ReplacesSources(g, basis, h) then reason == RebindConflict
              else if exists id :: MakesSource(g, basis, h, id) && id in conflicted then reason == SourceConflict
              else
                && h in Evaluated(g, basis)
                && (Refuses(g[h], reason) ||
                    (&& reason == MoveConflict && Vetted(g[h], Automation)
                     && g[h].evidence.automation.value.value.moved
                     && conflict(projected, g[h].evidence.automation.value.value.itemId)))
  {
    HitsByEvidence(g, basis, conflicted, h);
    GraphRole(g, basis, h);
  }

  /** From a trusted basis: whatever is admitted is the basis or descends from it, and the basis stays. */
  lemma BasisDescends(g: Graph, basis: Hash, conflicted: set<string>, conflict: (set<Hash>, string) -> bool,
                      projected: set<Hash>, plan: Plan)
    requires BasisOk(g, Some(basis)) && PlanFor(g, Some(basis), conflicted, conflict, projected, plan)
    ensures basis in plan.document
    ensures forall h :: h in plan.document ==> exists p :: IsPath(g, p) && p[0] == h && p[|p| - 1] == basis
  {
    PlanSafe(g, Some(basis), conflicted, conflict, projected, plan);
    forall h | h in plan.document ensures exists p :: IsPath(g, p) && p[0] == h && p[|p| - 1] == basis {
      assert IsPath(g, [h]);
      var p := DescendToBasis(g, basis, [h]);
    }
    var alone := {basis};
    assert HoldsDependencies(g, alone, basis);
    assert ClosedIn(g, alone);
    assert basis in AdmittedIn(Moved(g, Some(basis), conflicted, conflict, projected));
    assert alone <= plan.document;
  }

  lemma {:induction false} DescendToBasis(g: Graph, basis: Hash, p: seq<Hash>) returns (q: seq<Hash>)
    requires BasisOk(g, Some(basis)) && IsPath(g, p) && Clean(g, Some(basis), p[0])
             && Elements(p) <= g.Keys + {p[|p| - 1]}
    ensures IsPath(g, q) && q[0] == p[0] && q[|q| - 1] == basis
    decreases g.Keys - Elements(p)
  {
    var last := p[|p| - 1];
    assert CleanPath(g, Some(basis), p);
    if last == basis {
      q := p;
    } else {
      var d := g[last].dependencies[0];
      PathConcat(g, p, [d]);
      assert CleanPath(g, Some(basis), p + [d]);
      FreshLast(p, d);
      assert d in g;
      q := DescendToBasis(g, basis, p + [d]);
    }
  }
}
