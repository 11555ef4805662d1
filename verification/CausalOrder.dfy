/**
 The deterministic replay order of admitted changes. The layered topological sort with indegrees
 is proved equal to the definition it replaced, which rescans the remaining changes for each layer.
 */
module CausalOrder {
  import opened Wrappers
  import opened Ordering
  import opened Finite

  type Hash = string

  datatype Node = Node(hash: Hash, dependencies: seq<Hash>)

  /** Each admitted change with its admitted dependencies. */
  type Graph = map<Hash, set<Hash>>

  ghost predicate UniqueHashes(nodes: seq<Node>) {
    forall i, j :: 0 <= i < j < |nodes| ==> nodes[i].hash != nodes[j].hash
  }

  function AdmittedDeps(node: Node, admitted: set<Hash>): set<Hash> {
    set d | d in node.dependencies && d in admitted
  }

  ghost function AdmittedGraph(nodes: seq<Node>, admitted: set<Hash>): (g: Graph)
    ensures forall h :: h in g <==> h in admitted && exists n :: n in nodes && n.hash == h
  {
    if nodes == [] then map[]
    else
      var g, n := AdmittedGraph(nodes[..|nodes| - 1], admitted), nodes[|nodes| - 1];
      assert nodes == nodes[..|nodes| - 1] + [n];
      if n.hash in admitted then g[n.hash := AdmittedDeps(n, admitted)] else g
  }

  lemma {:induction false} AdmittedGraphAt(nodes: seq<Node>, admitted: set<Hash>, n: Node)
    requires UniqueHashes(nodes) && n in nodes && n.hash in admitted
    ensures n.hash in AdmittedGraph(nodes, admitted)
    ensures AdmittedGraph(nodes, admitted)[n.hash] == AdmittedDeps(n, admitted)
  {
    if n != nodes[|nodes| - 1] {
      AdmittedGraphAt(nodes[..|nodes| - 1], admitted, n);
    }
  }

  // ----- The slow definition -----

  /** Hashes in increasing order. */
  ghost function InOrder(s: set<Hash>): (q: seq<Hash>)
    ensures Sorted(StrLess, q) && Distinct(q) && Elements(q) == s
    ensures s == {} ==> q == []
  {
    StrOrder();
    var q := SortedSeq(StrLess, s);
    SortedDistinct(StrLess, q);
    q
  }

  ghost function Layer(g: Graph, done: set<Hash>): set<Hash> {
    set h | h in g && h !in done && g[h] <= done
  }

  ghost function RescanOrder(g: Graph, done: set<Hash>): (order: seq<Hash>)
    decreases g.Keys - done
  {
    var layer := Layer(g, done);
    if layer == {} then []
    else
      LayerShrinks(g, done);
      InOrder(layer) + RescanOrder(g, done + layer)
  }

  lemma LayerShrinks(g: Graph, done: set<Hash>)
    requires Layer(g, done) != {}
    ensures g.Keys - (done + Layer(g, done)) < g.Keys - done
  {
    var h :| h in Layer(g, done);
    assert h in g.Keys - done && h !in g.Keys - (done + Layer(g, done));
  }

  // ----- What that order is -----

  /** A sequence in which each change depends on the one before it. */
  ghost predicate Chain(g: Graph, p: seq<Hash>) {
    && (forall i :: 0 <= i < |p| ==> p[i] in g)
    && (forall i, j :: 0 <= i < j < |p| && j == i + 1 ==> p[i] in g[p[j]])
  }

  ghost predicate ChainTo(g: Graph, p: seq<Hash>, h: Hash) {
    p != [] && p[|p| - 1] == h && Chain(g, p)
  }

  ghost predicate Cyclic(g: Graph) {
    exists p :: Chain(g, p) && |p| >= 2 && p[0] == p[|p| - 1]
  }

  ghost predicate DownClosed(g: Graph, done: set<Hash>) {
    done <= g.Keys && forall h :: h in done ==> g[h] <= done
  }

  ghost predicate DependenciesFirst(g: Graph, order: seq<Hash>) {
    forall i, d :: 0 <= i < |order| && order[i] in g && d in g[order[i]] ==> d in order[..i]
  }

  lemma DistinctConcat(a: seq<Hash>, b: seq<Hash>)
    requires Distinct(a) && Distinct(b) && forall h :: h in a ==> h !in b
    ensures Distinct(a + b)
  {
    var c := a + b;
    forall i, j | 0 <= i < j < |c| ensures c[i] != c[j] {
      if i < |a| <= j {
        assert c[i] in a && c[j] == b[j - |a|];
      }
    }
  }

  lemma {:induction false} RescanPermutes(g: Graph, done: set<Hash>)
    ensures Distinct(RescanOrder(g, done))
    ensures forall h :: h in RescanOrder(g, done) ==> h in g && h !in done
    decreases g.Keys - done
  {
    var layer := Layer(g, done);
    if layer != {} {
      LayerShrinks(g, done);
      RescanPermutes(g, done + layer);
      var sorted, rest := InOrder(layer), RescanOrder(g, done + layer);
      assert forall h :: h in sorted ==> h in Elements(sorted);
      DistinctConcat(sorted, rest);
    }
  }

  lemma LayerTopological(g: Graph, done: set<Hash>, before: seq<Hash>, layer: seq<Hash>)
    requires Elements(before) == done && DependenciesFirst(g, before)
    requires forall h :: h in Elements(layer) ==> h in g && g[h] <= done
    ensures DependenciesFirst(g, before + layer)
  {
    var next := before + layer;
    forall i, d | 0 <= i < |next| && next[i] in g && d in g[next[i]] ensures d in next[..i] {
      if i < |before| {
        assert next[..i] == before[..i];
      } else {
        assert next[i] in Elements(layer) && d in Elements(before);
        assert next[..i] == before + layer[..i - |before|];
      }
    }
  }

  lemma {:induction false} RescanTopological(g: Graph, done: set<Hash>, before: seq<Hash>)
    requires Elements(before) == done && DependenciesFirst(g, before)
    ensures DependenciesFirst(g, before + RescanOrder(g, done))
    decreases g.Keys - done
  {
    var layer := Layer(g, done);
    if layer == {} {
      assert before + RescanOrder(g, done) == before;
    } else {
      LayerShrinks(g, done);
      LayerTopological(g, done, before, InOrder(layer));
      ElementsConcat(before, InOrder(layer));
      RescanTopological(g, done + layer, before + InOrder(layer));
      RescanUnfolds(g, done, before);
    }
  }

  /** The hashes left out when no further layer exists. */
  ghost function Final(g: Graph, done: set<Hash>): set<Hash>
    decreases g.Keys - done
  {
    var layer := Layer(g, done);
    if layer == {} then done
    else
      LayerShrinks(g, done);
      Final(g, done + layer)
  }

  lemma {:induction false} FinalStuck(g: Graph, done: set<Hash>)
    ensures Layer(g, Final(g, done)) == {}
    decreases g.Keys - done
  {
    if Layer(g, done) != {} {
      LayerShrinks(g, done);
      FinalStuck(g, done + Layer(g, done));
    }
  }

  lemma {:induction false} FinalIsOrdered(g: Graph, done: set<Hash>)
    ensures Final(g, done) == done + Elements(RescanOrder(g, done))
    decreases g.Keys - done
  {
    if Layer(g, done) != {} {
      LayerShrinks(g, done);
      FinalIsOrdered(g, done + Layer(g, done));
      RescanUnfolds(g, done, []);
    }
  }

  ghost predicate HeldUp(g: Graph, stuck: set<Hash>, h: Hash)
    requires h in g
  {
    exists d :: d in g[h] && d in stuck
  }

  ghost predicate AllHeldUp(g: Graph, stuck: set<Hash>)
    requires stuck <= g.Keys
  {
    forall h {:trigger HeldUp(g, stuck, h)} :: h in stuck ==> HeldUp(g, stuck, h)
  }

  lemma {:induction false} FindCycle(g: Graph, stuck: set<Hash>, p: seq<Hash>)
    requires stuck <= g.Keys && AllHeldUp(g, stuck)
    requires p != [] && Chain(g, p) && Distinct(p) && Elements(p) <= stuck
    ensures Cyclic(g)
    decreases stuck - Elements(p)
  {
    assert p[0] in Elements(p) && HeldUp(g, stuck, p[0]);
    var d :| d in g[p[0]] && d in stuck;
    var q := [d] + p;
    assert Chain(g, q);
    if d in p {
      var k :| 0 <= k < |p| && p[k] == d;
      var cycle := q[..k + 2];
      assert Chain(g, cycle) && cycle[0] == cycle[|cycle| - 1];
    } else {
      assert Elements(q) == Elements(p) + {d};
      FindCycle(g, stuck, q);
    }
  }

  lemma {:induction false} ChainPositions(g: Graph, order: seq<Hash>, p: seq<Hash>, i: nat, j: nat)
    requires DependenciesFirst(g, order) && Chain(g, p) && p != []
    requires i < |order| && order[i] == p[0] && j < |order| && order[j] == p[|p| - 1] && Distinct(order)
    ensures |p| >= 2 ==> i < j
    decreases |p|
  {
    if |p| >= 2 {
      var prior := p[|p| - 2];
      assert prior in g[p[|p| - 1]];
      assert prior in order[..j];
      var k :| 0 <= k < j && order[k] == prior;
      ChainPositions(g, order, p[..|p| - 1], i, k);
    }
  }

  lemma StuckDependency(g: Graph, done: set<Hash>, h: Hash)
    requires h in g && h !in done && g[h] <= g.Keys && Layer(g, done) == {}
    ensures HeldUp(g, g.Keys - done, h)
  {
    assert h !in Layer(g, done);
  }

  lemma StuckIsCyclic(g: Graph, done: set<Hash>, h: Hash)
    requires forall x :: x in g ==> g[x] <= g.Keys
    requires Layer(g, done) == {} && h in g && h !in done
    ensures Cyclic(g)
  {
    var stuck := g.Keys - done;
    forall x | x in stuck ensures HeldUp(g, stuck, x) {
      StuckDependency(g, done, x);
    }
    var p := [h];
    assert Elements(p) == {h};
    FindCycle(g, stuck, p);
  }

  lemma OrderedIsAcyclic(g: Graph, order: seq<Hash>)
    requires DependenciesFirst(g, order) && Distinct(order) && Elements(order) == g.Keys
    ensures !Cyclic(g)
  {
    forall p | Chain(g, p) && |p| >= 2 ensures p[0] != p[|p| - 1] {
      assert p[0] in Elements(order) && p[|p| - 1] in Elements(order);
      var i :| 0 <= i < |order| && order[i] == p[0];
      var j :| 0 <= j < |order| && order[j] == p[|p| - 1];
      ChainPositions(g, order, p, i, j);
    }
  }

  lemma RescanElements(g: Graph)
    ensures Elements(RescanOrder(g, {})) <= g.Keys && Layer(g, Elements(RescanOrder(g, {}))) == {}
  {
    RescanPermutes(g, {});
    FinalStuck(g, {});
    FinalIsOrdered(g, {});
    assert Final(g, {}) == Elements(RescanOrder(g, {}));
  }

  lemma CompleteIsAcyclic(g: Graph)
    requires Elements(RescanOrder(g, {})) == g.Keys
    ensures !Cyclic(g)
  {
    var order := RescanOrder(g, {});
    RescanPermutes(g, {});
    RescanTopological(g, {}, []);
    assert [] + order == order;
    OrderedIsAcyclic(g, order);
  }

  /** The rescan covers a closed graph exactly when it has no cycle. */
  lemma RescanCompleteIffAcyclic(g: Graph)
    requires forall h :: h in g ==> g[h] <= g.Keys
    ensures Elements(RescanOrder(g, {})) == g.Keys <==> !Cyclic(g)
  {
    var order := RescanOrder(g, {});
    RescanElements(g);
    if h :| h in g && h !in Elements(order) {
      StuckIsCyclic(g, Elements(order), h);
    } else {
      assert Elements(order) == g.Keys;
      CompleteIsAcyclic(g);
    }
  }

  // ----- Depth -----

  /** The longest dependency chain ending in `h` has `n + 1` changes. */
  ghost predicate HasDepth(g: Graph, h: Hash, n: nat) {
    && (exists p :: ChainTo(g, p, h) && |p| == n + 1)
    && (forall p :: ChainTo(g, p, h) ==> |p| <= n + 1)
  }

  ghost predicate LongestChains(g: Graph, depth: map<Hash, nat>) {
    forall h {:trigger HasDepth(g, h, depth[h])} :: h in depth ==> HasDepth(g, h, depth[h])
  }

  ghost predicate RestsOn(g: Graph, depth: map<Hash, nat>, h: Hash, n: nat)
    requires h in g
  {
    exists d :: d in g[h] && d in depth && depth[d] == n
  }

  /** Before layer `k`: the changes done have depth below `k`, and the next layer rests on depth `k - 1`. */
  ghost predicate DepthsBefore(g: Graph, done: set<Hash>, depth: map<Hash, nat>, k: nat) {
    && DownClosed(g, done) && depth.Keys == done && LongestChains(g, depth)
    && (forall h :: h in depth ==> depth[h] < k)
    && (k > 0 ==> forall h {:trigger RestsOn(g, depth, h, k - 1)} :: h in Layer(g, done) ==>
        RestsOn(g, depth, h, k - 1))
  }

  ghost predicate Precedes(depth: map<Hash, nat>, a: Hash, b: Hash) {
    a in depth && b in depth && (depth[a] < depth[b] || (depth[a] == depth[b] && StrLess(a, b)))
  }

  ghost predicate ByDepthThenHash(depth: map<Hash, nat>, order: seq<Hash>) {
    forall i, j {:trigger Precedes(depth, order[i], order[j])} ::
      0 <= i < j < |order| ==> Precedes(depth, order[i], order[j])
  }

  lemma LayerChains(g: Graph, done: set<Hash>, depth: map<Hash, nat>, k: nat, h: Hash)
    requires DepthsBefore(g, done, depth, k) && h in Layer(g, done)
    ensures HasDepth(g, h, k)
  {
    if k == 0 {
      assert ChainTo(g, [h], h);
    } else {
      assert RestsOn(g, depth, h, k - 1);
      var d :| d in g[h] && d in depth && depth[d] == k - 1;
      assert HasDepth(g, d, depth[d]);
      var q :| ChainTo(g, q, d) && |q| == k;
      assert ChainTo(g, q + [h], h);
    }
    forall p | ChainTo(g, p, h) ensures |p| <= k + 1 {
      if |p| >= 2 {
        var d := p[|p| - 2];
        assert d in g[p[|p| - 1]];
        assert ChainTo(g, p[..|p| - 1], d);
        assert HasDepth(g, d, depth[d]);
      }
    }
  }

  ghost function Deepen(depth: map<Hash, nat>, layer: set<Hash>, k: nat): map<Hash, nat> {
    map h | h in depth.Keys + layer :: if h in layer then k else depth[h]
  }

  lemma LayerDepths(g: Graph, done: set<Hash>, depth: map<Hash, nat>, k: nat)
    requires DepthsBefore(g, done, depth, k)
    ensures DepthsBefore(g, done + Layer(g, done), Deepen(depth, Layer(g, done), k), k + 1)
  {
    var layer := Layer(g, done);
    var next, done' := Deepen(depth, layer, k), done + layer;
    forall h | h in next ensures HasDepth(g, h, next[h]) {
      if h in layer {
        LayerChains(g, done, depth, k, h);
      } else {
        assert HasDepth(g, h, depth[h]);
      }
    }
    forall h | h in Layer(g, done') ensures RestsOn(g, next, h, k) {
      assert h !in layer && !(g[h] <= done);
      var d :| d in g[h] && d !in done;
      assert d in layer && next[d] == k;
    }
  }

  lemma LayerByDepth(depth: map<Hash, nat>, before: seq<Hash>, layer: set<Hash>, k: nat)
    requires ByDepthThenHash(depth, before) && Elements(before) == depth.Keys && layer !! depth.Keys
    requires forall h :: h in depth ==> depth[h] < k
    ensures ByDepthThenHash(Deepen(depth, layer, k), before + InOrder(layer))
  {
    var sorted := InOrder(layer);
    var all, next := before + sorted, Deepen(depth, layer, k);
    forall i, j | 0 <= i < j < |all| ensures Precedes(next, all[i], all[j]) {
      assert j < |before| ==> Precedes(depth, before[i], before[j]);
      assert i < |before| ==> all[i] == before[i] && all[i] in Elements(before);
      assert j < |before| ==> all[j] == before[j] && all[j] in Elements(before);
      assert i >= |before| ==> all[i] == sorted[i - |before|] && all[i] in Elements(sorted);
      assert j >= |before| ==> all[j] == sorted[j - |before|] && all[j] in Elements(sorted);
    }
  }

  /** What the recursion over layers carries. */
  ghost predicate DepthState(g: Graph, done: set<Hash>, before: seq<Hash>, depth: map<Hash, nat>, k: nat) {
    DepthsBefore(g, done, depth, k) && Elements(before) == done && ByDepthThenHash(depth, before)
  }

  lemma DepthStep(g: Graph, done: set<Hash>, before: seq<Hash>, depth: map<Hash, nat>, k: nat)
    requires DepthState(g, done, before, depth, k)
    ensures DepthState(g, done + Layer(g, done), before + InOrder(Layer(g, done)), Deepen(depth, Layer(g, done), k),
                       k + 1)
  {
    LayerDepths(g, done, depth, k);
    LayerByDepth(depth, before, Layer(g, done), k);
    ElementsConcat(before, InOrder(Layer(g, done)));
  }

  lemma RescanUnfolds(g: Graph, done: set<Hash>, before: seq<Hash>)
    requires Layer(g, done) != {}
    ensures var sorted, rest := InOrder(Layer(g, done)), RescanOrder(g, done + Layer(g, done));
            && before + RescanOrder(g, done) == (before + sorted) + rest
            && Elements(RescanOrder(g, done)) == Layer(g, done) + Elements(rest)
  {
    var sorted, rest := InOrder(Layer(g, done)), RescanOrder(g, done + Layer(g, done));
    ConcatAssociative(before, sorted, rest);
    ElementsConcat(sorted, rest);
  }

  ghost predicate DepthResult(g: Graph, depth: map<Hash, nat>, order: seq<Hash>) {
    depth.Keys == Elements(order) && LongestChains(g, depth) && ByDepthThenHash(depth, order)
  }

  lemma {:induction false} RescanDepths(g: Graph, done: set<Hash>, before: seq<Hash>, depth: map<Hash, nat>, k: nat)
    returns (final: map<Hash, nat>)
    requires DepthState(g, done, before, depth, k)
    ensures DepthResult(g, final, before + RescanOrder(g, done))
    decreases g.Keys - done
  {
    var layer := Layer(g, done);
    if layer == {} {
      final := depth;
      assert before + RescanOrder(g, done) == before;
    } else {
      LayerShrinks(g, done);
      DepthStep(g, done, before, depth, k);
      final := RescanDepths(g, done + layer, before + InOrder(layer), Deepen(depth, layer, k), k + 1);
      RescanUnfolds(g, done, before);
    }
  }

  /** The order is by longest-chain depth, and by hash among changes of one depth. */
  lemma RescanByDepth(g: Graph) returns (depth: map<Hash, nat>)
    ensures DepthResult(g, depth, RescanOrder(g, {}))
  {
    depth := RescanDepths(g, {}, [], map[], 0);
    assert [] + RescanOrder(g, {}) == RescanOrder(g, {});
  }

  // ----- The fast form -----

  function Kids(children: map<Hash, seq<Hash>>, d: Hash): seq<Hash> {
    if d in children then children[d] else []
  }

  ghost predicate KidsOf(g: Graph, kids: seq<Hash>, d: Hash) {
    Distinct(kids) && forall h :: h in kids <==> h in g && d in g[h]
  }

  /** `children` is the graph turned around. */
  ghost predicate Reversed(g: Graph, children: map<Hash, seq<Hash>>) {
    forall d {:trigger KidsOf(g, Kids(children, d), d)} :: KidsOf(g, Kids(children, d), d)
  }

  ghost predicate Counts(g: Graph, indegrees: map<Hash, nat>, done: set<Hash>, h: Hash)
    requires h in g && h in indegrees
  {
    indegrees[h] == |g[h] - done|
  }

  /** Each indegree counts the dependencies not yet ordered. */
  ghost predicate Degrees(g: Graph, indegrees: map<Hash, nat>, done: set<Hash>) {
    && indegrees.Keys == g.Keys
    && forall h {:trigger Counts(g, indegrees, done, h)} :: h in g ==> Counts(g, indegrees, done, h)
  }

  method LinkNode(node: Node, admitted: set<Hash>, children: map<Hash, seq<Hash>>)
    returns (linked: map<Hash, seq<Hash>>, degree: nat)
    ensures degree == |AdmittedDeps(node, admitted)|
    ensures forall d ::
            Kids(linked, d) == Kids(children, d) + if d in AdmittedDeps(node, admitted) then [node.hash] else []
  {
    linked := children;
    var unique: set<Hash> := {};
    for j := 0 to |node.dependencies|
      invariant unique == set d | d in node.dependencies[..j] && d in admitted
      invariant forall d :: Kids(linked, d) == Kids(children, d) + if d in unique then [node.hash] else []
    {
      var dependency := node.dependencies[j];
      assert node.dependencies[..j + 1] == node.dependencies[..j] + [dependency];
      if dependency in admitted && dependency !in unique {
        linked := linked[dependency := Kids(linked, dependency) + [node.hash]];
        unique := unique + {dependency};
      }
    }
    assert node.dependencies[..|node.dependencies|] == node.dependencies;
    assert unique == AdmittedDeps(node, admitted);
    degree := |unique|;
  }

  lemma KidSnoc(g: Graph, kids: seq<Hash>, d: Hash, h: Hash, deps: set<Hash>)
    requires KidsOf(g, kids, d) && h !in g
    ensures KidsOf(g[h := deps], kids + if d in deps then [h] else [], d)
  {
  }

  lemma LinkedReversed(g: Graph, h: Hash, deps: set<Hash>, children: map<Hash, seq<Hash>>, linked: map<Hash, seq<Hash>>)
    requires Reversed(g, children) && h !in g
    requires forall d :: Kids(linked, d) == Kids(children, d) + if d in deps then [h] else []
    ensures Reversed(g[h := deps], linked)
  {
    forall d ensures KidsOf(g[h := deps], Kids(linked, d), d) {
      assert KidsOf(g, Kids(children, d), d);
      KidSnoc(g, Kids(children, d), d, h, deps);
    }
  }

  lemma DegreesSnoc(g: Graph, indegrees: map<Hash, nat>, h: Hash, deps: set<Hash>)
    requires Degrees(g, indegrees, {}) && h !in g
    ensures Degrees(g[h := deps], indegrees[h := |deps|], {})
  {
    var g', next := g[h := deps], indegrees[h := |deps|];
    forall x | x in g' ensures Counts(g', next, {}, x) {
      if x == h {
        assert deps - {} == deps;
      } else {
        assert Counts(g, indegrees, {}, x);
      }
    }
  }

  method BuildIndex(nodes: seq<Node>, admitted: set<Hash>)
    returns (indegrees: map<Hash, nat>, children: map<Hash, seq<Hash>>)
    requires UniqueHashes(nodes)
    ensures Degrees(AdmittedGraph(nodes, admitted), indegrees, {})
    ensures Reversed(AdmittedGraph(nodes, admitted), children)
  {
    indegrees, children := map[], map[];
    for i := 0 to |nodes|
      invariant Degrees(AdmittedGraph(nodes[..i], admitted), indegrees, {})
      invariant Reversed(AdmittedGraph(nodes[..i], admitted), children)
    {
      var node := nodes[i];
      ghost var g := AdmittedGraph(nodes[..i], admitted);
      assert nodes[..i + 1][..i] == nodes[..i];
      if node.hash in admitted {
        assert node.hash !in g;
        var linked, degree := LinkNode(node, admitted, children);
        LinkedReversed(g, node.hash, AdmittedDeps(node, admitted), children, linked);
        DegreesSnoc(g, indegrees, node.hash, AdmittedDeps(node, admitted));
        children := linked;
        indegrees := indegrees[node.hash := degree];
      }
    }
    assert nodes[..|nodes|] == nodes;
  }

  lemma DegreeDrops(deps: set<Hash>, done: set<Hash>, x: Hash)
    requires x !in done
    ensures |deps - (done + {x})| == if x in deps then |deps - done| - 1 else |deps - done|
    ensures |deps - (done + {x})| == 0 <==> deps <= done + {x}
  {
    if x in deps {
      assert deps - done == (deps - (done + {x})) + {x};
    } else {
      assert deps - done == deps - (done + {x});
    }
    assert deps <= (deps - (done + {x})) + (done + {x});
  }

  /** Midway through the dependants of `x`: those in `hit` already count it as ordered. */
  ghost predicate PartDegrees(g: Graph, indegrees: map<Hash, nat>, done: set<Hash>, x: Hash, hit: set<Hash>) {
    && indegrees.Keys == g.Keys
    && (forall h {:trigger Counts(g, indegrees, done + {x}, h)} :: h in g && h in hit ==>
        Counts(g, indegrees, done + {x}, h))
    && (forall h {:trigger Counts(g, indegrees, done, h)} :: h in g && h !in hit ==> Counts(g, indegrees, done, h))
  }

  lemma DegreeStep(g: Graph, indegrees: map<Hash, nat>, done: set<Hash>, x: Hash, hit: set<Hash>, child: Hash)
    requires PartDegrees(g, indegrees, done, x, hit) && x !in done
    requires child in g && x in g[child] && child !in hit
    ensures indegrees[child] >= 1
    ensures PartDegrees(g, indegrees[child := indegrees[child] - 1], done, x, hit + {child})
    ensures indegrees[child] == 1 <==> g[child] <= done + {x}
  {
    assert Counts(g, indegrees, done, child);
    DegreeDrops(g[child], done, x);
    var lowered := indegrees[child := indegrees[child] - 1];
    forall h | h in g && h in hit ensures Counts(g, lowered, done + {x}, h) {
      assert Counts(g, indegrees, done + {x}, h);
    }
    forall h | h in g && h !in hit && h != child ensures Counts(g, lowered, done, h) {
      assert Counts(g, indegrees, done, h);
    }
  }

  lemma DegreesDone(g: Graph, indegrees: map<Hash, nat>, done: set<Hash>, x: Hash, hit: set<Hash>)
    requires PartDegrees(g, indegrees, done, x, hit) && x !in done
    requires forall h :: h in g && x in g[h] ==> h in hit
    ensures Degrees(g, indegrees, done + {x})
  {
    forall h | h in g ensures Counts(g, indegrees, done + {x}, h) {
      if h !in hit {
        assert Counts(g, indegrees, done, h);
        DegreeDrops(g[h], done, x);
      }
    }
  }

  ghost function Freed(g: Graph, part: set<Hash>, done: set<Hash>): set<Hash> {
    set h | h in part && h in g && g[h] <= done
  }

  lemma FreedSnoc(g: Graph, kids: seq<Hash>, j: nat, done: set<Hash>)
    requires j < |kids| && kids[j] in g
    ensures Elements(kids[..j + 1]) == Elements(kids[..j]) + {kids[j]}
    ensures Freed(g, Elements(kids[..j + 1]), done) ==
            Freed(g, Elements(kids[..j]), done) + if g[kids[j]] <= done then {kids[j]} else {}
  {
    assert kids[..j + 1] == kids[..j] + [kids[j]];
  }

  /** Ordering `x` lowers the indegree of each of its dependants, releasing those that reach zero. */
  method ReleaseKids(kids: seq<Hash>, indegrees: map<Hash, nat>, next: set<Hash>, ghost g: Graph, ghost done: set<Hash>,
                     ghost x: Hash)
    returns (lowered: map<Hash, nat>, released: set<Hash>)
    requires Degrees(g, indegrees, done) && x !in done && KidsOf(g, kids, x)
    ensures Degrees(g, lowered, done + {x})
    ensures released == next + Freed(g, Elements(kids), done + {x})
  {
    lowered, released := indegrees, next;
    for j := 0 to |kids|
      invariant PartDegrees(g, lowered, done, x, Elements(kids[..j]))
      invariant released == next + Freed(g, Elements(kids[..j]), done + {x})
    {
      var child := kids[j];
      assert child in kids;
      DegreeStep(g, lowered, done, x, Elements(kids[..j]), child);
      FreedSnoc(g, kids, j, done + {x});
      lowered := lowered[child := lowered[child] - 1];
      if lowered[child] == 0 {
        released := released + {child};
      }
    }
    assert kids[..|kids|] == kids;
    DegreesDone(g, lowered, done, x, Elements(kids));
  }

  lemma SortedCons<T(!new)>(less: (T, T) -> bool, x: T, q: seq<T>, s: seq<T>)
    requires StrictOrder(less) && Sorted(less, q) && Sorted(less, s)
    requires Elements(s) == Elements(q) + {x} && forall o :: o in Elements(q) ==> less(x, o)
    ensures s == [x] + q
  {
    var t := [x] + q;
    assert forall i :: 0 < i < |t| ==> t[i] in Elements(q);
    ElementsConcat([x], q);
    assert forall o :: o in s <==> o in Elements(s);
    assert forall o :: o in t <==> o in Elements(t);
    SortedUnique(less, s, t);
  }

  lemma LeastFirst(rest: set<Hash>, h: Hash)
    requires h in rest && forall o :: o in rest && o != h ==> StrLess(h, o)
    ensures InOrder(rest) == [h] + InOrder(rest - {h})
  {
    StrOrder();
    SortedCons(StrLess, h, InOrder(rest - {h}), InOrder(rest));
  }

  /** The changes outside the current layer that `done` alone does not release but `done'` does. */
  ghost function Released(g: Graph, done: set<Hash>, current: set<Hash>, done': set<Hash>): set<Hash> {
    set h | h in g && h !in done && h !in current && g[h] <= done'
  }

  lemma ReleasedGrows(g: Graph, done: set<Hash>, current: set<Hash>, seen: set<Hash>, kids: seq<Hash>, x: Hash)
    requires DownClosed(g, done) && current == Layer(g, done) && seen <= current && x in current && x !in seen
    requires KidsOf(g, kids, x)
    ensures Released(g, done, current, done + seen) + Freed(g, Elements(kids), done + seen + {x})
            == Released(g, done, current, done + seen + {x})
  {
    forall h | h in g && x in g[h] ensures h !in done && h !in current {
      assert x !in done;
    }
    forall h | h in Released(g, done, current, done + seen + {x}) && x !in g[h]
      ensures h in Released(g, done, current, done + seen)
    {
    }
  }

  /** Part of a frontier is emitted: `rest` is still to come. */
  ghost predicate LayerState(g: Graph, done: set<Hash>, current: set<Hash>, rest: set<Hash>,
                             emitted: seq<Hash>, indegrees: map<Hash, nat>, next: set<Hash>)
  {
    && rest <= current
    && emitted + InOrder(rest) == InOrder(current)
    && Degrees(g, indegrees, done + (current - rest))
    && next == Released(g, done, current, done + (current - rest))
  }

  lemma LayerStart(g: Graph, done: set<Hash>, indegrees: map<Hash, nat>)
    requires Degrees(g, indegrees, done)
    ensures LayerState(g, done, Layer(g, done), Layer(g, done), [], indegrees, {})
  {
    var current := Layer(g, done);
    assert current - current == {} && done + {} == done;
    assert [] + InOrder(current) == InOrder(current);
  }

  lemma LayerEnd(g: Graph, done: set<Hash>, emitted: seq<Hash>, indegrees: map<Hash, nat>, next: set<Hash>)
    requires LayerState(g, done, Layer(g, done), {}, emitted, indegrees, next)
    ensures emitted == InOrder(Layer(g, done))
    ensures Degrees(g, indegrees, done + Layer(g, done)) && next == Layer(g, done + Layer(g, done))
  {
    var current := Layer(g, done);
    assert current - {} == current;
    assert emitted + [] == emitted;
  }

  ghost predicate Least(rest: set<Hash>, h: Hash) {
    h in rest && forall o :: o in rest && o != h ==> StrLess(h, o)
  }

  method PickLeast(rest: set<Hash>) returns (h: Hash)
    requires rest != {}
    ensures Least(rest, h)
  {
    ghost var least := LeastHash(rest);
    h :| h in rest && forall o :: o in rest && o != h ==> StrLess(h, o);
  }

  lemma EmitStep(g: Graph, done: set<Hash>, current: set<Hash>, rest: set<Hash>, emitted: seq<Hash>,
                 lowered: map<Hash, nat>, next: set<Hash>, h: Hash)
    requires rest <= current && emitted + InOrder(rest) == InOrder(current) && Least(rest, h)
    requires Degrees(g, lowered, done + (current - rest) + {h})
    requires next == Released(g, done, current, done + (current - rest) + {h})
    ensures LayerState(g, done, current, rest - {h}, emitted + [h], lowered, next)
  {
    LeastFirst(rest, h);
    ConcatAssociative(emitted, [h], InOrder(rest - {h}));
    assert done + (current - (rest - {h})) == done + (current - rest) + {h};
  }

  /** Emits the least hash of the frontier's rest. */
  method EmitLeast(children: map<Hash, seq<Hash>>, rest: set<Hash>, emitted: seq<Hash>, indegrees: map<Hash, nat>,
                   next: set<Hash>,
                   ghost g: Graph, ghost done: set<Hash>, ghost current: set<Hash>)
    returns (hash: Hash, lowered: map<Hash, nat>, next': set<Hash>)
    requires Reversed(g, children) && DownClosed(g, done) && current == Layer(g, done) && rest != {}
    requires LayerState(g, done, current, rest, emitted, indegrees, next)
    ensures hash in rest && LayerState(g, done, current, rest - {hash}, emitted + [hash], lowered, next')
  {
    hash := PickLeast(rest);
    ghost var seen := current - rest;
    assert KidsOf(g, Kids(children, hash), hash);
    ReleasedGrows(g, done, current, seen, Kids(children, hash), hash);
    lowered, next' := ReleaseKids(Kids(children, hash), indegrees, next, g, done + seen, hash);
    EmitStep(g, done, current, rest, emitted, lowered, next', hash);
  }

  /** One frontier, in hash order. */
  method OrderLayer(children: map<Hash, seq<Hash>>, indegrees: map<Hash, nat>, current: set<Hash>, ghost g: Graph,
                    ghost done: set<Hash>)
    returns (emitted: seq<Hash>, lowered: map<Hash, nat>, next: set<Hash>)
    requires Reversed(g, children) && Degrees(g, indegrees, done)
    requires DownClosed(g, done) && current == Layer(g, done)
    ensures emitted == InOrder(current)
    ensures Degrees(g, lowered, done + current)
    ensures next == Layer(g, done + current)
  {
    emitted, lowered, next := [], indegrees, {};
    var rest := current;
    LayerStart(g, done, indegrees);
    while rest != {}
      invariant LayerState(g, done, current, rest, emitted, lowered, next)
      decreases rest
    {
      var hash;
      hash, lowered, next := EmitLeast(children, rest, emitted, lowered, next, g, done, current);
      emitted, rest := emitted + [hash], rest - {hash};
    }
    LayerEnd(g, done, emitted, lowered, next);
  }

  lemma LeastHash(s: set<Hash>) returns (least: Hash)
    requires s != {}
    ensures least in s && forall o :: o in s && o != least ==> StrLess(least, o)
  {
    StrOrder();
    least := LeastExists(StrLess, s);
  }

  lemma FirstFrontier(g: Graph, indegrees: map<Hash, nat>)
    requires Degrees(g, indegrees, {})
    ensures (set h | h in indegrees && indegrees[h] == 0) == Layer(g, {})
  {
    forall h | h in g ensures indegrees[h] == 0 <==> g[h] <= {} {
      assert Counts(g, indegrees, {}, h) && g[h] - {} == g[h];
    }
  }

  lemma LayerClosed(g: Graph, done: set<Hash>)
    requires DownClosed(g, done)
    ensures DownClosed(g, done + Layer(g, done))
  {
  }

  datatype OrderError = CyclicDependencies

  ghost function NodeHashes(nodes: seq<Node>): set<Hash> {
    set n | n in nodes :: n.hash
  }

  /**
   Orders the admitted changes. The order is the rescan order, and the only failures are an
   admitted hash with no change and a dependency cycle.
   */
  method OrderedAdmittedHashes(nodes: seq<Node>, admitted: set<Hash>) returns (r: Result<seq<Hash>, OrderError>)
    requires UniqueHashes(nodes)
    ensures r.Ok? <==> admitted <= NodeHashes(nodes) && !Cyclic(AdmittedGraph(nodes, admitted))
    ensures r.Ok? ==> r.value == RescanOrder(AdmittedGraph(nodes, admitted), {})
  {
    ghost var g := AdmittedGraph(nodes, admitted);
    var indegrees, children := BuildIndex(nodes, admitted);
    var frontier := set h | h in indegrees && indegrees[h] == 0;
    FirstFrontier(g, indegrees);
    var ordered: seq<Hash> := [];
    ghost var done: set<Hash> := {};
    while frontier != {}
      invariant frontier == Layer(g, done) && DownClosed(g, done) && Degrees(g, indegrees, done)
      invariant ordered + RescanOrder(g, done) == RescanOrder(g, {})
      decreases g.Keys - done
    {
      var emitted, lowered, next := OrderLayer(children, indegrees, frontier, g, done);
      LayerShrinks(g, done);
      RescanUnfolds(g, done, ordered);
      LayerClosed(g, done);
      ordered := ordered + emitted;
      done := done + frontier;
      indegrees, frontier := lowered, next;
    }
    assert ordered == RescanOrder(g, {});
    OrderedIffAcyclic(nodes, admitted);
    if |ordered| != |admitted| {
      return Err(CyclicDependencies);
    }
    r := Ok(ordered);
  }

  lemma OrderedIffAcyclic(nodes: seq<Node>, admitted: set<Hash>)
    requires UniqueHashes(nodes)
    ensures |RescanOrder(AdmittedGraph(nodes, admitted), {})| == |admitted| <==>
            admitted <= NodeHashes(nodes) && !Cyclic(AdmittedGraph(nodes, admitted))
  {
    var g := AdmittedGraph(nodes, admitted);
    var order := RescanOrder(g, {});
    RescanPermutes(g, {});
    DistinctSize(order);
    assert Elements(order) <= g.Keys <= admitted;
    SubsetSize(Elements(order), admitted);
    assert admitted <= NodeHashes(nodes) <==> g.Keys == admitted;
    if g.Keys == admitted {
      forall h | h in g ensures g[h] <= g.Keys {
        var n :| n in nodes && n.hash == h;
        AdmittedGraphAt(nodes, admitted, n);
      }
      RescanCompleteIffAcyclic(g);
    }
  }

  /** The order does not depend on the order in which the changes are listed. */
  lemma OrderIndependent(nodes: seq<Node>, nodes': seq<Node>, admitted: set<Hash>)
    requires UniqueHashes(nodes) && UniqueHashes(nodes')
    requires forall n :: n in nodes <==> n in nodes'
    ensures AdmittedGraph(nodes, admitted) == AdmittedGraph(nodes', admitted)
  {
    var g, g' := AdmittedGraph(nodes, admitted), AdmittedGraph(nodes', admitted);
    forall h | h in g || h in g' ensures h in g && h in g' && g[h] == g'[h] {
      var n :| n in nodes && n.hash == h;
      AdmittedGraphAt(nodes, admitted, n);
      AdmittedGraphAt(nodes', admitted, n);
    }
  }
}
