/**
 The signed coverage tree of an archive: batches of 64 object ids become leaves, and a base-8
 carry folds them into one branch. The streaming builder is proved equal to a simple bottom-up
 tree. A set digest is the value it hashes, so equal digests have equal contents.
 */
module Coverage {
  import opened Wrappers
  import opened Ordering
  import Base64Url

  // Batches hold 64 ids and branches 8 children; both are written as literals so that the
  // arithmetic on them stays linear.
  const MAX_OBJECTS: nat := 1_048_576
  const MAX_DEPTH: nat := 32
  const MAX_INTEGER: nat := 9_007_199_254_740_991

  datatype Digest =
    | LeafDigest(objects: seq<(string, nat)>)
    | BranchDigest(archiveRootId: string, children: seq<Summary>)

  datatype Summary = Summary(
    height: nat, objectCount: nat, firstId: string, lastId: string,
    setDigest: Digest, rootCovered: bool)

  datatype CoverageError =
    | InvalidObjectHash | InvalidInteger | InvalidOrderOrCount | EmptySet
    | FanoutOrDepthExceeded | ChildrenOverlap | CountOverflow | DepthExceeded

  /** The canonical text of 32 bytes in URL-safe base64 without padding. */
  ghost predicate ValidDigest(s: string) {
    exists bytes: seq<Base64Url.Byte> :: |bytes| == 32 && Base64Url.Encode(bytes) == s
  }

  /** Looks at the digits instead of decoding: 43 of them, the last with two zero bits. */
  method CheckDigest(s: string) returns (ok: bool)
    ensures ok <==> ValidDigest(s)
  {
    Base64Url.Is32BytesExact(s);
    ok := Base64Url.Is32Bytes(s);
  }

  ghost predicate Positive(n: nat) {
    0 < n <= MAX_INTEGER
  }

  // ----- Nodes -----

  function Tag(ids: seq<string>, epoch: nat): (entries: seq<(string, nat)>) {
    seq(|ids|, i requires 0 <= i < |ids| => (ids[i], epoch))
  }

  function LeafNode(root: string, epoch: nat, ids: seq<string>): Summary
    requires ids != []
  {
    Summary(0, |ids|, ids[0], ids[|ids| - 1], LeafDigest(Tag(ids, epoch)), root in ids)
  }

  function Total(nodes: seq<Summary>): nat {
    if nodes == [] then 0 else Total(nodes[..|nodes| - 1]) + nodes[|nodes| - 1].objectCount
  }

  predicate AnyCovered(nodes: seq<Summary>) {
    exists i :: 0 <= i < |nodes| && nodes[i].rootCovered
  }

  function BranchNode(root: string, children: seq<Summary>): Summary
    requires children != []
  {
    Summary(children[0].height + 1, Total(children), children[0].firstId,
            children[|children| - 1].lastId, BranchDigest(root, children), AnyCovered(children))
  }

  predicate Before(a: Summary, b: Summary) {
    StrLess(a.lastId, b.firstId)
  }

  ghost predicate Adjacent(nodes: seq<Summary>) {
    Consecutive(Before, nodes)
  }

  /** What `branch` accepts. */
  ghost predicate BranchOk(children: seq<Summary>) {
    && 0 < |children| <= 8
    && children[0].height < MAX_DEPTH - 1
    && (forall i :: 0 <= i < |children| ==> children[i].height == children[0].height)
    && Adjacent(children)
    && PositiveSums(children, |children|)
  }

  /** The running count is an object count after each of the first `n` children. */
  ghost predicate PositiveSums(children: seq<Summary>, n: nat)
    requires n <= |children|
  {
    forall k :: 0 < k <= n ==> Positive(Total(children[..k]))
  }

  lemma SumSnoc(children: seq<Summary>, n: nat)
    requires n < |children|
    ensures Total(children[..n + 1]) == Total(children[..n]) + children[n].objectCount
    ensures PositiveSums(children, n + 1) <==> PositiveSums(children, n) && Positive(Total(children[..n + 1]))
  {
    assert children[..n + 1][..n] == children[..n];
  }

  /** The first `n` children are of one height, in order and counted. */
  ghost predicate Branched(children: seq<Summary>, n: nat)
    requires n <= |children|
  {
    && (forall k :: 0 <= k < n ==> children[k].height == children[0].height)
    && Adjacent(children[..n]) && PositiveSums(children, n)
  }

  lemma BranchedSnoc(children: seq<Summary>, n: nat)
    requires n < |children| && Branched(children, n)
    ensures Branched(children, n + 1) <==>
            && children[n].height == children[0].height && (n > 0 ==> Before(children[n - 1], children[n]))
            && Positive(Total(children[..n]) + children[n].objectCount)
    ensures !Branched(children, n + 1) ==> !BranchOk(children)
  {
    ConsecutiveSnoc(Before, children, n);
    SumSnoc(children, n);
  }

  method Branch(root: string, children: seq<Summary>) returns (r: Result<Summary, CoverageError>)
    ensures r.Ok? <==> BranchOk(children)
    ensures r.Ok? ==> r.value == BranchNode(root, children)
  {
    if |children| == 0 || |children| > 8 || children[0].height >= MAX_DEPTH - 1 {
      return Err(FanoutOrDepthExceeded);
    }
    var count, i := 0, 0;
    while i < |children|
      invariant 0 <= i <= |children| && count == Total(children[..i]) && Branched(children, i)
    {
      BranchedSnoc(children, i);
      if children[i].height != children[0].height
         || (i > 0 && !Before(children[i - 1], children[i])) {
        return Err(ChildrenOverlap);
      }
      SumSnoc(children, i);
      count := count + children[i].objectCount;
      if count == 0 || count > MAX_INTEGER {
        return Err(CountOverflow);
      }
      i := i + 1;
    }
    assert children[..|children|] == children;
    r := Ok(Summary(children[0].height + 1, count, children[0].firstId,
                    children[|children| - 1].lastId, BranchDigest(root, children), AnyCovered(children)));
  }

  // ----- The simple bottom-up tree -----

  function LeafNodes(root: string, epoch: nat, ids: seq<string>): seq<Summary> {
    if ids == [] then []
    else if |ids| <= 64 then [LeafNode(root, epoch, ids)]
    else [LeafNode(root, epoch, ids[..64])] + LeafNodes(root, epoch, ids[64..])
  }

  function ParentNodes(root: string, nodes: seq<Summary>): (parents: seq<Summary>)
    ensures nodes == [] <==> parents == []
    ensures |parents| <= |nodes| && (|nodes| > 1 ==> |parents| < |nodes|)
  {
    if nodes == [] then []
    else if |nodes| <= 8 then [BranchNode(root, nodes)]
    else [BranchNode(root, nodes[..8])] + ParentNodes(root, nodes[8..])
  }

  function Collapse(root: string, nodes: seq<Summary>, height: nat): Summary
    requires nodes != []
    decreases |nodes|, if height == 0 then 1 else 0
  {
    if |nodes| == 1 && height >= 1 then nodes[0]
    else Collapse(root, ParentNodes(root, nodes), height + 1)
  }

  /** Chunk by 64, then repeatedly by 8, until one node of height at least 1 is left. */
  function SimpleTree(root: string, epoch: nat, ids: seq<string>): Summary
    requires ids != []
  {
    Collapse(root, LeafNodes(root, epoch, ids), 0)
  }

  // ----- Ordered node lists -----

  ghost predicate Ordered(nodes: seq<Summary>, height: nat) {
    && (forall i :: 0 <= i < |nodes| ==> nodes[i].height == height && 0 < nodes[i].objectCount
                                         && !StrLess(nodes[i].lastId, nodes[i].firstId))
    && Adjacent(nodes)
    && Total(nodes) <= MAX_INTEGER
  }

  lemma {:induction false} TotalConcat(a: seq<Summary>, b: seq<Summary>)
    ensures Total(a + b) == Total(a) + Total(b)
  {
    if b == [] {
      assert a + b == a;
    } else {
      TotalConcat(a, b[..|b| - 1]);
      assert (a + b)[..|a + b| - 1] == a + b[..|b| - 1];
    }
  }

  lemma TotalPositive(nodes: seq<Summary>)
    requires nodes != [] && forall i :: 0 <= i < |nodes| ==> 0 < nodes[i].objectCount
    ensures 0 < Total(nodes)
  {
  }

  lemma TotalSplit(nodes: seq<Summary>, k: nat)
    requires k <= |nodes|
    ensures Total(nodes) == Total(nodes[..k]) + Total(nodes[k..])
  {
    assert nodes == nodes[..k] + nodes[k..];
    TotalConcat(nodes[..k], nodes[k..]);
  }

  lemma TotalSlice(nodes: seq<Summary>, lo: nat, hi: nat)
    requires lo <= hi <= |nodes|
    ensures Total(nodes[lo..hi]) <= Total(nodes)
  {
    TotalSplit(nodes, hi);
    TotalSplit(nodes[..hi], lo);
    assert nodes[..hi][lo..] == nodes[lo..hi];
  }

  lemma OrderedSlice(nodes: seq<Summary>, height: nat, lo: nat, hi: nat)
    requires Ordered(nodes, height) && lo <= hi <= |nodes|
    ensures Ordered(nodes[lo..hi], height)
  {
    TotalSlice(nodes, lo, hi);
    ConsecutiveSlice(Before, nodes, lo, hi);
  }

  lemma OrderedBranchOk(nodes: seq<Summary>, height: nat)
    requires Ordered(nodes, height) && 0 < |nodes| <= 8 && height < MAX_DEPTH - 1
    ensures BranchOk(nodes)
  {
    forall n | 0 < n <= |nodes| ensures Positive(Total(nodes[..n])) {
      OrderedSlice(nodes, height, 0, n);
      assert nodes[0..n] == nodes[..n];
      TotalPositive(nodes[..n]);
    }
  }

  /** Along an ordered list of nonempty ranges the first id is never above the last. */
  lemma {:induction false} OrderedSpan(nodes: seq<Summary>, height: nat)
    requires Ordered(nodes, height) && nodes != []
    ensures !StrLess(nodes[|nodes| - 1].lastId, nodes[0].firstId)
  {
    StrOrder();
    if |nodes| > 1 {
      var init := nodes[0..|nodes| - 1];
      OrderedSlice(nodes, height, 0, |nodes| - 1);
      OrderedSpan(init, height);
      assert init[|init| - 1] == nodes[|nodes| - 2] && init[0] == nodes[0];
    }
  }

  /** Two lists describe the same ids: same ends, same number, same coverage of the root. */
  ghost predicate SameExtent(a: seq<Summary>, b: seq<Summary>) {
    && (a == [] <==> b == [])
    && (a != [] && b != [] ==> a[0].firstId == b[0].firstId && a[|a| - 1].lastId == b[|b| - 1].lastId)
    && Total(a) == Total(b)
    && (AnyCovered(a) <==> AnyCovered(b))
  }

  lemma CoveredConcat(a: seq<Summary>, b: seq<Summary>)
    ensures AnyCovered(a + b) <==> AnyCovered(a) || AnyCovered(b)
  {
    if i :| 0 <= i < |a| && a[i].rootCovered { assert (a + b)[i].rootCovered; }
    if i :| 0 <= i < |b| && b[i].rootCovered { assert (a + b)[|a| + i].rootCovered; }
  }

  lemma ExtentConcat(a: seq<Summary>, a': seq<Summary>, b: seq<Summary>, b': seq<Summary>)
    requires SameExtent(a, a') && SameExtent(b, b')
    ensures SameExtent(a + b, a' + b')
  {
    TotalConcat(a, b);
    TotalConcat(a', b');
    CoveredConcat(a, b);
    CoveredConcat(a', b');
  }

  lemma BranchExtent(root: string, nodes: seq<Summary>)
    requires nodes != []
    ensures SameExtent([BranchNode(root, nodes)], nodes)
  {
    var one := [BranchNode(root, nodes)];
    assert one[..0] == [];
    assert AnyCovered(nodes) ==> one[0].rootCovered;
  }

  lemma OrderedConcat(a: seq<Summary>, b: seq<Summary>, height: nat)
    requires Ordered(a, height) && Ordered(b, height) && Total(a) + Total(b) <= MAX_INTEGER
    requires a != [] && b != [] ==> Before(a[|a| - 1], b[0])
    ensures Ordered(a + b, height)
  {
    TotalConcat(a, b);
    ConsecutiveConcat(Before, a, b);
  }

  lemma BranchOrdered(root: string, nodes: seq<Summary>, height: nat)
    requires Ordered(nodes, height) && nodes != []
    ensures Ordered([BranchNode(root, nodes)], height + 1)
  {
    OrderedSpan(nodes, height);
    TotalPositive(nodes);
    BranchExtent(root, nodes);
  }

  lemma {:induction false} ParentsExtent(root: string, nodes: seq<Summary>)
    ensures SameExtent(ParentNodes(root, nodes), nodes)
    decreases |nodes|
  {
    if nodes == [] {
    } else if |nodes| <= 8 {
      BranchExtent(root, nodes);
    } else {
      BranchExtent(root, nodes[..8]);
      ParentsExtent(root, nodes[8..]);
      ExtentConcat([BranchNode(root, nodes[..8])], nodes[..8],
                   ParentNodes(root, nodes[8..]), nodes[8..]);
      assert nodes == nodes[..8] + nodes[8..];
    }
  }

  lemma {:induction false} ParentsOrdered(root: string, nodes: seq<Summary>, height: nat)
    requires Ordered(nodes, height)
    ensures Ordered(ParentNodes(root, nodes), height + 1)
    decreases |nodes|
  {
    if nodes == [] {
    } else if |nodes| <= 8 {
      BranchOrdered(root, nodes, height);
    } else {
      var head, tail := nodes[0..8], nodes[8..|nodes|];
      OrderedSlice(nodes, height, 0, 8);
      OrderedSlice(nodes, height, 8, |nodes|);
      BranchOrdered(root, head, height);
      ParentsOrdered(root, tail, height);
      ParentsExtent(root, tail);
      BranchExtent(root, head);
      assert nodes == head + tail;
      TotalConcat(head, tail);
      assert nodes[7] == head[|head| - 1] && nodes[8] == tail[0];
      OrderedConcat([BranchNode(root, head)], ParentNodes(root, tail), height + 1);
      assert nodes[..8] == head && nodes[8..] == tail;
    }
  }

  // ----- Leaves of an id list -----

  ghost predicate Increasing(ids: seq<string>) {
    Consecutive(StrLess, ids)
  }

  lemma {:induction false} IncreasingSpan(ids: seq<string>)
    requires Increasing(ids) && ids != []
    ensures !StrLess(ids[|ids| - 1], ids[0])
  {
    StrOrder();
    if |ids| > 1 {
      IncreasingSpan(ids[..|ids| - 1]);
    }
  }

  /** The leaves hold all the ids: as many, with the same ends, and the root if it is there. */
  ghost predicate Holds(nodes: seq<Summary>, ids: seq<string>, root: string) {
    && (nodes == [] <==> ids == [])
    && (nodes != [] && ids != [] ==> nodes[0].firstId == ids[0] && nodes[|nodes| - 1].lastId == ids[|ids| - 1])
    && Total(nodes) == |ids|
    && (AnyCovered(nodes) <==> root in ids)
  }

  lemma LeafHolds(root: string, epoch: nat, ids: seq<string>)
    requires ids != [] && Increasing(ids) && |ids| <= MAX_INTEGER
    ensures Holds([LeafNode(root, epoch, ids)], ids, root)
    ensures Ordered([LeafNode(root, epoch, ids)], 0)
  {
    var one := [LeafNode(root, epoch, ids)];
    IncreasingSpan(ids);
    assert one[..0] == [];
    assert root in ids ==> one[0].rootCovered;
  }

  lemma HoldsConcat(a: seq<Summary>, p: seq<string>, b: seq<Summary>, q: seq<string>, root: string)
    requires Holds(a, p, root) && Holds(b, q, root)
    ensures Holds(a + b, p + q, root)
  {
    TotalConcat(a, b);
    CoveredConcat(a, b);
  }

  lemma {:induction false} LeavesCount(root: string, epoch: nat, ids: seq<string>)
    ensures |ids| <= 64 * |LeafNodes(root, epoch, ids)|
    ensures ids != [] ==> 64 * |LeafNodes(root, epoch, ids)| < |ids| + 64
    decreases |ids|
  {
    if |ids| > 64 {
      LeavesCount(root, epoch, ids[64..]);
    }
  }

  lemma {:induction false} LeavesHold(root: string, epoch: nat, ids: seq<string>)
    requires Increasing(ids) && |ids| <= MAX_INTEGER
    ensures Holds(LeafNodes(root, epoch, ids), ids, root)
    decreases |ids|
  {
    if 0 < |ids| <= 64 {
      LeafHolds(root, epoch, ids);
    } else if ids != [] {
      var head, tail := ids[..64], ids[64..];
      LeafHolds(root, epoch, head);
      LeavesHold(root, epoch, tail);
      HoldsConcat([LeafNode(root, epoch, head)], head, LeafNodes(root, epoch, tail), tail, root);
      assert ids == head + tail;
    }
  }

  lemma {:induction false} LeavesOrdered(root: string, epoch: nat, ids: seq<string>)
    requires Increasing(ids) && |ids| <= MAX_INTEGER
    ensures Ordered(LeafNodes(root, epoch, ids), 0)
    decreases |ids|
  {
    if 0 < |ids| <= 64 {
      LeafHolds(root, epoch, ids);
    } else if ids != [] {
      var head, tail := ids[..64], ids[64..];
      var first, rest := [LeafNode(root, epoch, head)], LeafNodes(root, epoch, tail);
      LeafHolds(root, epoch, head);
      LeavesHold(root, epoch, tail);
      LeavesOrdered(root, epoch, tail);
      assert StrLess(ids[63], ids[64]);
      assert first[|first| - 1].lastId == ids[63] && rest[0].firstId == ids[64];
      OrderedConcat(first, rest, 0);
    }
  }

  lemma {:induction false} LeavesConcat(root: string, epoch: nat, a: seq<string>, full: nat, b: seq<string>)
    requires |a| == 64 * full
    ensures LeafNodes(root, epoch, a + b) == LeafNodes(root, epoch, a) + LeafNodes(root, epoch, b)
    decreases full
  {
    if full == 0 {
      assert a + b == b;
    } else {
      LeavesConcat(root, epoch, a[64..], full - 1, b);
      assert (a + b)[..64] == a[..64] && (a + b)[64..] == a[64..] + b;
      if b == [] { assert a + b == a; }
      assert |a| == 64 ==> a[64..] == [] && a[..64] == a;
      assert |a + b| == 64 ==> (a + b)[..64] == a + b;
    }
  }

  // ----- Buckets: the base-8 representation of a node list -----

  /** The nodes after the last full group of eight. */
  function Remainder(nodes: seq<Summary>): (rest: seq<Summary>)
    ensures |rest| < 8 && |rest| <= |nodes|
  {
    if |nodes| < 8 then nodes else Remainder(nodes[8..])
  }

  function FullParents(root: string, nodes: seq<Summary>): (parents: seq<Summary>)
    ensures parents == [] <==> |nodes| < 8
  {
    if |nodes| < 8 then []
    else [BranchNode(root, nodes[..8])] + FullParents(root, nodes[8..])
  }

  lemma {:induction false} RemainderSuffix(nodes: seq<Summary>)
    ensures Remainder(nodes) == nodes[|nodes| - |Remainder(nodes)|..]
    decreases |nodes|
  {
    if |nodes| >= 8 {
      RemainderSuffix(nodes[8..]);
      var rest := Remainder(nodes);
      assert nodes[8..][|nodes| - 8 - |rest|..] == nodes[|nodes| - |rest|..];
    }
  }

  lemma {:induction false} FullCount(root: string, nodes: seq<Summary>)
    ensures 8 * |FullParents(root, nodes)| + |Remainder(nodes)| == |nodes|
    decreases |nodes|
  {
    if |nodes| >= 8 {
      FullCount(root, nodes[8..]);
    }
  }

  lemma {:induction false} ParentCount(root: string, nodes: seq<Summary>)
    ensures |nodes| <= 8 * |ParentNodes(root, nodes)|
    ensures nodes != [] ==> 8 * |ParentNodes(root, nodes)| < |nodes| + 8
    decreases |nodes|
  {
    if |nodes| > 8 {
      ParentCount(root, nodes[8..]);
    }
  }

  ghost predicate Represents(root: string, levels: seq<seq<Summary>>, nodes: seq<Summary>)
    decreases |levels|
  {
    if levels == [] then nodes == []
    else levels[0] == Remainder(nodes) && Represents(root, levels[1..], FullParents(root, nodes))
  }

  lemma {:induction false} EmptyRepresents(root: string, levels: seq<seq<Summary>>)
    requires Represents(root, levels, [])
    ensures forall i :: 0 <= i < |levels| ==> levels[i] == []
    decreases |levels|
  {
    if levels != [] {
      EmptyRepresents(root, levels[1..]);
      assert forall i :: 0 < i < |levels| ==> levels[i] == levels[1..][i - 1];
    }
  }

  lemma {:induction false} EmptyBuckets(root: string, levels: seq<seq<Summary>>, nodes: seq<Summary>)
    requires Represents(root, levels, nodes)
    requires forall i :: 0 <= i < |levels| ==> levels[i] == []
    ensures nodes == []
    decreases |levels|
  {
    if levels != [] {
      EmptyBuckets(root, levels[1..], FullParents(root, nodes));
    }
  }

  lemma {:induction false} ParentsSplit(root: string, nodes: seq<Summary>)
    ensures ParentNodes(root, nodes) ==
            FullParents(root, nodes) +
            (if Remainder(nodes) == [] then [] else [BranchNode(root, Remainder(nodes))])
    decreases |nodes|
  {
    if |nodes| >= 8 {
      ParentsSplit(root, nodes[8..]);
      if |nodes| == 8 {
        assert nodes[..8] == nodes && nodes[8..] == [];
      }
    }
  }

  /** One more node either lengthens the remainder or completes a group. */
  lemma {:induction false} FullParentsSnoc(root: string, nodes: seq<Summary>, x: Summary)
    ensures |Remainder(nodes)| + 1 < 8 ==>
      FullParents(root, nodes + [x]) == FullParents(root, nodes) && Remainder(nodes + [x]) == Remainder(nodes) + [x]
    ensures |Remainder(nodes)| + 1 == 8 ==>
      && FullParents(root, nodes + [x]) == FullParents(root, nodes) + [BranchNode(root, Remainder(nodes) + [x])]
      && Remainder(nodes + [x]) == []
    decreases |nodes|
  {
    if |nodes| < 8 {
      if |nodes| + 1 == 8 {
        assert (nodes + [x])[..8] == nodes + [x] && (nodes + [x])[8..] == [];
      }
    } else {
      FullParentsSnoc(root, nodes[8..], x);
      assert (nodes + [x])[..8] == nodes[..8];
      assert (nodes + [x])[8..] == nodes[8..] + [x];
    }
  }

  /** `push` seen from the node's own height upwards. */
  ghost function Carry(root: string, levels: seq<seq<Summary>>, node: Summary): Result<seq<seq<Summary>>, CoverageError>
    decreases |levels|
  {
    if node.height >= MAX_DEPTH then Err(DepthExceeded)
    else if levels == [] then Ok([[node]])
    else if |levels[0]| + 1 < 8 then Ok([levels[0] + [node]] + levels[1..])
    else if !BranchOk(levels[0] + [node]) then Err(FanoutOrDepthExceeded)
    else
      var rest := Carry(root, levels[1..], BranchNode(root, levels[0] + [node]));
      if rest.Err? then rest else Ok([[]] + rest.value)
  }

  function Pow8(k: nat): nat {
    if k == 0 then 1 else 8 * Pow8(k - 1)
  }

  lemma RepresentsCons(root: string, bucket: seq<Summary>, rest: seq<seq<Summary>>, nodes: seq<Summary>)
    ensures Represents(root, [bucket] + rest, nodes) <==>
            bucket == Remainder(nodes) && Represents(root, rest, FullParents(root, nodes))
  {
    assert ([bucket] + rest)[1..] == rest;
  }

  /** Carrying a node into the buckets of `nodes` gives the buckets of `nodes + [x]`. */
  lemma {:induction false} CarryRepresents(root: string, levels: seq<seq<Summary>>, nodes: seq<Summary>, x: Summary)
    requires Represents(root, levels, nodes) && Carry(root, levels, x).Ok?
    ensures Represents(root, Carry(root, levels, x).value, nodes + [x])
    decreases |levels|
  {
    if levels == [] {
      assert nodes + [x] == [x] && [[x]] == [[x]] + [];
      RepresentsCons(root, [x], [], [x]);
    } else if |levels[0]| + 1 < 8 {
      FullParentsSnoc(root, nodes, x);
      RepresentsCons(root, levels[0] + [x], levels[1..], nodes + [x]);
    } else {
      var group := BranchNode(root, levels[0] + [x]);
      CarryMoves(root, levels, x);
      CarryRepresents(root, levels[1..], FullParents(root, nodes), group);
      FullParentsSnoc(root, nodes, x);
      RepresentsCons(root, [], Carry(root, levels[1..], group).value, nodes + [x]);
    }
  }

  /** A full bucket is emptied and its parent carried on. */
  lemma CarryMoves(root: string, levels: seq<seq<Summary>>, x: Summary)
    requires levels != [] && |levels[0]| + 1 >= 8
    ensures var rest := Carry(root, levels[1..], BranchNode(root, levels[0] + [x]));
            && (Carry(root, levels, x).Ok? <==> x.height < MAX_DEPTH && BranchOk(levels[0] + [x]) && rest.Ok?)
            && (Carry(root, levels, x).Ok? ==> Carry(root, levels, x).value == [[]] + rest.value)
  {
  }

  lemma FullOrdered(root: string, nodes: seq<Summary>, height: nat)
    requires Ordered(nodes, height)
    ensures Ordered(FullParents(root, nodes), height + 1)
  {
    ParentsOrdered(root, nodes, height);
    ParentsSplit(root, nodes);
    var parents := ParentNodes(root, nodes);
    OrderedSlice(parents, height + 1, 0, |FullParents(root, nodes)|);
    assert parents[0..|FullParents(root, nodes)|] == FullParents(root, nodes);
  }

  lemma RemainderOrdered(nodes: seq<Summary>, x: Summary, height: nat)
    requires Ordered(nodes + [x], height)
    ensures Ordered(Remainder(nodes) + [x], height)
  {
    var start := |nodes| - |Remainder(nodes)|;
    RemainderSuffix(nodes);
    OrderedSlice(nodes + [x], height, start, |nodes| + 1);
    assert Remainder(nodes) + [x] == (nodes + [x])[start..|nodes| + 1];
  }

  /** A node that completes a group can be branched, and its parent extends the full parents in order. */
  lemma GroupReady(root: string, nodes: seq<Summary>, x: Summary, height: nat)
    requires Ordered(nodes + [x], height) && |Remainder(nodes)| + 1 == 8 && height < MAX_DEPTH - 1
    ensures BranchOk(Remainder(nodes) + [x])
    ensures Ordered(FullParents(root, nodes) + [BranchNode(root, Remainder(nodes) + [x])], height + 1)
  {
    RemainderOrdered(nodes, x, height);
    OrderedBranchOk(Remainder(nodes) + [x], height);
    FullParentsSnoc(root, nodes, x);
    FullOrdered(root, nodes + [x], height);
  }

  lemma GroupRoom(root: string, nodes: seq<Summary>, k: nat)
    requires |Remainder(nodes)| + 1 == 8 && |nodes| + 1 <= Pow8(k)
    ensures k >= 1 && |FullParents(root, nodes)| + 1 <= Pow8(k - 1)
  {
    FullCount(root, nodes);
  }

  /** Ordered nodes carry without error while the depth suffices for their number. */
  lemma {:induction false} CarrySucceeds(
    root: string, levels: seq<seq<Summary>>, nodes: seq<Summary>, x: Summary, height: nat, k: nat)
    requires Represents(root, levels, nodes) && Ordered(nodes + [x], height)
    requires height + k < MAX_DEPTH && |nodes| + 1 <= Pow8(k)
    ensures Carry(root, levels, x).Ok?
    decreases |levels|
  {
    if levels == [] || |levels[0]| + 1 < 8 {
      CarryStays(root, levels, nodes, x, height);
    } else {
      var upper, parents, group := GroupCarries(root, levels, nodes, x, height, k);
      CarrySucceeds(root, upper, parents, group, height + 1, k - 1);
    }
  }

  lemma CarryStays(root: string, levels: seq<seq<Summary>>, nodes: seq<Summary>, x: Summary, height: nat)
    requires (levels == [] || |levels[0]| + 1 < 8) && Ordered(nodes + [x], height) && height < MAX_DEPTH
    ensures Carry(root, levels, x).Ok?
  {
    assert (nodes + [x])[|nodes|] == x;
  }

  /** A full bucket leaves the same question one level up, with an eighth of the room. */
  lemma GroupCarries(root: string, levels: seq<seq<Summary>>, nodes: seq<Summary>, x: Summary, height: nat, k: nat)
    returns (upper: seq<seq<Summary>>, parents: seq<Summary>, group: Summary)
    requires Represents(root, levels, nodes) && Ordered(nodes + [x], height) && levels != [] && |levels[0]| + 1 >= 8
    requires height + k < MAX_DEPTH && |nodes| + 1 <= Pow8(k)
    ensures k >= 1 && |parents| + 1 <= Pow8(k - 1)
    ensures |upper| < |levels| && Represents(root, upper, parents) && Ordered(parents + [group], height + 1)
    ensures Carry(root, upper, group).Ok? ==> Carry(root, levels, x).Ok?
  {
    upper, parents, group := levels[1..], FullParents(root, nodes), BranchNode(root, levels[0] + [x]);
    GroupRoom(root, nodes, k);
    assert Ordered(parents + [group], height + 1) by { GroupReady(root, nodes, x, height); }
    if Carry(root, upper, group).Ok? { CarryContinues(root, levels, nodes, x, height); }
  }

  lemma CarryContinues(root: string, levels: seq<seq<Summary>>, nodes: seq<Summary>, x: Summary, height: nat)
    requires Represents(root, levels, nodes) && Ordered(nodes + [x], height) && levels != [] && |levels[0]| + 1 >= 8
    requires height < MAX_DEPTH - 1 && Carry(root, levels[1..], BranchNode(root, levels[0] + [x])).Ok?
    ensures Carry(root, levels, x).Ok?
  {
    assert x.height < MAX_DEPTH by { assert (nodes + [x])[|nodes|] == x; }
    assert BranchOk(levels[0] + [x]) by { GroupReady(root, nodes, x, height); }
    CarryMoves(root, levels, x);
  }

  function Padded(levels: seq<seq<Summary>>, height: nat): seq<seq<Summary>> {
    if |levels| < height then levels + seq(height - |levels|, i => []) else levels
  }

  /** `push` on whole levels: those below the node stay, those from its height up carry. */
  ghost function Pushed(root: string, levels: seq<seq<Summary>>,
                        node: Summary): Result<seq<seq<Summary>>, CoverageError>
    requires node.height <= |levels|
  {
    var upper := Carry(root, levels[node.height..], node);
    if upper.Err? then Err(DepthExceeded) else Ok(levels[..node.height] + upper.value)
  }

  lemma PushedStays(root: string, levels: seq<seq<Summary>>, node: Summary)
    requires node.height < |levels| && node.height < MAX_DEPTH && |levels[node.height]| + 1 < 8
    ensures Pushed(root, levels, node) == Ok(levels[node.height := levels[node.height] + [node]])
  {
    var h, bucket := node.height, levels[node.height] + [node];
    var upper := levels[h..];
    assert Carry(root, upper, node) == Ok([bucket] + upper[1..]);
    assert levels[h := bucket] == levels[..h] + ([bucket] + upper[1..]);
  }

  lemma PushedCarries(root: string, levels: seq<seq<Summary>>, node: Summary)
    requires node.height < |levels| && node.height < MAX_DEPTH && |levels[node.height]| + 1 >= 8
    ensures var group := levels[node.height] + [node];
            Pushed(root, levels, node) ==
            if !BranchOk(group) then Err(DepthExceeded)
            else Pushed(root, levels[node.height := []], BranchNode(root, group))
  {
    var h, group := node.height, levels[node.height] + [node];
    assert levels[h..][1..] == levels[h + 1..];
    if BranchOk(group) {
      assert group[0].height == group[|group| - 1].height == h;
      var next := levels[h := []];
      assert next[h + 1..] == levels[h + 1..] && next[..h + 1] == levels[..h] + [[]];
      var rest := Carry(root, levels[h + 1..], BranchNode(root, group));
      assert rest.Ok? ==> levels[..h] + ([[]] + rest.value) == next[..h + 1] + rest.value;
    }
  }

  lemma PushedGrows(root: string, levels: seq<seq<Summary>>, node: Summary)
    requires node.height == |levels|
    ensures Pushed(root, levels + [[]], node) == Pushed(root, levels, node)
  {
    var wider := levels + [[]];
    assert levels[|levels|..] == [] && wider[|levels|..] == [[]] && wider[..|levels|] == levels[..|levels|];
    var none: seq<Summary> := [];
    assert none + [node] == [node] && [none + [node]] + [none][1..] == [[node]];
  }

  method Push(root: string, levels: seq<seq<Summary>>, node: Summary)
    returns (r: Result<seq<seq<Summary>>, CoverageError>)
    ensures r.Ok? <==> Pushed(root, Padded(levels, node.height), node).Ok?
    ensures r.Ok? ==> r == Pushed(root, Padded(levels, node.height), node)
  {
    var buckets, current := Padded(levels, node.height), node;
    while true
      invariant current.height <= |buckets|
      invariant Pushed(root, buckets, current) == Pushed(root, Padded(levels, node.height), node)
      decreases MAX_DEPTH - current.height
    {
      var height := current.height;
      if height >= MAX_DEPTH {
        return Err(DepthExceeded);
      }
      if |buckets| <= height {
        PushedGrows(root, buckets, current);
        buckets := buckets + [[]];
      }
      var bucket := buckets[height] + [current];
      if |bucket| < 8 {
        PushedStays(root, buckets, current);
        return Ok(buckets[height := bucket]);
      }
      PushedCarries(root, buckets, current);
      buckets := buckets[height := []];
      var parent := Branch(root, bucket);
      if parent.Err? {
        return Err(parent.error);
      }
      assert bucket[0].height == bucket[|bucket| - 1].height;
      current := parent.value;
    }
  }

  // ----- The final fold -----

  /** Every later bucket is empty. */
  predicate AllEmptyFrom(levels: seq<seq<Summary>>, from: nat) {
    forall i :: from <= i < |levels| ==> levels[i] == []
  }

  /** At `height` the buckets from there up hold `nodes`, all the nodes of that height. */
  ghost predicate FoldState(root: string, levels: seq<seq<Summary>>, height: nat, nodes: seq<Summary>) {
    height <= |levels| && nodes != [] && Represents(root, levels[height..], nodes) && Ordered(nodes, height)
  }

  lemma BucketAlone(root: string, levels: seq<seq<Summary>>, height: nat, nodes: seq<Summary>)
    requires height < |levels| && levels[height] == Remainder(nodes) && nodes != []
    requires Represents(root, levels[height + 1..], FullParents(root, nodes))
    ensures |nodes| == 1 <==> |levels[height]| == 1 && AllEmptyFrom(levels, height + 1)
  {
    var upper := levels[height + 1..];
    if |nodes| == 1 {
      EmptyRepresents(root, upper);
      assert forall i :: height < i < |levels| ==> levels[i] == upper[i - height - 1];
    } else if AllEmptyFrom(levels, height + 1) {
      EmptyBuckets(root, upper, FullParents(root, nodes));
    }
  }

  lemma FoldBucket(root: string, levels: seq<seq<Summary>>, height: nat, nodes: seq<Summary>)
    requires FoldState(root, levels, height, nodes)
    ensures height < |levels| && levels[height] == Remainder(nodes)
    ensures Represents(root, levels[height + 1..], FullParents(root, nodes))
    ensures |nodes| == 1 <==> |levels[height]| == 1 && AllEmptyFrom(levels, height + 1)
    ensures Remainder(nodes) != [] ==> BranchNode(root, Remainder(nodes)).height == height + 1
  {
    assert levels[height..][1..] == levels[height + 1..];
    BucketAlone(root, levels, height, nodes);
    RemainderSuffix(nodes);
  }

  lemma FoldSkips(root: string, levels: seq<seq<Summary>>, height: nat, nodes: seq<Summary>)
    requires FoldState(root, levels, height, nodes) && Remainder(nodes) == []
    ensures FoldState(root, levels, height + 1, ParentNodes(root, nodes))
    ensures Collapse(root, nodes, height) == Collapse(root, ParentNodes(root, nodes), height + 1)
  {
    FoldBucket(root, levels, height, nodes);
    ParentsSplit(root, nodes);
    assert ParentNodes(root, nodes) == FullParents(root, nodes);
    ParentsOrdered(root, nodes, height);
  }

  lemma BucketOk(nodes: seq<Summary>, height: nat)
    requires Ordered(nodes, height) && Remainder(nodes) != [] && height < MAX_DEPTH - 1
    ensures BranchOk(Remainder(nodes))
  {
    var bucket := Remainder(nodes);
    RemainderSuffix(nodes);
    OrderedSlice(nodes, height, |nodes| - |bucket|, |nodes|);
    assert nodes[|nodes| - |bucket|..|nodes|] == bucket;
    OrderedBranchOk(bucket, height);
  }

  lemma FoldCarries(root: string, levels: seq<seq<Summary>>, height: nat, nodes: seq<Summary>, k: int)
    requires FoldState(root, levels, height, nodes) && Remainder(nodes) != []
    requires BranchNode(root, Remainder(nodes)).height == height + 1 <= |levels|
    requires Fits(nodes, height, k) && Fits(ParentNodes(root, nodes), height + 1, k - 1)
    ensures BranchOk(Remainder(nodes))
    ensures Pushed(root, levels[height := []], BranchNode(root, Remainder(nodes))).Ok?
  {
    var bucket, upper := Remainder(nodes), levels[height + 1..];
    assert Represents(root, upper, FullParents(root, nodes)) by { FoldBucket(root, levels, height, nodes); }
    ParentsSplit(root, nodes);
    assert Ordered(FullParents(root, nodes) + [BranchNode(root, bucket)], height + 1) by {
      ParentsOrdered(root, nodes, height);
    }
    CarrySucceeds(root, upper, FullParents(root, nodes), BranchNode(root, bucket), height + 1, k - 1);
    assert levels[height := []][height + 1..] == upper;
    BucketOk(nodes, height);
  }

  lemma FoldAdvances(root: string, levels: seq<seq<Summary>>, height: nat, nodes: seq<Summary>)
    requires FoldState(root, levels, height, nodes) && Remainder(nodes) != []
    requires height > 0 ==> |nodes| != 1
    requires BranchNode(root, Remainder(nodes)).height == height + 1 <= |levels|
    requires Pushed(root, levels[height := []], BranchNode(root, Remainder(nodes))).Ok?
    ensures FoldState(root, Pushed(root, levels[height := []], BranchNode(root, Remainder(nodes))).value,
                      height + 1, ParentNodes(root, nodes))
    ensures Collapse(root, nodes, height) == Collapse(root, ParentNodes(root, nodes), height + 1)
  {
    var parent, upper := BranchNode(root, Remainder(nodes)), levels[height + 1..];
    FoldBucket(root, levels, height, nodes);
    ParentsSplit(root, nodes);
    ParentsOrdered(root, nodes, height);
    assert levels[height := []][height + 1..] == upper;
    CarryRepresents(root, upper, FullParents(root, nodes), parent);
    var pushed := Pushed(root, levels[height := []], parent).value;
    assert pushed[height + 1..] == Carry(root, upper, parent).value;
  }

  /** `k` more levels reduce these nodes to one, within the depth limit. */
  ghost predicate Fits(nodes: seq<Summary>, height: nat, k: int) {
    0 <= k < MAX_DEPTH - height && 0 < |nodes| <= Pow8(k)
  }

  /** A level that is not yet a single node has room for its parents. */
  lemma ParentsFit(root: string, nodes: seq<Summary>, height: nat, k: int)
    requires Fits(nodes, height, k) && (height == 0 ==> 1 <= k)
    requires height > 0 ==> |nodes| != 1
    ensures Fits(ParentNodes(root, nodes), height + 1, k - 1)
  {
    ParentCount(root, nodes);
  }

  datatype Round = Done(summary: Summary) | Next(levels: seq<seq<Summary>>)

  /** Within `k` more levels, and at least one above the leaves, the fold ends. */
  ghost predicate HasRoom(nodes: seq<Summary>, height: nat, k: int) {
    Fits(nodes, height, k) && (height == 0 ==> 1 <= k)
  }

  /** The fold at `height` still leads to `goal`, and still has room if it ever had. */
  ghost predicate Folding(root: string, levels: seq<seq<Summary>>, height: nat, nodes: seq<Summary>,
                          goal: Summary, fits: bool, k: int)
  {
    && FoldState(root, levels, height, nodes)
    && Collapse(root, nodes, height) == goal
    && (fits ==> HasRoom(nodes, height, k))
  }

  /** One height of the fold. */
  method FoldRound(root: string, levels: seq<seq<Summary>>, height: nat,
                   ghost nodes: seq<Summary>, ghost goal: Summary, ghost fits: bool, ghost k: int)
    returns (r: Result<Round, CoverageError>)
    requires Folding(root, levels, height, nodes, goal, fits, k)
    ensures r.Ok? && r.value.Done? ==> r.value.summary == goal
    ensures r.Ok? && r.value.Next? ==>
      Folding(root, r.value.levels, height + 1, ParentNodes(root, nodes), goal, fits, k - 1)
    ensures fits ==> r.Ok? && (r.value.Next? ==> height + 1 < MAX_DEPTH)
  {
    FoldBucket(root, levels, height, nodes);
    if fits && (height > 0 ==> |nodes| != 1) {
      ParentsFit(root, nodes, height, k);
    }
    if levels[height] == [] {
      FoldSkips(root, levels, height, nodes);
      return Ok(Next(levels));
    }
    var bucket := levels[height];
    if height > 0 && |bucket| == 1 && AllEmptyFrom(levels, height + 1) {
      return Ok(Done(bucket[0]));
    }
    if fits {
      FoldCarries(root, levels, height, nodes, k);
    }
    var parent := Branch(root, bucket);
    if parent.Err? {
      return Err(parent.error);
    }
    var pushed := Push(root, levels[height := []], parent.value);
    if pushed.Err? {
      return Err(pushed.error);
    }
    FoldAdvances(root, levels, height, nodes);
    r := Ok(Next(pushed.value));
  }

  /** Folds the buckets of the leaves into the root of the simple build, without error if they have room. */
  method Fold(root: string, initial: seq<seq<Summary>>, ghost leaves: seq<Summary>, ghost goal: Summary,
              ghost room: nat)
    returns (r: Result<Summary, CoverageError>)
    requires Folding(root, initial, 0, leaves, goal, HasRoom(leaves, 0, room), room)
    ensures r.Ok? ==> r.value == goal
    ensures HasRoom(leaves, 0, room) ==> r.Ok?
  {
    var levels, height := initial, 0;
    ghost var nodes, space: int, fits := leaves, room, HasRoom(leaves, 0, room);
    while height < MAX_DEPTH
      invariant 0 <= height <= MAX_DEPTH && (fits ==> height < MAX_DEPTH)
      invariant Folding(root, levels, height, nodes, goal, fits, space)
    {
      var round := FoldRound(root, levels, height, nodes, goal, fits, space);
      if round.Err? {
        return Err(round.error);
      }
      if round.value.Done? {
        return Ok(round.value.summary);
      }
      levels := round.value.levels;
      height, nodes, space := height + 1, ParentNodes(root, nodes), space - 1;
    }
    return Err(DepthExceeded);
  }

  // ----- The streaming builder -----

  ghost predicate AllValid(ids: seq<string>) {
    forall i :: 0 <= i < |ids| ==> ValidDigest(ids[i])
  }

  /** The inputs the builder is promised to accept. */
  ghost predicate Acceptable(root: string, epoch: nat, ids: seq<string>) {
    && ValidDigest(root) && Positive(epoch)
    && 0 < |ids| <= MAX_OBJECTS
    && AllValid(ids) && Increasing(ids)
  }

  lemma LeafCapacity(n: nat)
    requires n <= MAX_OBJECTS
    ensures n <= 64 * Pow8(5)
  {
    assert Pow8(5) == 32768;
  }

  /** Carrying the leaf of the next batch extends the represented leaves by that batch. */
  lemma LeafCarried(root: string, epoch: nat, done: seq<string>, full: nat, batch: seq<string>,
                    levels: seq<seq<Summary>>)
    requires Increasing(done + batch) && |done + batch| <= MAX_OBJECTS
    requires |done| == 64 * full && 0 < |batch| <= 64
    requires Represents(root, levels, LeafNodes(root, epoch, done))
    ensures Carry(root, levels, LeafNode(root, epoch, batch)).Ok?
    ensures Represents(root, Carry(root, levels, LeafNode(root, epoch, batch)).value,
                       LeafNodes(root, epoch, done + batch))
  {
    var leaf, leaves := LeafNode(root, epoch, batch), LeafNodes(root, epoch, done);
    LeavesConcat(root, epoch, done, full, batch);
    assert LeafNodes(root, epoch, done + batch) == leaves + [leaf];
    LeavesOrdered(root, epoch, done + batch);
    LeavesCount(root, epoch, done + batch);
    LeafCapacity(|done + batch|);
    CarrySucceeds(root, levels, leaves, leaf, 0, 5);
    CarryRepresents(root, levels, leaves, leaf);
  }

  method PushBatch(root: string, epoch: nat, levels: seq<seq<Summary>>, batch: seq<string>, ghost done: seq<string>,
                   ghost full: nat)
    returns (r: Result<seq<seq<Summary>>, CoverageError>)
    requires Increasing(done + batch) && |done + batch| <= MAX_OBJECTS
    requires |done| == 64 * full && 0 < |batch| <= 64
    requires Represents(root, levels, LeafNodes(root, epoch, done))
    ensures r.Ok? && Represents(root, r.value, LeafNodes(root, epoch, done + batch))
  {
    LeafCarried(root, epoch, done, full, batch, levels);
    r := Push(root, levels, LeafNode(root, epoch, batch));
    assert Padded(levels, 0) == levels && levels[0..] == levels;
    assert r.value == Carry(root, levels, LeafNode(root, epoch, batch)).value;
  }

  lemma PrefixSnoc(ids: seq<string>, i: nat)
    requires i < |ids| && Increasing(ids[..i]) && AllValid(ids[..i])
    ensures Increasing(ids[..i + 1]) <==> i > 0 ==> StrLess(ids[i - 1], ids[i])
    ensures AllValid(ids[..i + 1]) <==> ValidDigest(ids[i])
    ensures !Increasing(ids[..i + 1]) ==> !Increasing(ids)
    ensures !AllValid(ids[..i + 1]) ==> !AllValid(ids)
  {
    ConsecutiveSnoc(StrLess, ids, i);
  }

  /** `count` ids are accepted; `full` batches of them are in the buckets and the rest in `batch`. */
  ghost predicate Streaming(root: string, epoch: nat, ids: seq<string>, count: nat, full: nat,
                            levels: seq<seq<Summary>>, batch: seq<string>)
  {
    && count <= |ids| && count <= MAX_OBJECTS
    && 64 * full <= count < 64 * (full + 1)
    && batch == ids[64 * full..count]
    && Increasing(ids[..count]) && AllValid(ids[..count])
    && Represents(root, levels, LeafNodes(root, epoch, ids[..64 * full]))
  }

  /** Whether the next id may follow those before it. */
  method Screen(ids: seq<string>, count: nat, previous: Option<string>) returns (refused: Option<CoverageError>)
    requires count < |ids| && count <= MAX_OBJECTS && Increasing(ids[..count]) && AllValid(ids[..count])
    requires previous == if count == 0 then None else Some(ids[count - 1])
    ensures refused.None? ==> count < MAX_OBJECTS && Increasing(ids[..count + 1]) && AllValid(ids[..count + 1])
    ensures refused.Some? ==> !(|ids| <= MAX_OBJECTS && AllValid(ids) && Increasing(ids))
  {
    PrefixSnoc(ids, count);
    var idOk := CheckDigest(ids[count]);
    if !idOk {
      return Some(InvalidObjectHash);
    }
    if (previous.Some? && !StrLess(previous.value, ids[count])) || count == MAX_OBJECTS {
      return Some(InvalidOrderOrCount);
    }
    refused := None;
  }

  /** One turn of the stream. */
  method Absorb(root: string, epoch: nat, ids: seq<string>, count: nat, previous: Option<string>,
                levels: seq<seq<Summary>>, batch: seq<string>, ghost full: nat)
    returns (r: Result<(seq<seq<Summary>>, seq<string>), CoverageError>, ghost full': nat)
    requires Streaming(root, epoch, ids, count, full, levels, batch) && count < |ids|
    requires previous == if count == 0 then None else Some(ids[count - 1])
    ensures r.Ok? ==> Streaming(root, epoch, ids, count + 1, full', r.value.0, r.value.1)
    ensures r.Err? ==> !(|ids| <= MAX_OBJECTS && AllValid(ids) && Increasing(ids))
  {
    full' := full;
    var refused := Screen(ids, count, previous);
    if refused.Some? {
      return Err(refused.value), full;
    }
    var batch' := batch + [ids[count]];
    ghost var start := 64 * full;
    assert batch' == ids[start..count + 1];
    if |batch'| < 64 {
      return Ok((levels, batch')), full;
    }
    assert ids[..start] + batch' == ids[..count + 1];
    var pushed := PushBatch(root, epoch, levels, batch', ids[..start], full);
    assert count + 1 == 64 * (full + 1);
    return Ok((pushed.value, [])), full + 1;
  }

  /** The ids in batches of 64 through the carry: the buckets of their leaves. */
  method Stream(root: string, epoch: nat, ids: seq<string>) returns (r: Result<seq<seq<Summary>>, CoverageError>)
    ensures r.Ok? <==> |ids| <= MAX_OBJECTS && AllValid(ids) && Increasing(ids)
    ensures r.Ok? ==> Represents(root, r.value, LeafNodes(root, epoch, ids))
  {
    var levels: seq<seq<Summary>>, batch: seq<string> := [], [];
    var previous: Option<string> := None;
    var count := 0;
    ghost var full := 0;
    while count < |ids|
      invariant Streaming(root, epoch, ids, count, full, levels, batch)
      invariant previous == if count == 0 then None else Some(ids[count - 1])
    {
      var next;
      next, full := Absorb(root, epoch, ids, count, previous, levels, batch, full);
      if next.Err? {
        return Err(next.error);
      }
      levels, batch := next.value.0, next.value.1;
      previous := Some(ids[count]);
      count := count + 1;
    }
    ghost var done := ids[..64 * full];
    assert ids[..count] == ids && done + batch == ids;
    if batch != [] {
      r := PushBatch(root, epoch, levels, batch, done, full);
    } else {
      r := Ok(levels);
    }
  }

  /** The builder succeeds on exactly the acceptable inputs, and returns the simple tree. */
  method Derive(root: string, epoch: nat, ids: seq<string>) returns (r: Result<Summary, CoverageError>)
    ensures r.Ok? <==> Acceptable(root, epoch, ids)
    ensures r.Ok? ==> r.value == SimpleTree(root, epoch, ids)
  {
    var rootOk := CheckDigest(root);
    if !rootOk {
      return Err(InvalidObjectHash);
    }
    if epoch == 0 || epoch > MAX_INTEGER {
      return Err(InvalidInteger);
    }
    var levels := Stream(root, epoch, ids);
    if levels.Err? {
      return Err(levels.error);
    }
    if |ids| == 0 {
      return Err(EmptySet);
    }
    LeavesOrdered(root, epoch, ids);
    LeavesCount(root, epoch, ids);
    LeafCapacity(|ids|);
    assert levels.value[0..] == levels.value;
    r := Fold(root, levels.value, LeafNodes(root, epoch, ids), SimpleTree(root, epoch, ids), 5);
  }

  // ----- What the tree says -----

  lemma {:induction false} CollapseExtent(root: string, nodes: seq<Summary>, height: nat)
    requires nodes != []
    ensures SameExtent([Collapse(root, nodes, height)], nodes)
    decreases |nodes|, if height == 0 then 1 else 0
  {
    if |nodes| == 1 && height >= 1 {
      assert [nodes[0]] == nodes;
    } else {
      ParentsExtent(root, nodes);
      CollapseExtent(root, ParentNodes(root, nodes), height + 1);
    }
  }

  /** The summary counts the ids, names the extremes and tells whether the root is among them. */
  lemma SummaryExact(root: string, epoch: nat, ids: seq<string>)
    requires Acceptable(root, epoch, ids)
    ensures var s := SimpleTree(root, epoch, ids);
            && s.objectCount == |ids|
            && s.firstId == ids[0] && s.lastId == ids[|ids| - 1]
            && (s.rootCovered <==> root in ids)
  {
    LeavesHold(root, epoch, ids);
    var leaves := LeafNodes(root, epoch, ids);
    CollapseExtent(root, leaves, 0);
    var one := [SimpleTree(root, epoch, ids)];
    assert one[..0] == [] && Total(one) == one[0].objectCount;
    assert AnyCovered(one) <==> one[0].rootCovered;
  }

  ghost predicate Flat(nodes: seq<Summary>, height: nat) {
    forall i :: 0 <= i < |nodes| ==> nodes[i].height == height
  }

  lemma {:induction false} LeavesFlat(root: string, epoch: nat, ids: seq<string>)
    ensures Flat(LeafNodes(root, epoch, ids), 0)
    decreases |ids|
  {
    if |ids| > 64 {
      LeavesFlat(root, epoch, ids[64..]);
    }
  }

  lemma {:induction false} CollapseHeight(root: string, nodes: seq<Summary>, height: nat) returns (k: nat)
    requires nodes != [] && Flat(nodes, height)
    ensures Collapse(root, nodes, height).height == height + k
    ensures |nodes| <= Pow8(k) && (height == 0 ==> k >= 1)
    ensures k > (if height == 0 then 1 else 0) ==> Pow8(k - 1) < |nodes|
    decreases |nodes|, if height == 0 then 1 else 0
  {
    if |nodes| == 1 && height >= 1 {
      k := 0;
    } else {
      ParentsHeight(root, nodes, height);
      ParentCount(root, nodes);
      var rest := CollapseHeight(root, ParentNodes(root, nodes), height + 1);
      k := rest + 1;
    }
  }

  lemma {:induction false} ParentsHeight(root: string, nodes: seq<Summary>, height: nat)
    requires Flat(nodes, height)
    ensures Flat(ParentNodes(root, nodes), height + 1)
    decreases |nodes|
  {
    if |nodes| > 8 {
      ParentsHeight(root, nodes[8..], height);
    }
  }

  /** From leaves to ids: `m` leaves for `n` ids, in a tree that is just high enough for the leaves. */
  lemma HeightRange(n: nat, m: nat, h: nat)
    requires n <= 64 * m < n + 64 && n <= 64 * Pow8(5)
    requires 1 <= h && m <= Pow8(h) && (h > 1 ==> Pow8(h - 1) < m)
    ensures h <= 5 && n <= 64 * Pow8(h) && forall k: nat :: 1 <= k < h ==> 64 * Pow8(k) < n
  {
    forall k: nat | 1 <= k < h ensures 64 * Pow8(k) < n {
      Pow8Monotone(k, h - 1);
    }
  }

  /** The height is the least `h >= 1` whose full tree of `64 * 8^h` ids has room; it is at most 5. */
  lemma SummaryHeight(root: string, epoch: nat, ids: seq<string>)
    requires Acceptable(root, epoch, ids)
    ensures var h := SimpleTree(root, epoch, ids).height;
            && 1 <= h <= 5
            && |ids| <= 64 * Pow8(h)
            && forall k: nat :: 1 <= k < h ==> 64 * Pow8(k) < |ids|
  {
    LeavesFlat(root, epoch, ids);
    LeavesCount(root, epoch, ids);
    var leaves := LeafNodes(root, epoch, ids);
    var h := CollapseHeight(root, leaves, 0);
    LeafCapacity(|ids|);
    HeightRange(|ids|, |leaves|, h);
  }

  lemma {:induction false} Pow8Monotone(a: nat, b: nat)
    requires a <= b
    ensures Pow8(a) <= Pow8(b)
  {
    if a < b {
      Pow8Monotone(a, b - 1);
    }
  }

  // ----- The summary determines the set -----

  function Entries(s: Summary): seq<(string, nat)>
    decreases s, 0
  {
    match s.setDigest
    case LeafDigest(objects) => objects
    case BranchDigest(_, children) => AllEntries(children)
  }

  function AllEntries(nodes: seq<Summary>): seq<(string, nat)>
    decreases nodes, 1
  {
    if nodes == [] then [] else Entries(nodes[0]) + AllEntries(nodes[1..])
  }

  lemma {:induction false} EntriesConcat(a: seq<Summary>, b: seq<Summary>)
    ensures AllEntries(a + b) == AllEntries(a) + AllEntries(b)
    decreases |a|
  {
    if a == [] {
      assert a + b == b;
    } else {
      EntriesConcat(a[1..], b);
      assert (a + b)[1..] == a[1..] + b;
    }
  }

  lemma {:induction false} ParentEntries(root: string, nodes: seq<Summary>)
    ensures AllEntries(ParentNodes(root, nodes)) == AllEntries(nodes)
    decreases |nodes|
  {
    if nodes == [] {
    } else if |nodes| <= 8 {
      assert AllEntries([BranchNode(root, nodes)]) == AllEntries(nodes) + [];
    } else {
      ParentEntries(root, nodes[8..]);
      EntriesConcat(nodes[..8], nodes[8..]);
      assert nodes == nodes[..8] + nodes[8..];
      var parents := ParentNodes(root, nodes);
      assert parents[1..] == ParentNodes(root, nodes[8..]);
    }
  }

  lemma {:induction false} CollapseEntries(root: string, nodes: seq<Summary>, height: nat)
    requires nodes != []
    ensures Entries(Collapse(root, nodes, height)) == AllEntries(nodes)
    decreases |nodes|, if height == 0 then 1 else 0
  {
    if |nodes| == 1 && height >= 1 {
      assert AllEntries(nodes) == Entries(nodes[0]) + [];
    } else {
      ParentEntries(root, nodes);
      CollapseEntries(root, ParentNodes(root, nodes), height + 1);
    }
  }

  lemma {:induction false} LeafEntries(root: string, epoch: nat, ids: seq<string>)
    ensures AllEntries(LeafNodes(root, epoch, ids)) == Tag(ids, epoch)
    decreases |ids|
  {
    var leaves := LeafNodes(root, epoch, ids);
    if ids == [] {
    } else if |ids| <= 64 {
      assert AllEntries(leaves) == Tag(ids, epoch) + [];
    } else {
      LeafEntries(root, epoch, ids[64..]);
      assert leaves[1..] == LeafNodes(root, epoch, ids[64..]);
      assert Tag(ids, epoch) == Tag(ids[..64], epoch) + Tag(ids[64..], epoch);
    }
  }

  lemma {:induction false} CollapseRoot(root: string, nodes: seq<Summary>, height: nat)
    requires nodes != []
    requires height >= 1 ==>
      forall i :: 0 <= i < |nodes| ==> nodes[i].setDigest.BranchDigest? && nodes[i].setDigest.archiveRootId == root
    ensures var d := Collapse(root, nodes, height).setDigest; d.BranchDigest? && d.archiveRootId == root
    decreases |nodes|, if height == 0 then 1 else 0
  {
    if !(|nodes| == 1 && height >= 1) {
      ParentRoot(root, nodes);
      CollapseRoot(root, ParentNodes(root, nodes), height + 1);
    }
  }

  lemma {:induction false} ParentRoot(root: string, nodes: seq<Summary>)
    ensures forall i :: 0 <= i < |ParentNodes(root, nodes)| ==>
      var d := ParentNodes(root, nodes)[i].setDigest; d.BranchDigest? && d.archiveRootId == root
    decreases |nodes|
  {
    if |nodes| > 8 {
      ParentRoot(root, nodes[8..]);
    }
  }

  /** Equal summaries come from the same archive root, key epoch and object list. */
  lemma SummaryInjective(root: string, epoch: nat, ids: seq<string>, root': string, epoch': nat, ids': seq<string>)
    requires ids != [] && ids' != []
    requires SimpleTree(root, epoch, ids) == SimpleTree(root', epoch', ids')
    ensures root == root' && epoch == epoch' && ids == ids'
  {
    CollapseRoot(root, LeafNodes(root, epoch, ids), 0);
    CollapseRoot(root', LeafNodes(root', epoch', ids'), 0);
    CollapseEntries(root, LeafNodes(root, epoch, ids), 0);
    CollapseEntries(root', LeafNodes(root', epoch', ids'), 0);
    LeafEntries(root, epoch, ids);
    LeafEntries(root', epoch', ids');
    var entries := Tag(ids, epoch);
    assert entries == Tag(ids', epoch');
    assert |ids| == |entries| == |ids'|;
    assert entries[0] == (ids[0], epoch) == (ids'[0], epoch');
    forall i | 0 <= i < |ids| ensures ids[i] == ids'[i] {
      assert entries[i] == (ids[i], epoch) == (ids'[i], epoch');
    }
  }

  // ----- Receipts -----

  datatype Authority = Authority(servicePublicKey: string, scopeId: string, policyRevision: nat)

  /** The digest of a coverage request, as the request it hashes. */
  datatype Request = Request(authority: Authority, archiveRootId: string, transitionId: string, summary: Summary)

  datatype Receipt = Receipt(
    kind: string, version: nat, serviceId: string, scopeId: string, policyRevision: nat, requestId: Request,
    archiveRootId: string, summary: Summary, signerKeyId: string, signature: string)

  /** Key identifiers and signature validity are left to the service's cryptography. */
  datatype Crypto = Crypto(keyId: string -> string, signed: (Receipt, string) -> bool)

  ghost predicate Opaque(s: string, minimum: nat, maximum: nat) {
    && minimum <= |s| <= maximum
    && forall i :: 0 <= i < |s| ==> Base64Url.IsDigit(s[i])
  }

  method CheckOpaque(s: string, minimum: nat, maximum: nat) returns (ok: bool)
    ensures ok <==> Opaque(s, minimum, maximum)
  {
    if |s| < minimum || |s| > maximum {
      return false;
    }
    for i := 0 to |s|
      invariant forall j :: 0 <= j < i ==> Base64Url.IsDigit(s[j])
    {
      var c := s[i];
      if !('A' <= c <= 'Z' || 'a' <= c <= 'z' || '0' <= c <= '9') && c != '-' && c != '_' {
        return false;
      }
    }
    ok := true;
  }

  ghost predicate ValidAuthority(a: Authority) {
    ValidDigest(a.servicePublicKey) && Opaque(a.scopeId, 1, 128) && Positive(a.policyRevision)
  }

  /** The service signed, for this authority and preparation, exactly the expected summary, and it covers the root. */
  ghost predicate ValidReceipt(crypto: Crypto, receipt: Receipt, authority: Authority, root: string,
                               transitionId: string, expected: Summary)
  {
    && ValidAuthority(authority)
    && Opaque(transitionId, 20, 64)
    && ValidDigest(root)
    && receipt.kind == "blind-archive-coverage-aggregate-receipt"
    && receipt.version == 1
    && receipt.serviceId == crypto.keyId(authority.servicePublicKey)
    && receipt.signerKeyId == crypto.keyId(authority.servicePublicKey)
    && receipt.scopeId == authority.scopeId
    && receipt.policyRevision == authority.policyRevision
    && receipt.archiveRootId == root
    && receipt.requestId == Request(authority, root, transitionId, expected)
    && receipt.summary == expected
    && receipt.summary.rootCovered
    && 0 < receipt.summary.height < MAX_DEPTH
    && crypto.signed(receipt, authority.servicePublicKey)
  }

  method VerifyReceipt(crypto: Crypto, receipt: Receipt, authority: Authority, root: string, transitionId: string,
                       expected: Summary)
    returns (ok: bool)
    ensures ok <==> ValidReceipt(crypto, receipt, authority, root, transitionId, expected)
  {
    var keyOk := CheckDigest(authority.servicePublicKey);
    var scopeOk := CheckOpaque(authority.scopeId, 1, 128);
    if !keyOk || !scopeOk || authority.policyRevision == 0 || authority.policyRevision > MAX_INTEGER {
      return false;
    }
    var transitionOk := CheckOpaque(transitionId, 20, 64);
    var rootOk := CheckDigest(root);
    if !transitionOk || !rootOk {
      return false;
    }
    var service := crypto.keyId(authority.servicePublicKey);
    if receipt.kind != "blind-archive-coverage-aggregate-receipt" || receipt.version != 1
      || receipt.serviceId != service || receipt.signerKeyId != service || receipt.scopeId != authority.scopeId
      || receipt.policyRevision != authority.policyRevision || receipt.archiveRootId != root
      || receipt.requestId != Request(authority, root, transitionId, expected)
      || receipt.summary != expected || !receipt.summary.rootCovered
      || receipt.summary.height == 0 || receipt.summary.height >= MAX_DEPTH {
      return false;
    }
    ok := crypto.signed(receipt, authority.servicePublicKey);
  }

  /**
   A receipt issued over the set `ids'` verifies against the expectation for `ids` only when the
   two sets, epochs and roots agree, and then the root is covered. In particular a receipt over a
   proper subset never verifies.
   */
  lemma ReceiptCoversExactly(crypto: Crypto, receipt: Receipt, authority: Authority, transitionId: string,
                             root: string, epoch: nat, ids: seq<string>,
                             root': string, epoch': nat, ids': seq<string>)
    requires Acceptable(root, epoch, ids) && Acceptable(root', epoch', ids')
    requires receipt.summary == SimpleTree(root', epoch', ids')
    requires ValidReceipt(crypto, receipt, authority, root, transitionId, SimpleTree(root, epoch, ids))
    ensures root' == root && epoch' == epoch && ids' == ids && root in ids
  {
    SummaryInjective(root, epoch, ids, root', epoch', ids');
    SummaryExact(root, epoch, ids);
  }
}
