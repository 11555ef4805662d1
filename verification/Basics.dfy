/** Failure values, orders and finite-set facts shared by the other modules. */
module Wrappers {
  datatype Option<+T> = None | Some(value: T)

  datatype Result<+T, +E> = Ok(value: T) | Err(error: E)
}

module Roles {
  /** What a person may write as. */
  datatype Role = Owner | Editor | Visitor | Automation
}

module Ordering {
  /** A strict total order. */
  ghost predicate StrictOrder<T(!new)>(less: (T, T) -> bool) {
    && (forall a: T :: !less(a, a))
    && (forall a: T, b: T :: less(a, b) || a == b || less(b, a))
    && (forall a: T, b: T, c: T :: less(a, b) && less(b, c) ==> less(a, c))
  }

  ghost predicate PartialOrder<T(!new)>(less: (T, T) -> bool) {
    && (forall a: T :: !less(a, a))
    && (forall a: T, b: T, c: T :: less(a, b) && less(b, c) ==> less(a, c))
  }

  ghost predicate Sorted<T(!new)>(less: (T, T) -> bool, q: seq<T>) {
    forall i, j :: 0 <= i < j < |q| ==> less(q[i], q[j])
  }

  /** Every element is linked to the next one. */
  ghost predicate Consecutive<T>(link: (T, T) -> bool, s: seq<T>) {
    forall i, j :: 0 <= i < j < |s| && j == i + 1 ==> link(s[i], s[j])
  }

  lemma ConsecutiveConcat<T>(link: (T, T) -> bool, a: seq<T>, b: seq<T>)
    requires Consecutive(link, a) && Consecutive(link, b)
    requires a != [] && b != [] ==> link(a[|a| - 1], b[0])
    ensures Consecutive(link, a + b)
  {
    var c := a + b;
    forall i, j | 0 <= i < j < |c| && j == i + 1 ensures link(c[i], c[j]) {
      if j < |a| {
        assert c[i] == a[i] && c[j] == a[j];
      } else if i >= |a| {
        assert c[i] == b[i - |a|] && c[j] == b[j - |a|];
      }
    }
  }

  lemma ConsecutiveSlice<T>(link: (T, T) -> bool, s: seq<T>, lo: nat, hi: nat)
    requires Consecutive(link, s) && lo <= hi <= |s|
    ensures Consecutive(link, s[lo..hi])
  {
    var part := s[lo..hi];
    forall i, j | 0 <= i < j < |part| && j == i + 1 ensures link(part[i], part[j]) {
      assert part[i] == s[lo + i] && part[j] == s[lo + j];
    }
  }

  lemma ConsecutiveSnoc<T>(link: (T, T) -> bool, s: seq<T>, i: nat)
    requires i < |s| && Consecutive(link, s[..i])
    ensures Consecutive(link, s[..i + 1]) <==> i > 0 ==> link(s[i - 1], s[i])
    ensures !Consecutive(link, s[..i + 1]) ==> !Consecutive(link, s)
  {
    var next := s[..i + 1];
    assert forall k :: 0 <= k < i ==> next[k] == s[..i][k] == s[k];
    assert i > 0 ==> next[i - 1] == s[i - 1] && next[i] == s[i];
  }

  predicate LexLess(a: seq<int>, b: seq<int>) {
    if b == [] then false
    else if a == [] then true
    else a[0] < b[0] || (a[0] == b[0] && LexLess(a[1..], b[1..]))
  }

  /** Unicode scalar values of a text. */
  function Scalars(s: string): seq<int> {
    seq(|s|, i requires 0 <= i < |s| => s[i] as int)
  }

  /** The order of Rust's `str`, which is the order of scalar values. */
  predicate StrLess(a: string, b: string) {
    LexLess(Scalars(a), Scalars(b))
  }

  lemma LexIrreflexive(a: seq<int>)
    ensures !LexLess(a, a)
  {
  }

  lemma {:induction false} LexTotal(a: seq<int>, b: seq<int>)
    ensures LexLess(a, b) || a == b || LexLess(b, a)
  {
    if a != [] && b != [] && a[0] == b[0] {
      LexTotal(a[1..], b[1..]);
      assert a == [a[0]] + a[1..] && b == [b[0]] + b[1..];
    }
  }

  lemma {:induction false} LexTransitive(a: seq<int>, b: seq<int>, c: seq<int>)
    requires LexLess(a, b) && LexLess(b, c)
    ensures LexLess(a, c)
  {
    if a != [] && a[0] == b[0] && b[0] == c[0] {
      LexTransitive(a[1..], b[1..], c[1..]);
    }
  }

  lemma ScalarsInjective(a: string, b: string)
    requires Scalars(a) == Scalars(b)
    ensures a == b
  {
    assert |a| == |Scalars(a)| == |Scalars(b)| == |b|;
    forall i | 0 <= i < |a| ensures a[i] == b[i] {
      assert Scalars(a)[i] == Scalars(b)[i];
    }
  }

  lemma StrOrder()
    ensures StrictOrder(StrLess)
  {
    forall a: string ensures !StrLess(a, a) { LexIrreflexive(Scalars(a)); }
    forall a: string, b: string ensures StrLess(a, b) || a == b || StrLess(b, a) {
      LexTotal(Scalars(a), Scalars(b));
      if Scalars(a) == Scalars(b) { ScalarsInjective(a, b); }
    }
    forall a: string, b: string, c: string | StrLess(a, b) && StrLess(b, c) ensures StrLess(a, c) {
      LexTransitive(Scalars(a), Scalars(b), Scalars(c));
    }
  }

  lemma SortedDistinct<T(!new)>(less: (T, T) -> bool, q: seq<T>)
    requires StrictOrder(less) && Sorted(less, q)
    ensures forall i, j :: 0 <= i < j < |q| ==> q[i] != q[j]
  {
  }

  /** A sorted sequence is determined by its elements. */
  lemma {:induction false} SortedUnique<T(!new)>(less: (T, T) -> bool, p: seq<T>, q: seq<T>)
    requires PartialOrder(less) && Sorted(less, p) && Sorted(less, q)
    requires forall x :: x in p <==> x in q
    ensures p == q
  {
    assert p != [] ==> p[0] in q;
    assert q != [] ==> q[0] in p;
    if p != [] && q != [] {
      assert p[0] == q[0];
      forall x ensures x in p[1..] <==> x in q[1..] {
        if x in p[1..] { assert x in q && less(p[0], x); }
        if x in q[1..] { assert x in p && less(q[0], x); }
      }
      SortedUnique(less, p[1..], q[1..]);
      assert p == [p[0]] + p[1..] && q == [q[0]] + q[1..];
    }
  }

  // ----- A stable sort -----

  function Insert<T>(less: (T, T) -> bool, x: T, q: seq<T>): (r: seq<T>)
    ensures |r| == |q| + 1
  {
    if q == [] then [x]
    else if less(x, q[|q| - 1]) then Insert(less, x, q[..|q| - 1]) + [q[|q| - 1]]
    else q + [x]
  }

  function Sort<T>(less: (T, T) -> bool, q: seq<T>): (r: seq<T>)
    ensures |r| == |q|
  {
    if q == [] then [] else Insert(less, q[|q| - 1], Sort(less, q[..|q| - 1]))
  }

  lemma {:induction false} InsertElements<T(!new)>(less: (T, T) -> bool, x: T, q: seq<T>)
    ensures forall y :: y in Insert(less, x, q) <==> y == x || y in q
  {
    if q != [] && less(x, q[|q| - 1]) {
      InsertElements(less, x, q[..|q| - 1]);
      assert q == q[..|q| - 1] + [q[|q| - 1]];
    }
  }

  lemma {:induction false} SortElements<T(!new)>(less: (T, T) -> bool, q: seq<T>)
    ensures forall y :: y in Sort(less, q) <==> y in q
  {
    if q != [] {
      SortElements(less, q[..|q| - 1]);
      InsertElements(less, q[|q| - 1], Sort(less, q[..|q| - 1]));
      assert q == q[..|q| - 1] + [q[|q| - 1]];
    }
  }

  lemma {:induction false} InsertSorted<T(!new)>(less: (T, T) -> bool, x: T, q: seq<T>)
    requires PartialOrder(less) && Sorted(less, q) && forall y :: y in q ==> less(x, y) || less(y, x)
    ensures Sorted(less, Insert(less, x, q))
  {
    if q == [] {
    } else if less(x, q[|q| - 1]) {
      var init := q[..|q| - 1];
      InsertSorted(less, x, init);
      InsertElements(less, x, init);
      var r := Insert(less, x, init);
      forall i | 0 <= i < |r| ensures less(r[i], q[|q| - 1]) {
        assert r[i] in r;
      }
    } else {
      assert q[|q| - 1] in q && less(q[|q| - 1], x);
    }
  }

  /** Elements that are pairwise comparable sort into increasing order. */
  lemma {:induction false} SortSorted<T(!new)>(less: (T, T) -> bool, q: seq<T>)
    requires PartialOrder(less) && forall i, j :: 0 <= i < j < |q| ==> less(q[i], q[j]) || less(q[j], q[i])
    ensures Sorted(less, Sort(less, q))
  {
    if q != [] {
      var init := q[..|q| - 1];
      SortSorted(less, init);
      SortElements(less, init);
      InsertSorted(less, q[|q| - 1], Sort(less, init));
    }
  }

  /** Every nonempty finite set has a least element. */
  lemma {:induction false} LeastExists<T(!new)>(less: (T, T) -> bool, s: set<T>) returns (least: T)
    requires StrictOrder(less) && s != {}
    ensures least in s && forall x :: x in s && x != least ==> less(least, x)
    decreases |s|
  {
    least :| least in s;
    if s != {least} {
      var other := LeastExists(less, s - {least});
      if less(other, least) { least := other; }
    }
  }

  /** The elements of a set in increasing order: the iteration order of a `BTreeSet`. */
  ghost function SortedSeq<T(!new)>(less: (T, T) -> bool, s: set<T>): (q: seq<T>)
    requires StrictOrder(less)
    ensures Sorted(less, q) && |q| == |s|
    ensures forall x :: x in q <==> x in s
    decreases |s|
  {
    if s == {} then []
    else
      assert exists least :: least in s && forall x :: x in s && x != least ==> less(least, x) by {
        var least := LeastExists(less, s);
      }
      var least :| least in s && forall x :: x in s && x != least ==> less(least, x);
      [least] + SortedSeq(less, s - {least})
  }
}

module Finite {
  ghost predicate Distinct<T(!new)>(q: seq<T>) {
    forall i, j :: 0 <= i < j < |q| ==> q[i] != q[j]
  }

  ghost function Elements<T>(q: seq<T>): set<T> {
    set x | x in q
  }

  lemma ElementsConcat<T>(a: seq<T>, b: seq<T>)
    ensures Elements(a + b) == Elements(a) + Elements(b)
  {
  }

  lemma ConcatAssociative<T>(a: seq<T>, b: seq<T>, c: seq<T>)
    ensures a + (b + c) == (a + b) + c
  {
  }

  lemma SubsetSize<T>(a: set<T>, b: set<T>)
    requires a <= b
    ensures |a| <= |b|
    ensures |a| == |b| ==> a == b
  {
    assert b == a + (b - a);
    assert |b| == |a| + |b - a|;
  }

  lemma {:induction false} DistinctSize<T(!new)>(q: seq<T>)
    requires Distinct(q)
    ensures |Elements(q)| == |q|
  {
    if q != [] {
      var rest := q[..|q| - 1];
      DistinctSize(rest);
      assert q == rest + [q[|q| - 1]];
      assert Elements(q) == Elements(rest) + {q[|q| - 1]};
      assert q[|q| - 1] !in Elements(rest);
    } else {
      assert Elements(q) == {};
    }
  }

  /** Induction over a property given as a value. */
  lemma {:induction false} Climb(holds: nat -> bool, n: nat)
    requires holds(0) && forall i: nat :: i < n && holds(i) ==> holds(i + 1)
    ensures holds(n)
  {
    if n > 0 {
      Climb(holds, n - 1);
      assert holds(n - 1 + 1);
    }
  }

  /** Two subsets of `all` that together outnumber it meet. */
  lemma MajoritiesMeet<T>(a: set<T>, b: set<T>, all: set<T>)
    requires a <= all && b <= all && |a| + |b| > |all|
    ensures a * b != {}
  {
    if a * b == {} {
      assert |a + b| == |a| + |b|;
      SubsetSize(a + b, all);
    }
  }
}
