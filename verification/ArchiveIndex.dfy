/**
 The archive index: a search tree of content-addressed pages. A link to a page repeats its
 height, entry count and key range. Checking each page against its link is proved to make the
 whole tree ordered and counted, so a descent of one page per level decides membership.
 */
module ArchiveIndex {
  import opened Wrappers
  import opened Ordering

  const MAX_PAGE_BYTES: nat := 65536
  const MAX_CHILDREN: nat := 64
  const MAX_DEPTH: nat := 32
  const MAX_KEY_BYTES: nat := 512
  const MAX_INTEGER: nat := 9_007_199_254_740_991

  datatype Context = Context(workspaceId: string, historyEpoch: nat, indexId: string)

  datatype Root = Root(objectId: string, height: nat, count: nat, first: Option<string>, last: Option<string>)

  datatype Entry = Entry(key: string, objectId: string)

  datatype Page =
    | Leaf(kind: string, version: nat, context: Context, height: nat, entries: seq<Entry>)
    | Branch(kind: string, version: nat, context: Context, height: nat, children: seq<Root>)

  /** Stored bytes: the canonical text of a page, or anything else. */
  datatype Bytes = Canonical(page: Page) | Raw(text: string)

  /** Lengths in UTF-8, the decoder, the hash and its text form are the environment's. The key order is a parameter. */
  datatype Env = Env(
    keyLess: (string, string) -> bool,
    textBytes: string -> nat,
    size: Bytes -> nat,
    parse: Bytes -> Option<Page>,
    objectId: Bytes -> string,
    validDigest: string -> bool)

  datatype PageError = InvalidContext | InvalidRoot | TooLarge | HashMismatch | InvalidSchema
                     | InvalidPage | NotCanonical | RootMismatch

  // ----- Key order: UTF-16 code units -----

  function Units(c: char): seq<int> {
    var n := c as int;
    if n < 0x10000 then [n] else [0xD800 + (n - 0x10000) / 0x400, 0xDC00 + (n - 0x10000) % 0x400]
  }

  function Utf16(s: string): seq<int> {
    if s == [] then [] else Units(s[0]) + Utf16(s[1..])
  }

  predicate KeyLess(a: string, b: string) {
    LexLess(Utf16(a), Utf16(b))
  }

  /** One unit for the basic plane, otherwise a high and a low surrogate that hold the offset beyond it. */
  lemma UnitsExact(c: char)
    ensures c as int < 0x10000 ==> Units(c) == [c as int]
    ensures c as int >= 0x10000 ==>
              && |Units(c)| == 2 && 0xD800 <= Units(c)[0] < 0xDC00 && 0xDC00 <= Units(c)[1] < 0xE000
              && 0x10000 + (Units(c)[0] - 0xD800) * 0x400 + (Units(c)[1] - 0xDC00) == c as int
  {
  }

  /** A high surrogate announces its low one, so code units determine the character and the rest. */
  lemma UnitsUnique(c: char, x: seq<int>, d: char, y: seq<int>)
    requires Units(c) + x == Units(d) + y
    ensures c == d && x == y
  {
    var l, r := Units(c) + x, Units(d) + y;
    assert l[0] == Units(c)[0] && r[0] == Units(d)[0];
    assert |Units(c)| == |Units(d)|;
    if |Units(c)| == 2 { assert l[1] == Units(c)[1] && r[1] == Units(d)[1]; }
    assert l[|Units(c)|..] == x && r[|Units(d)|..] == y;
  }

  lemma {:induction false} Utf16Injective(a: string, b: string)
    requires Utf16(a) == Utf16(b)
    ensures a == b
  {
    if a != [] && b != [] {
      UnitsUnique(a[0], Utf16(a[1..]), b[0], Utf16(b[1..]));
      Utf16Injective(a[1..], b[1..]);
      assert a == [a[0]] + a[1..] && b == [b[0]] + b[1..];
    }
  }

  lemma KeyOrder()
    ensures StrictOrder(KeyLess)
  {
    forall a: string ensures !KeyLess(a, a) { LexIrreflexive(Utf16(a)); }
    forall a: string, b: string ensures KeyLess(a, b) || a == b || KeyLess(b, a) {
      LexTotal(Utf16(a), Utf16(b));
      if Utf16(a) == Utf16(b) { Utf16Injective(a, b); }
    }
    forall a: string, b: string, c: string | KeyLess(a, b) && KeyLess(b, c) ensures KeyLess(a, c) {
      LexTransitive(Utf16(a), Utf16(b), Utf16(c));
    }
  }

  lemma Utf16Orders(env: Env)
    requires Utf16Keys(env)
    ensures StrictOrder(env.keyLess)
  {
    KeyOrder();
    forall a: string, b: string, c: string | env.keyLess(a, b) && env.keyLess(b, c) ensures env.keyLess(a, c) {
      assert KeyLess(a, b) && KeyLess(b, c);
    }
    forall a: string, b: string ensures env.keyLess(a, b) || a == b || env.keyLess(b, a) {
      assert KeyLess(a, b) || a == b || KeyLess(b, a);
    }
    forall a: string ensures !env.keyLess(a, a) { assert !KeyLess(a, a); }
  }

  /** It is not the scalar order: a character beyond the basic plane sorts before U+E000. */
  lemma NotScalarOrder()
    ensures KeyLess(['\U{10000}'], ['\U{E000}']) && StrLess(['\U{E000}'], ['\U{10000}'])
  {
    assert Utf16(['\U{10000}']) == [0xD800, 0xDC00] + Utf16([]);
    assert Utf16(['\U{E000}']) == [0xE000] + Utf16([]);
    assert Scalars(['\U{E000}'])[0] == 0xE000 && Scalars(['\U{10000}'])[0] == 0x10000;
  }

  // ----- Pages -----

  ghost predicate ValidText(env: Env, text: string, maximum: nat) {
    text != "" && env.textBytes(text) <= maximum
  }

  ghost predicate ValidContext(env: Env, c: Context) {
    ValidText(env, c.workspaceId, 256) && ValidText(env, c.indexId, 128) && 0 < c.historyEpoch <= MAX_INTEGER
  }

  method CheckContext(env: Env, c: Context) returns (ok: bool)
    ensures ok <==> ValidContext(env, c)
  {
    if c.workspaceId == "" || env.textBytes(c.workspaceId) > 256 || c.indexId == "" || env.textBytes(c.indexId) > 128 {
      return false;
    }
    ok := c.historyEpoch > 0 && c.historyEpoch <= MAX_INTEGER;
  }

  /** An empty tree has no range; any other has two valid keys in order. */
  ghost predicate ValidRoot(env: Env, r: Root) {
    && env.validDigest(r.objectId) && r.height < MAX_DEPTH && r.count <= MAX_INTEGER
    && (if r.count == 0 then r.height == 0 && r.first.None? && r.last.None?
        else
          && r.first.Some? && r.last.Some?
          && ValidText(env, r.first.value, MAX_KEY_BYTES) && ValidText(env, r.last.value, MAX_KEY_BYTES)
          && !env.keyLess(r.last.value, r.first.value))
  }

  method CheckRoot(env: Env, r: Root) returns (ok: bool)
    ensures ok <==> ValidRoot(env, r)
  {
    if !env.validDigest(r.objectId) || r.height >= MAX_DEPTH || r.count > MAX_INTEGER {
      return false;
    }
    if r.count == 0 {
      return r.height == 0 && r.first == None && r.last == None;
    }
    if r.first.None? || r.last.None? {
      return false;
    }
    var first, last := r.first.value, r.last.value;
    if first == "" || env.textBytes(first) > MAX_KEY_BYTES || last == "" || env.textBytes(last) > MAX_KEY_BYTES {
      return false;
    }
    ok := !env.keyLess(last, first);
  }

  ghost function Total(children: seq<Root>): nat {
    if children == [] then 0 else Total(children[..|children| - 1]) + children[|children| - 1].count
  }

  /** The link that a page deserves. */
  ghost function PageRoot(env: Env, page: Page, objectId: string): Option<Root> {
    var root :=
      match page
      case Leaf(_, _, _, _, entries) =>
        Root(objectId, 0, |entries|, if entries == [] then None else Some(entries[0].key),
             if entries == [] then None else Some(entries[|entries| - 1].key))
      case Branch(_, _, _, height, children) =>
        Root(objectId, height, Total(children), if children == [] then None else children[0].first,
             if children == [] then None else children[|children| - 1].last);
    if ValidRoot(env, root) then Some(root) else None
  }

  method ComputeRoot(env: Env, page: Page, objectId: string) returns (r: Option<Root>)
    ensures r == PageRoot(env, page, objectId)
  {
    var root := Root(objectId, 0, 0, None, None);
    match page {
      case Leaf(_, _, _, _, entries) =>
        root := root.(count := |entries|);
        if entries != [] {
          root := root.(first := Some(entries[0].key), last := Some(entries[|entries| - 1].key));
        }
      case Branch(_, _, _, height, children) =>
        var count := 0;
        for i := 0 to |children|
          invariant count == Total(children[..i])
        {
          assert children[..i + 1][..i] == children[..i];
          count := count + children[i].count;
        }
        assert children[..|children|] == children;
        root := root.(height := height, count := count);
        if children != [] {
          root := root.(first := children[0].first, last := children[|children| - 1].last);
        }
    }
    var ok := CheckRoot(env, root);
    r := if ok then Some(root) else None;
  }

  ghost predicate IncreasingKeys(env: Env, entries: seq<Entry>) {
    forall i, j :: 0 <= i < j < |entries| ==> env.keyLess(entries[i].key, entries[j].key)
  }

  ghost predicate ValidEntries(env: Env, entries: seq<Entry>) {
    && (forall i :: 0 <= i < |entries| ==>
        ValidText(env, entries[i].key, MAX_KEY_BYTES) && env.validDigest(entries[i].objectId))
    && IncreasingKeys(env, entries)
  }

  ghost predicate ValidChild(env: Env, child: Root, height: nat) {
    ValidRoot(env, child) && child.count > 0 && child.height + 1 == height
  }

  /** The range of `b` starts after the range of `a` ends. */
  ghost predicate Before(env: Env, a: Root, b: Root) {
    a.last.Some? && b.first.Some? && env.keyLess(a.last.value, b.first.value)
  }

  ghost predicate ValidUpTo(env: Env, children: seq<Root>, height: nat, n: nat)
    requires n <= |children|
  {
    && (forall i :: 0 <= i < n ==> ValidChild(env, children[i], height))
    && (forall i, j :: 0 <= i < j < n ==>
        children[i].objectId != children[j].objectId && Before(env, children[i], children[j]))
  }

  /** Nonempty children one level down, all different, with ranges in increasing order. */
  ghost predicate ValidChildren(env: Env, children: seq<Root>, height: nat) {
    ValidUpTo(env, children, height, |children|)
  }

  ghost predicate ValidPage(env: Env, page: Page, expected: Context) {
    && page.kind == "workspace-history-index-page" && page.version == 1 && page.context == expected
    && (match page
        case Leaf(_, _, _, height, entries) => height == 0 && |entries| <= MAX_CHILDREN && ValidEntries(env, entries)
        case Branch(_, _, _, height, children) =>
          0 < height < MAX_DEPTH && 0 < |children| <= MAX_CHILDREN && ValidChildren(env, children, height))
  }

  method CheckEntries(env: Env, entries: seq<Entry>) returns (ok: bool)
    requires StrictOrder(env.keyLess)
    ensures ok <==> ValidEntries(env, entries)
  {
    for i := 0 to |entries|
      invariant ValidEntries(env, entries[..i])
    {
      assert entries[..i + 1] == entries[..i] + [entries[i]];
      var key := entries[i].key;
      if key == "" || env.textBytes(key) > MAX_KEY_BYTES || !env.validDigest(entries[i].objectId) {
        return false;
      }
      if i > 0 && !env.keyLess(entries[i - 1].key, entries[i].key) {
        return false;
      }
      if i > 0 {
        forall k | 0 <= k < i ensures env.keyLess(entries[k].key, entries[i].key) {
          if k < i - 1 { assert env.keyLess(entries[..i][k].key, entries[..i][i - 1].key); }
        }
      }
    }
    assert entries[..|entries|] == entries;
    ok := true;
  }

  lemma ChildrenPrefix(env: Env, children: seq<Root>, height: nat, n: nat)
    requires ValidChildren(env, children, height) && n <= |children|
    ensures ValidChildren(env, children[..n], height)
  {
  }

  lemma BeforeTransitive(env: Env, a: Root, b: Root, c: Root, height: nat)
    requires StrictOrder(env.keyLess)
    requires Before(env, a, b) && ValidChild(env, b, height) && Before(env, b, c)
    ensures Before(env, a, c)
  {
  }

  lemma ChildExtends(env: Env, children: seq<Root>, height: nat, n: nat)
    requires StrictOrder(env.keyLess) && n < |children| && ValidUpTo(env, children, height, n)
    requires ValidChild(env, children[n], height) && (n > 0 ==> Before(env, children[n - 1], children[n]))
    requires forall k :: 0 <= k < n ==> children[k].objectId != children[n].objectId
    ensures ValidUpTo(env, children, height, n + 1)
  {
    forall k | 0 <= k < n ensures Before(env, children[k], children[n]) {
      if k < n - 1 { BeforeTransitive(env, children[k], children[n - 1], children[n], height); }
    }
  }

  method CheckChildren(env: Env, children: seq<Root>, height: nat) returns (ok: bool)
    requires StrictOrder(env.keyLess)
    ensures ok <==> ValidChildren(env, children, height)
  {
    var seen: set<string> := {};
    for i := 0 to |children|
      invariant ValidUpTo(env, children, height, i)
      invariant forall x :: x in seen <==> exists k :: 0 <= k < i && children[k].objectId == x
    {
      var child := children[i];
      var linkOk := CheckRoot(env, child);
      if !linkOk || child.count == 0 || child.height + 1 != height || child.objectId in seen {
        return false;
      }
      if i > 0 && !env.keyLess(children[i - 1].last.value, child.first.value) {
        assert !Before(env, children[i - 1], children[i]);
        return false;
      }
      ChildExtends(env, children, height, i);
      seen := seen + {child.objectId};
    }
    ok := true;
  }

  method CheckPage(env: Env, page: Page, expected: Context) returns (ok: bool)
    requires StrictOrder(env.keyLess)
    ensures ok <==> ValidPage(env, page, expected)
  {
    if page.kind != "workspace-history-index-page" || page.version != 1 || page.context != expected {
      return false;
    }
    match page
    case Leaf(_, _, _, height, entries) =>
      if height != 0 || |entries| > MAX_CHILDREN {
        return false;
      }
      ok := CheckEntries(env, entries);
    case Branch(_, _, _, height, children) =>
      if height == 0 || height >= MAX_DEPTH || children == [] || |children| > MAX_CHILDREN {
        return false;
      }
      ok := CheckChildren(env, children, height);
  }

  /** The bytes are the canonical text of a valid page that has exactly this link. */
  ghost predicate Verifies(env: Env, context: Context, root: Root, bytes: Bytes, page: Page) {
    && ValidContext(env, context) && ValidRoot(env, root) && env.size(bytes) <= MAX_PAGE_BYTES
    && env.objectId(bytes) == root.objectId && env.parse(bytes) == Some(page) && bytes == Canonical(page)
    && ValidPage(env, page, context) && PageRoot(env, page, root.objectId) == Some(root)
  }

  method VerifyPage(env: Env, context: Context, root: Root, bytes: Bytes) returns (r: Result<Page, PageError>)
    requires StrictOrder(env.keyLess)
    ensures r.Ok? ==> Verifies(env, context, root, bytes, r.value)
    ensures r.Err? ==> forall page :: !Verifies(env, context, root, bytes, page)
  {
    var contextOk := CheckContext(env, context);
    if !contextOk {
      return Err(InvalidContext);
    }
    var rootOk := CheckRoot(env, root);
    if !rootOk {
      return Err(InvalidRoot);
    }
    if env.size(bytes) > MAX_PAGE_BYTES {
      return Err(TooLarge);
    }
    if env.objectId(bytes) != root.objectId {
      return Err(HashMismatch);
    }
    var page := env.parse(bytes);
    if page.None? {
      return Err(InvalidSchema);
    }
    var valid := CheckPage(env, page.value, context);
    if !valid {
      return Err(InvalidPage);
    }
    if bytes != Canonical(page.value) {
      return Err(NotCanonical);
    }
    var deserved := ComputeRoot(env, page.value, root.objectId);
    if deserved != Some(root) {
      return Err(RootMismatch);
    }
    r := Ok(page.value);
  }

  // ----- Trees -----

  type Store = map<string, Bytes>

  /** Every page reachable from the link is stored and verifies against its link. */
  ghost predicate Tree(env: Env, context: Context, store: Store, root: Root)
    decreases root.height, 1
  {
    && root.objectId in store && store[root.objectId].Canonical?
    && Verifies(env, context, root, store[root.objectId], store[root.objectId].page)
    && var page := store[root.objectId].page;
    page.Branch? ==> Trees(env, context, store, page.children, root.height)
  }

  ghost predicate Trees(env: Env, context: Context, store: Store, children: seq<Root>, height: nat)
    decreases height, 0
  {
    forall i :: 0 <= i < |children| ==> children[i].height < height && Tree(env, context, store, children[i])
  }

  /** All entries below a link, left to right. */
  ghost function Entries(env: Env, context: Context, store: Store, root: Root): seq<Entry>
    requires Tree(env, context, store, root)
    decreases root.height, 1
  {
    var page := store[root.objectId].page;
    if page.Leaf? then page.entries else EntriesOf(env, context, store, page.children, root.height)
  }

  ghost function EntriesOf(env: Env, context: Context, store: Store, children: seq<Root>, height: nat): seq<Entry>
    requires Trees(env, context, store, children, height)
    decreases height, 0, |children|
  {
    if children == [] then []
    else
      var n := |children| - 1;
      assert Trees(env, context, store, children[..n], height);
      EntriesOf(env, context, store, children[..n], height) + Entries(env, context, store, children[n])
  }

  /** Increasing keys, as many as the link says, from its first to its last. */
  ghost predicate Matches(env: Env, root: Root, entries: seq<Entry>) {
    && IncreasingKeys(env, entries) && |entries| == root.count
    && (entries != [] ==> root.first == Some(entries[0].key) && root.last == Some(entries[|entries| - 1].key))
  }

  lemma RangeHolds(env: Env, root: Root, entries: seq<Entry>, e: Entry)
    requires StrictOrder(env.keyLess)
    requires Matches(env, root, entries) && e in entries
    ensures !env.keyLess(e.key, root.first.value) && !env.keyLess(root.last.value, e.key)
  {
    var i :| 0 <= i < |entries| && entries[i] == e;
    assert i > 0 ==> env.keyLess(entries[0].key, entries[i].key);
    assert i < |entries| - 1 ==> env.keyLess(entries[i].key, entries[|entries| - 1].key);
  }

  lemma IncreasingConcat(env: Env, a: seq<Entry>, b: seq<Entry>)
    requires StrictOrder(env.keyLess)
    requires IncreasingKeys(env, a) && IncreasingKeys(env, b)
    requires a != [] && b != [] ==> env.keyLess(a[|a| - 1].key, b[0].key)
    ensures IncreasingKeys(env, a + b)
  {
    forall i, j | 0 <= i < |a| && 0 <= j < |b| ensures env.keyLess(a[i].key, b[j].key) {
      assert i < |a| - 1 ==> env.keyLess(a[i].key, a[|a| - 1].key);
      assert j > 0 ==> env.keyLess(b[0].key, b[j].key);
    }
  }

  lemma {:induction false} ChildrenMatch(env: Env, context: Context, store: Store, children: seq<Root>, height: nat)
    requires StrictOrder(env.keyLess)
    requires Trees(env, context, store, children, height) && ValidChildren(env, children, height)
    ensures var entries := EntriesOf(env, context, store, children, height);
            && IncreasingKeys(env, entries) && |entries| == Total(children)
            && (children != [] ==> entries != [] && children[0].first == Some(entries[0].key)
                                   && children[|children| - 1].last == Some(entries[|entries| - 1].key))
    decreases height, 0, |children|
  {
    if children != [] {
      var n := |children| - 1;
      var before := children[..n];
      ChildrenPrefix(env, children, height, n);
      assert Trees(env, context, store, before, height);
      ChildrenMatch(env, context, store, before, height);
      TreeMatches(env, context, store, children[n]);
      var a, b := EntriesOf(env, context, store, before, height), Entries(env, context, store, children[n]);
      if n > 0 { assert Before(env, children[n - 1], children[n]); }
      IncreasingConcat(env, a, b);
    }
  }

  /** Page by page checks add up: the whole tree is ordered and is what its root says. */
  lemma {:induction false} TreeMatches(env: Env, context: Context, store: Store, root: Root)
    requires StrictOrder(env.keyLess)
    requires Tree(env, context, store, root)
    ensures Matches(env, root, Entries(env, context, store, root))
    decreases root.height, 1
  {
    var page := store[root.objectId].page;
    if page.Branch? {
      ChildrenMatch(env, context, store, page.children, root.height);
    }
  }

  /** With a collision-free hash, a link determines every entry below it, whatever the store. */
  lemma {:induction false} RootAuthenticates(env: Env, context: Context, store: Store, store': Store, root: Root)
    requires forall a, b :: env.objectId(a) == env.objectId(b) ==> a == b
    requires Tree(env, context, store, root) && Tree(env, context, store', root)
    ensures Entries(env, context, store, root) == Entries(env, context, store', root)
    decreases root.height, 1
  {
    assert store[root.objectId] == store'[root.objectId];
    var page := store[root.objectId].page;
    if page.Branch? { ChildrenAuthenticate(env, context, store, store', page.children, root.height); }
  }

  lemma {:induction false} ChildrenAuthenticate(env: Env, context: Context, store: Store, store': Store,
                                                children: seq<Root>, height: nat)
    requires forall a, b :: env.objectId(a) == env.objectId(b) ==> a == b
    requires Trees(env, context, store, children, height) && Trees(env, context, store', children, height)
    ensures EntriesOf(env, context, store, children, height) == EntriesOf(env, context, store', children, height)
    decreases height, 0, |children|
  {
    if children != [] {
      var n := |children| - 1;
      assert Trees(env, context, store, children[..n], height) && Trees(env, context, store', children[..n], height);
      ChildrenAuthenticate(env, context, store, store', children[..n], height);
      RootAuthenticates(env, context, store, store', children[n]);
    }
  }

  // ----- Descent -----

  predicate InRange(env: Env, root: Root, key: string) {
    root.first.Some? && root.last.Some? && !env.keyLess(key, root.first.value) && !env.keyLess(root.last.value, key)
  }

  function FindChild(env: Env, children: seq<Root>, key: string): Option<Root> {
    if children == [] then None
    else if InRange(env, children[|children| - 1], key) then Some(children[|children| - 1])
    else FindChild(env, children[..|children| - 1], key)
  }

  function FindEntry(entries: seq<Entry>, key: string): Option<Entry> {
    if entries == [] then None
    else if entries[|entries| - 1].key == key then Some(entries[|entries| - 1])
    else FindEntry(entries[..|entries| - 1], key)
  }

  datatype Found = Found(entry: Option<Entry>, pages: nat)

  /** Follows the one child whose range covers the key, a page per level. */
  ghost function Descend(env: Env, context: Context, store: Store, root: Root, key: string): Found
    requires Tree(env, context, store, root)
    decreases root.height
  {
    var page := store[root.objectId].page;
    if page.Leaf? then Found(FindEntry(page.entries, key), 1)
    else
      var child := FindChild(env, page.children, key);
      if child.None? then Found(None, 1)
      else
        ChildTree(env, context, store, page.children, root.height, key);
        var below := Descend(env, context, store, child.value, key);
        Found(below.entry, below.pages + 1)
  }

  lemma {:induction false} FindChildIn(env: Env, children: seq<Root>, key: string)
    ensures FindChild(env, children, key).Some? ==>
            exists i ::
              0 <= i < |children| && children[i] == FindChild(env, children, key).value
                && InRange(env, children[i], key)
    ensures FindChild(env, children, key).None? ==> forall i :: 0 <= i < |children| ==> !InRange(env, children[i], key)
  {
    if children != [] {
      FindChildIn(env, children[..|children| - 1], key);
      assert children == children[..|children| - 1] + [children[|children| - 1]];
    }
  }

  lemma ChildTree(env: Env, context: Context, store: Store, children: seq<Root>, height: nat, key: string)
    requires Trees(env, context, store, children, height) && FindChild(env, children, key).Some?
    ensures FindChild(env, children, key).value.height < height
            && Tree(env, context, store, FindChild(env, children, key).value)
  {
    FindChildIn(env, children, key);
  }

  lemma {:induction false} FindEntryIn(entries: seq<Entry>, key: string)
    ensures FindEntry(entries, key).Some? ==>
            FindEntry(entries, key).value in entries && FindEntry(entries, key).value.key == key
    ensures FindEntry(entries, key).None? ==> forall e :: e in entries ==> e.key != key
  {
    if entries != [] {
      FindEntryIn(entries[..|entries| - 1], key);
      assert entries == entries[..|entries| - 1] + [entries[|entries| - 1]];
    }
  }

  lemma Apart(env: Env, a: Root, b: Root, key: string)
    requires StrictOrder(env.keyLess)
    requires Before(env, a, b)
    ensures !(InRange(env, a, key) && InRange(env, b, key))
  {
  }

  /** At most one child's range covers a key. */
  lemma OneChild(env: Env, children: seq<Root>, height: nat, key: string, i: nat, j: nat)
    requires StrictOrder(env.keyLess)
    requires ValidChildren(env, children, height) && i < |children| && j < |children|
    ensures InRange(env, children[i], key) && InRange(env, children[j], key) ==> i == j
  {
    if i < j { Apart(env, children[i], children[j], key); }
    if j < i { Apart(env, children[j], children[i], key); }
  }

  lemma EntriesSnoc(env: Env, context: Context, store: Store, children: seq<Root>, height: nat)
    requires Trees(env, context, store, children, height) && children != []
    ensures var n := |children| - 1;
            && Trees(env, context, store, children[..n], height)
            && EntriesOf(env, context, store, children, height) ==
               EntriesOf(env, context, store, children[..n], height) + Entries(env, context, store, children[n])
  {
  }

  lemma {:induction false} ChildEntry(env: Env, context: Context, store: Store, children: seq<Root>, height: nat,
                                      i: nat, e: Entry)
    requires Trees(env, context, store, children, height) && i < |children|
             && e in Entries(env, context, store, children[i])
    ensures e in EntriesOf(env, context, store, children, height)
    decreases |children|
  {
    var n := |children| - 1;
    EntriesSnoc(env, context, store, children, height);
    if i < n {
      assert children[..n][i] == children[i];
      ChildEntry(env, context, store, children[..n], height, i, e);
    }
  }

  lemma {:induction false} EntryChild(env: Env, context: Context, store: Store, children: seq<Root>, height: nat,
                                      e: Entry)
    returns (i: nat)
    requires Trees(env, context, store, children, height) && e in EntriesOf(env, context, store, children, height)
    ensures i < |children| && e in Entries(env, context, store, children[i])
    decreases |children|
  {
    var n := |children| - 1;
    assert Trees(env, context, store, children[..n], height);
    if e in Entries(env, context, store, children[n]) {
      i := n;
    } else {
      i := EntryChild(env, context, store, children[..n], height, e);
      assert children[..n][i] == children[i];
    }
  }

  /** The child to descend into holds the key exactly when the branch does. */
  lemma ChildDecides(env: Env, context: Context, store: Store, children: seq<Root>, height: nat, key: string, e: Entry)
    requires StrictOrder(env.keyLess)
    requires Trees(env, context, store, children, height) && ValidChildren(env, children, height) && e.key == key
    ensures var child := FindChild(env, children, key);
            e in EntriesOf(env, context, store, children, height) <==>
              child.Some? && Tree(env, context, store, child.value) && e in Entries(env, context, store, child.value)
  {
    FindChildIn(env, children, key);
    if FindChild(env, children, key).Some? {
      var k :| 0 <= k < |children| && children[k] == FindChild(env, children, key).value;
      if e in Entries(env, context, store, children[k]) { ChildEntry(env, context, store, children, height, k, e); }
    }
    if e in EntriesOf(env, context, store, children, height) {
      var i := EntryChild(env, context, store, children, height, e);
      TreeMatches(env, context, store, children[i]);
      RangeHolds(env, children[i], Entries(env, context, store, children[i]), e);
      assert InRange(env, children[i], key);
      var k :| 0 <= k < |children| && children[k] == FindChild(env, children, key).value
        && InRange(env, children[k], key);
      OneChild(env, children, height, key, i, k);
    }
  }

  /** A descent of at most height + 1 pages finds the entry with the key exactly when the tree holds one. */
  lemma {:induction false} DescentDecides(env: Env, context: Context, store: Store, root: Root, key: string)
    requires StrictOrder(env.keyLess)
    requires Tree(env, context, store, root)
    ensures var found, entries := Descend(env, context, store, root, key), Entries(env, context, store, root);
            && 1 <= found.pages <= root.height + 1 <= MAX_DEPTH
            && (forall e: Entry :: e.key == key ==> (e in entries <==> found.entry == Some(e)))
    decreases root.height
  {
    var page := store[root.objectId].page;
    TreeMatches(env, context, store, root);
    if page.Leaf? {
      FindEntryIn(page.entries, key);
      forall e: Entry | e.key == key && e in page.entries ensures FindEntry(page.entries, key) == Some(e) {
        SameKey(env, page.entries, e, FindEntry(page.entries, key).value);
      }
    } else {
      FindChildIn(env, page.children, key);
      forall e: Entry | e.key == key
        ensures var child := FindChild(env, page.children, key);
                e in Entries(env, context, store, root) <==>
                  child.Some? && Tree(env, context, store, child.value)
                    && e in Entries(env, context, store, child.value)
      {
        ChildDecides(env, context, store, page.children, root.height, key, e);
      }
      if FindChild(env, page.children, key).Some? {
        DescentDecides(env, context, store, FindChild(env, page.children, key).value, key);
      }
    }
  }

  lemma DistinctKeys(env: Env, entries: seq<Entry>)
    requires StrictOrder(env.keyLess)
    requires IncreasingKeys(env, entries)
    ensures forall i, j :: 0 <= i < j < |entries| ==> entries[i].key != entries[j].key
  {
    forall i, j | 0 <= i < j < |entries| ensures entries[i].key != entries[j].key {
      assert env.keyLess(entries[i].key, entries[j].key);
    }
  }

  lemma SameKey(env: Env, entries: seq<Entry>, a: Entry, b: Entry)
    requires StrictOrder(env.keyLess)
    requires IncreasingKeys(env, entries) && a in entries && b in entries && a.key == b.key
    ensures a == b
  {
    DistinctKeys(env, entries);
    var i :| 0 <= i < |entries| && entries[i] == a;
    var j :| 0 <= j < |entries| && entries[j] == b;
  }

  // ----- The order of the source -----

  /** Keys compare by UTF-16 code units. */
  ghost predicate Utf16Keys(env: Env) {
    forall a, b :: env.keyLess(a, b) <==> KeyLess(a, b)
  }

  /** The link says what its entries are, in UTF-16 key order. */
  ghost predicate Describes(root: Root, entries: seq<Entry>) {
    && (forall i, j :: 0 <= i < j < |entries| ==> KeyLess(entries[i].key, entries[j].key))
    && |entries| == root.count
    && (entries != [] ==> root.first == Some(entries[0].key) && root.last == Some(entries[|entries| - 1].key))
  }

  lemma MatchesUtf16(env: Env, root: Root, entries: seq<Entry>)
    requires Utf16Keys(env) && Matches(env, root, entries)
    ensures Describes(root, entries)
  {
    forall i, j | 0 <= i < j < |entries| ensures KeyLess(entries[i].key, entries[j].key) {
      assert env.keyLess(entries[i].key, entries[j].key);
    }
  }

  /**
   Under the key order of the source, the entries of a verified tree are ordered, counted and ranged as its link
   says.
   */
  lemma VerifiedTree(env: Env, context: Context, store: Store, root: Root)
    requires Utf16Keys(env) && Tree(env, context, store, root)
    ensures Describes(root, Entries(env, context, store, root))
  {
    Utf16Orders(env);
    TreeMatches(env, context, store, root);
    MatchesUtf16(env, root, Entries(env, context, store, root));
  }

  /** Under the same order a descent decides membership, in at most `height + 1` pages. */
  lemma VerifiedDescent(env: Env, context: Context, store: Store, root: Root, key: string)
    requires Utf16Keys(env) && Tree(env, context, store, root)
    ensures var found, entries := Descend(env, context, store, root, key), Entries(env, context, store, root);
            && 1 <= found.pages <= root.height + 1 <= MAX_DEPTH
            && (forall e: Entry :: e.key == key ==> (e in entries <==> found.entry == Some(e)))
  {
    Utf16Orders(env);
    DescentDecides(env, context, store, root, key);
  }
}
