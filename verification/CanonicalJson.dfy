/**
 Canonical JSON text: object keys in scalar order, no spaces, strings escaped as in section 7 of
 RFC 8259. There are two number formats. Stored text keeps numbers as they are and is injective.
 Signed text uses the number format of ECMAScript and determines a value up to numbers it prints alike.
 */
module CanonicalJson {
  import opened Wrappers
  import opened Ordering

  /** A float is given by its printed form, which always has a fraction or an exponent. */
  datatype Json =
    | Null
    | Bool(b: bool)
    | Int(n: int)
    | Float(text: string)
    | Str(s: string)
    | Arr(items: seq<Json>)
    | Obj(fields: map<string, Json>)

  predicate NumberChar(c: char) {
    '0' <= c <= '9' || c == '-' || c == '+' || c == '.' || c == 'e' || c == 'E'
  }

  predicate FloatText(text: string) {
    && text != [] && (text[0] == '-' || '0' <= text[0] <= '9')
    && (forall c :: c in text ==> NumberChar(c)) && ('.' in text || 'e' in text)
  }

  /** Every float in the value has a float's text. */
  predicate WellFormed(v: Json) {
    match v
    case Float(text) => FloatText(text)
    case Arr(items) => forall i :: 0 <= i < |items| ==> WellFormed(items[i])
    case Obj(fields) => forall k :: k in fields ==> WellFormed(fields[k])
    case _ => true
  }

  // ----- Printing -----

  function Digit(d: nat): char
    requires d < 10
  {
    '0' + d as char
  }

  function Decimal(n: nat): string {
    if n < 10 then [Digit(n)] else Decimal(n / 10) + [Digit(n % 10)]
  }

  function Integer(n: int): string {
    if n < 0 then "-" + Decimal(-n) else Decimal(n)
  }

  function HexDigit(d: nat): char
    requires d < 16
  {
    if d < 10 then '0' + d as char else 'a' + (d - 10) as char
  }

  function EscapeChar(c: char): string {
    if c == '\"' then "\\\""
    else if c == '\\' then "\\\\"
    else if c as int == 8 then "\\b"
    else if c == '\t' then "\\t"
    else if c == '\n' then "\\n"
    else if c as int == 12 then "\\f"
    else if c == '\r' then "\\r"
    else if (c as int) < 16 then "\\u000" + [HexDigit(c as int)]
    else if (c as int) < 32 then "\\u001" + [HexDigit(c as int - 16)]
    else [c]
  }

  function Escape(s: string): string {
    if s == [] then "" else EscapeChar(s[0]) + Escape(s[1..])
  }

  function Quote(s: string): string {
    "\"" + Escape(s) + "\""
  }

  predicate Least(keys: set<string>, least: string) {
    least in keys && forall k :: k in keys ==> k == least || StrLess(least, k)
  }

  lemma LeastKey(keys: set<string>)
    requires keys != {}
    ensures exists least :: least in keys && Least(keys, least)
    ensures forall a, b :: Least(keys, a) && Least(keys, b) ==> a == b
  {
    StrOrder();
    var least := LeastExists(StrLess, keys);
    assert Least(keys, least);
  }

  /** The keys of an object in scalar order. */
  function SortedKeys(keys: set<string>): (q: seq<string>)
    ensures forall k :: k in q <==> k in keys
  {
    if keys == {} then []
    else
      LeastKey(keys);
      var least :| least in keys && Least(keys, least);
      [least] + SortedKeys(keys - {least})
  }

  lemma {:induction false} KeysSorted(keys: set<string>)
    ensures Sorted(StrLess, SortedKeys(keys))
  {
    if keys != {} {
      LeastKey(keys);
      var least :| least in keys && Least(keys, least);
      KeysSorted(keys - {least});
      forall k | k in SortedKeys(keys - {least}) ensures StrLess(least, k) { }
      assert SortedKeys(keys) == [least] + SortedKeys(keys - {least});
    }
  }

  function Sep(i: nat): string {
    if i > 0 then "," else ""
  }

  /** How a number is printed; None refuses it. */
  type Numbers = Json -> Option<string>

  predicate IsNumber(v: Json) {
    v.Int? || v.Float?
  }

  function NumberText(num: Numbers, v: Json): string {
    if num(v).Some? then num(v).value else ""
  }

  function PrintItems(num: Numbers, v: Json, i: nat): string
    requires v.Arr? && i <= |v.items|
    decreases v, |v.items| - i
  {
    if i == |v.items| then "" else Sep(i) + Print(num, v.items[i]) + PrintItems(num, v, i + 1)
  }

  ghost predicate KeysOf(v: Json, keys: seq<string>) {
    v.Obj? && forall k :: k in keys ==> k in v.fields
  }

  function PrintFields(num: Numbers, v: Json, keys: seq<string>, i: nat): string
    requires KeysOf(v, keys) && i <= |keys|
    decreases v, |keys| - i
  {
    if i == |keys| then ""
    else Sep(i) + Quote(keys[i]) + ":" + Print(num, v.fields[keys[i]]) + PrintFields(num, v, keys, i + 1)
  }

  function Print(num: Numbers, v: Json): string
    decreases v
  {
    match v
    case Null => "null"
    case Bool(b) => if b then "true" else "false"
    case Int(_) => NumberText(num, v)
    case Float(_) => NumberText(num, v)
    case Str(s) => Quote(s)
    case Arr(_) => "[" + PrintItems(num, v, 0) + "]"
    case Obj(_) => "{" + PrintFields(num, v, SortedKeys(v.fields.Keys), 0) + "}"
  }

  // ----- Refused numbers -----

  /** A text made of two others, if there are both. */
  function Joined(prefix: string, head: Option<string>, tail: Option<string>): Option<string> {
    if head.None? || tail.None? then None else Some(prefix + head.value + tail.value)
  }

  function CanonicalItems(num: Numbers, v: Json, i: nat): Option<string>
    requires v.Arr? && i <= |v.items|
    decreases v, |v.items| - i
  {
    if i == |v.items| then Some("")
    else Joined(Sep(i), Canonicalize(num, v.items[i]), CanonicalItems(num, v, i + 1))
  }

  function CanonicalFields(num: Numbers, v: Json, keys: seq<string>, i: nat): Option<string>
    requires KeysOf(v, keys) && i <= |keys|
    decreases v, |keys| - i
  {
    if i == |keys| then Some("")
    else Joined(Sep(i) + Quote(keys[i]) + ":", Canonicalize(num, v.fields[keys[i]]),
                CanonicalFields(num, v, keys, i + 1))
  }

  /** The canonical text, or nothing as soon as a number is refused. */
  function Canonicalize(num: Numbers, v: Json): Option<string>
    decreases v
  {
    match v
    case Int(_) => num(v)
    case Float(_) => num(v)
    case Arr(_) =>
      var items := CanonicalItems(num, v, 0);
      if items.None? then None else Some("[" + items.value + "]")
    case Obj(_) =>
      var fields := CanonicalFields(num, v, SortedKeys(v.fields.Keys), 0);
      if fields.None? then None else Some("{" + fields.value + "}")
    case _ => Some(Print(num, v))
  }

  /** No number in the value is refused. */
  ghost predicate Accepted(num: Numbers, v: Json) {
    match v
    case Int(_) => num(v).Some?
    case Float(_) => num(v).Some?
    case Arr(items) => forall i :: 0 <= i < |items| ==> Accepted(num, items[i])
    case Obj(fields) => forall k :: k in fields ==> Accepted(num, fields[k])
    case _ => true
  }

  /** Canonicalization fails exactly on a refused number, however deep, and prints every other value. */
  lemma {:induction false} CanonicalizeExact(num: Numbers, v: Json)
    ensures Canonicalize(num, v) == if Accepted(num, v) then Some(Print(num, v)) else None
    decreases v
  {
    match v
    case Arr(_) => CanonicalItemsExact(num, v, 0);
    case Obj(_) =>
      CanonicalFieldsExact(num, v, SortedKeys(v.fields.Keys), 0);
      AcceptedKeys(num, v, SortedKeys(v.fields.Keys));
    case _ =>
  }

  lemma {:induction false} CanonicalItemsExact(num: Numbers, v: Json, i: nat)
    requires v.Arr? && i <= |v.items|
    ensures CanonicalItems(num, v, i) ==
            if forall j :: i <= j < |v.items| ==> Accepted(num, v.items[j]) then Some(PrintItems(num, v, i)) else None
    decreases v, |v.items| - i
  {
    if i < |v.items| {
      CanonicalizeExact(num, v.items[i]);
      CanonicalItemsExact(num, v, i + 1);
    }
  }

  ghost predicate AcceptedFrom(num: Numbers, v: Json, keys: seq<string>, i: nat)
    requires KeysOf(v, keys)
  {
    forall j :: i <= j < |keys| ==> Accepted(num, v.fields[keys[j]])
  }

  lemma AcceptedStep(num: Numbers, v: Json, keys: seq<string>, i: nat)
    requires KeysOf(v, keys) && i < |keys|
    ensures AcceptedFrom(num, v, keys, i) <==> Accepted(num, v.fields[keys[i]]) && AcceptedFrom(num, v, keys, i + 1)
  {
  }

  lemma {:induction false} CanonicalFieldsExact(num: Numbers, v: Json, keys: seq<string>, i: nat)
    requires KeysOf(v, keys) && i <= |keys|
    ensures CanonicalFields(num, v, keys, i) ==
            if AcceptedFrom(num, v, keys, i) then Some(PrintFields(num, v, keys, i)) else None
    decreases v, |keys| - i
  {
    if i < |keys| {
      CanonicalizeExact(num, v.fields[keys[i]]);
      CanonicalFieldsExact(num, v, keys, i + 1);
      AcceptedStep(num, v, keys, i);
    }
  }

  lemma AcceptedKeys(num: Numbers, v: Json, keys: seq<string>)
    requires KeysOf(v, keys) && forall k :: k in v.fields ==> k in keys
    ensures Accepted(num, v) <==> AcceptedFrom(num, v, keys, 0)
  {
    if AcceptedFrom(num, v, keys, 0) {
      forall k | k in v.fields ensures Accepted(num, v.fields[k]) {
        var j :| 0 <= j < |keys| && keys[j] == k;
      }
    }
  }

  // ----- The two number formats -----

  const MAX_SAFE_INTEGER: int := 9_007_199_254_740_991

  predicate GoodText(text: string) {
    text != [] && (text[0] == '-' || '0' <= text[0] <= '9') && forall c :: c in text ==> NumberChar(c)
  }

  /** Numbers of stored text: decimal integers, floats as they are. */
  function StoredNumber(v: Json): Option<string> {
    match v
    case Int(n) => Some(Integer(n))
    case Float(text) => Some(text)
    case _ => None
  }

  /** Numbers of signed text: integers beyond the safe range are refused, the rest is formatted. */
  function SignedNumbers(format: Json -> string): Numbers {
    (v: Json) => if v.Int? && (v.n > MAX_SAFE_INTEGER || -v.n > MAX_SAFE_INTEGER) then None else Some(format(v))
  }

  /** Prints every number as number text, like ECMAScript does. */
  ghost predicate Formatter(format: Json -> string) {
    forall v :: IsNumber(v) && WellFormed(v) ==> GoodText(format(v))
  }

  function StoredText(v: Json): string {
    Print(StoredNumber, v)
  }

  function SignedText(format: Json -> string, v: Json): Option<string> {
    Canonicalize(SignedNumbers(format), v)
  }

  /** Every integer in the value is below two to the 53rd power in size. */
  ghost predicate Safe(v: Json) {
    match v
    case Int(n) => -0x20_0000_0000_0000 < n < 0x20_0000_0000_0000
    case Arr(items) => forall i :: 0 <= i < |items| ==> Safe(items[i])
    case Obj(fields) => forall k :: k in fields ==> Safe(fields[k])
    case _ => true
  }

  lemma {:induction false} SafeAccepted(format: Json -> string, v: Json)
    ensures Accepted(SignedNumbers(format), v) <==> Safe(v)
    decreases v
  {
    match v
    case Arr(items) => forall i | 0 <= i < |items| { SafeAccepted(format, items[i]); }
    case Obj(fields) => forall k | k in fields { SafeAccepted(format, fields[k]); }
    case _ =>
  }

  lemma {:induction false} StoredAccepted(v: Json)
    ensures Accepted(StoredNumber, v)
    decreases v
  {
    match v
    case Arr(items) => forall i | 0 <= i < |items| { StoredAccepted(items[i]); }
    case Obj(fields) => forall k | k in fields { StoredAccepted(fields[k]); }
    case _ =>
  }

  /** A value has a signed text exactly when all its integers are safe; every value has a stored text. */
  lemma TextsExact(format: Json -> string, v: Json)
    ensures SignedText(format, v) == if Safe(v) then Some(Print(SignedNumbers(format), v)) else None
    ensures Canonicalize(StoredNumber, v) == Some(StoredText(v))
  {
    CanonicalizeExact(SignedNumbers(format), v);
    SafeAccepted(format, v);
    CanonicalizeExact(StoredNumber, v);
    StoredAccepted(v);
  }

  /** Every number in the value is printed as number text. */
  ghost predicate Printable(num: Numbers, v: Json) {
    match v
    case Int(_) => GoodText(NumberText(num, v))
    case Float(_) => GoodText(NumberText(num, v))
    case Arr(items) => forall i :: 0 <= i < |items| ==> Printable(num, items[i])
    case Obj(fields) => forall k :: k in fields ==> Printable(num, fields[k])
    case _ => true
  }

  lemma {:induction false} StoredPrintable(v: Json)
    requires WellFormed(v)
    ensures Printable(StoredNumber, v)
    decreases v
  {
    match v
    case Int(n) => IntegerShape(n);
    case Arr(items) =>
      forall i | 0 <= i < |items| ensures Printable(StoredNumber, items[i]) { StoredPrintable(items[i]); }
    case Obj(fields) =>
      forall k | k in fields ensures Printable(StoredNumber, fields[k]) { StoredPrintable(fields[k]); }
    case _ =>
  }

  lemma {:induction false} SignedPrintable(format: Json -> string, v: Json)
    requires Formatter(format) && WellFormed(v) && Safe(v)
    ensures Printable(SignedNumbers(format), v)
    decreases v
  {
    var num := SignedNumbers(format);
    match v
    case Int(_) => assert NumberText(num, v) == format(v);
    case Float(_) => assert NumberText(num, v) == format(v);
    case Arr(items) =>
      forall i | 0 <= i < |items| ensures Printable(num, items[i]) { SignedPrintable(format, items[i]); }
    case Obj(fields) => forall k | k in fields ensures Printable(num, fields[k]) { SignedPrintable(format, fields[k]); }
    case _ =>
  }

  // ----- Values that print alike -----

  /** Equal but for numbers with the same text. */
  ghost predicate Alike(num: Numbers, a: Json, b: Json)
    decreases a
  {
    match a
    case Int(_) => IsNumber(b) && NumberText(num, a) == NumberText(num, b)
    case Float(_) => IsNumber(b) && NumberText(num, a) == NumberText(num, b)
    case Arr(items) =>
      b.Arr? && |items| == |b.items| && forall i :: 0 <= i < |items| ==> Alike(num, items[i], b.items[i])
    case Obj(fields) =>
      b.Obj? && fields.Keys == b.fields.Keys && forall k :: k in fields ==> Alike(num, fields[k], b.fields[k])
    case _ => a == b
  }

  lemma {:induction false} AlikePrints(num: Numbers, a: Json, b: Json)
    requires Alike(num, a, b)
    ensures Print(num, a) == Print(num, b)
    decreases a
  {
    match a
    case Arr(_) => AlikeItems(num, a, b, 0);
    case Obj(_) => AlikeFields(num, a, b, SortedKeys(a.fields.Keys), 0);
    case _ =>
  }

  lemma {:induction false} AlikeItems(num: Numbers, a: Json, b: Json, i: nat)
    requires a.Arr? && Alike(num, a, b) && i <= |a.items|
    ensures PrintItems(num, a, i) == PrintItems(num, b, i)
    decreases a, |a.items| - i
  {
    if i < |a.items| {
      AlikePrints(num, a.items[i], b.items[i]);
      AlikeItems(num, a, b, i + 1);
    }
  }

  lemma {:induction false} AlikeFields(num: Numbers, a: Json, b: Json, keys: seq<string>, i: nat)
    requires a.Obj? && Alike(num, a, b) && KeysOf(a, keys) && KeysOf(b, keys) && i <= |keys|
    ensures PrintFields(num, a, keys, i) == PrintFields(num, b, keys, i)
    decreases a, |keys| - i
  {
    if i < |keys| {
      AlikePrints(num, a.fields[keys[i]], b.fields[keys[i]]);
      AlikeFields(num, a, b, keys, i + 1);
    }
  }

  /** Stored numbers print alike only when they are the same. */
  lemma {:induction false} StoredAlike(a: Json, b: Json)
    requires WellFormed(a) && WellFormed(b) && Alike(StoredNumber, a, b)
    ensures a == b
    decreases a
  {
    match a
    case Int(n) =>
      IntegerShape(n);
      if b.Int? { IntegerInjective(n, b.n); }
    case Float(_) =>
      if b.Int? { IntegerShape(b.n); }
    case Arr(items) =>
      forall i | 0 <= i < |items| ensures items[i] == b.items[i] { StoredAlike(items[i], b.items[i]); }
      assert items == b.items;
    case Obj(fields) =>
      forall k | k in fields ensures fields[k] == b.fields[k] { StoredAlike(fields[k], b.fields[k]); }
      assert fields == b.fields;
    case _ =>
  }

  // ----- Numbers -----

  function Value(text: string): int {
    if text == [] then 0 else Value(text[..|text| - 1]) * 10 + (text[|text| - 1] as int - '0' as int)
  }

  lemma {:induction false} DecimalReads(n: nat)
    ensures Value(Decimal(n)) == n
    ensures Decimal(n) != [] && forall c :: c in Decimal(n) ==> '0' <= c <= '9'
  {
    if n >= 10 {
      DecimalReads(n / 10);
      assert Decimal(n)[..|Decimal(n)| - 1] == Decimal(n / 10);
    } else {
      assert Decimal(n)[..0] == [];
    }
  }

  lemma IntegerShape(n: int)
    ensures Integer(n) != [] && (Integer(n)[0] == '-' || '0' <= Integer(n)[0] <= '9')
    ensures forall c :: c in Integer(n) ==> c == '-' || '0' <= c <= '9'
    ensures Integer(n)[0] == '-' <==> n < 0
  {
    DecimalReads(if n < 0 then -n else n);
    assert Decimal(if n < 0 then -n else n)[0] in Decimal(if n < 0 then -n else n);
  }

  lemma IntegerInjective(a: int, b: int)
    requires Integer(a) == Integer(b)
    ensures a == b
  {
    IntegerShape(a);
    IntegerShape(b);
    DecimalReads(if a < 0 then -a else a);
    DecimalReads(if b < 0 then -b else b);
    if a < 0 { assert Integer(a)[1..] == Decimal(-a) && Integer(b)[1..] == Decimal(-b); }
  }

  // ----- What may follow a value -----

  predicate Follow(x: string) {
    x == [] || x[0] == ',' || x[0] == ']' || x[0] == '}'
  }

  lemma Cut(l: string, r: string, p: string, x: string, y: string)
    requires l == p + x && r == p + y && l == r
    ensures x == y
  {
    assert l[|p|..] == x && r[|p|..] == y;
  }

  predicate StartsNumber(s: string) {
    s != [] && NumberChar(s[0])
  }

  lemma NumberStarts(s: string, x: string)
    requires (forall c :: c in s ==> NumberChar(c)) && Follow(x)
    ensures StartsNumber(s + x) <==> s != []
  {
    if s != [] { assert (s + x)[0] == s[0] && s[0] in s; } else { assert s + x == x; }
  }

  lemma {:induction false} NumbersEnd(s: string, x: string, t: string, y: string)
    requires (forall c :: c in s ==> NumberChar(c)) && (forall c :: c in t ==> NumberChar(c))
    requires Follow(x) && Follow(y) && s + x == t + y
    ensures s == t && x == y
  {
    NumberStarts(s, x);
    NumberStarts(t, y);
    if s == [] {
      assert s + x == x && t + y == y;
    } else {
      assert (s + x)[0] == s[0] && (t + y)[0] == t[0];
      assert (s + x)[1..] == s[1..] + x && (t + y)[1..] == t[1..] + y;
      NumbersEnd(s[1..], x, t[1..], y);
      assert s == [s[0]] + s[1..] && t == [t[0]] + t[1..];
    }
  }

  // ----- Strings -----

  /** No escape is a prefix of another, and none starts with a closing quote. */
  lemma EscapeCharUnique(c: char, x: string, d: char, y: string)
    requires EscapeChar(c) + x == EscapeChar(d) + y
    ensures c == d && x == y
  {
    var p, q := EscapeChar(c), EscapeChar(d);
    assert (p + x)[0] == p[0] && (q + y)[0] == q[0];
    if |p| > 1 && |q| > 1 {
      assert (p + x)[1] == p[1] && (q + y)[1] == q[1];
      if |p| > 2 && |q| > 2 {
        assert (p + x)[4] == p[4] && (q + y)[4] == q[4];
        assert (p + x)[5] == p[5] && (q + y)[5] == q[5];
      }
    }
    assert c == d;
    assert (p + x)[|p|..] == x && (q + y)[|q|..] == y;
  }

  lemma EscapeStarts(s: string, x: string)
    ensures Escape(s) + "\"" + x == if s == [] then "\"" + x else EscapeChar(s[0]) + (Escape(s[1..]) + "\"" + x)
    ensures (Escape(s) + "\"" + x)[0] == '\"' <==> s == []
  {
  }

  lemma {:induction false} EscapeUnique(s: string, x: string, t: string, y: string)
    requires Escape(s) + "\"" + x == Escape(t) + "\"" + y
    ensures s == t && x == y
  {
    EscapeStarts(s, x);
    EscapeStarts(t, y);
    if s == [] {
      Cut("\"" + x, "\"" + y, "\"", x, y);
    } else {
      EscapeCharUnique(s[0], Escape(s[1..]) + "\"" + x, t[0], Escape(t[1..]) + "\"" + y);
      EscapeUnique(s[1..], x, t[1..], y);
      assert s == [s[0]] + s[1..] && t == [t[0]] + t[1..];
    }
  }

  lemma QuoteUnique(s: string, x: string, t: string, y: string)
    requires Quote(s) + x == Quote(t) + y
    ensures s == t && x == y
  {
    var l, r := Quote(s) + x, Quote(t) + y;
    assert l[1..] == Escape(s) + "\"" + x && r[1..] == Escape(t) + "\"" + y;
    EscapeUnique(s, x, t, y);
  }

  // ----- Values -----

  datatype Kind = NullKind | BoolKind(b: bool) | NumberKind | StrKind | ArrKind | ObjKind

  function KindOfValue(v: Json): Kind {
    match v
    case Null => NullKind
    case Bool(b) => BoolKind(b)
    case Int(_) => NumberKind
    case Float(_) => NumberKind
    case Str(_) => StrKind
    case Arr(_) => ArrKind
    case Obj(_) => ObjKind
  }

  function KindOfChar(c: char): Kind {
    match c
    case 'n' => NullKind
    case 't' => BoolKind(true)
    case 'f' => BoolKind(false)
    case '\"' => StrKind
    case '[' => ArrKind
    case '{' => ObjKind
    case _ => NumberKind
  }

  /** The first character tells what kind of value is printed, and is no separator. */
  lemma FirstChar(num: Numbers, v: Json)
    requires Printable(num, v)
    ensures Print(num, v) != [] && KindOfChar(Print(num, v)[0]) == KindOfValue(v)
    ensures Print(num, v)[0] != ']' && Print(num, v)[0] != '}' && Print(num, v)[0] != ','
  {
  }

  lemma NumberUnique(num: Numbers, a: Json, x: string, b: Json, y: string)
    requires IsNumber(a) && IsNumber(b) && Printable(num, a) && Printable(num, b)
    requires Follow(x) && Follow(y) && NumberText(num, a) + x == NumberText(num, b) + y
    ensures Alike(num, a, b) && x == y
  {
    NumbersEnd(NumberText(num, a), x, NumberText(num, b), y);
  }

  lemma SameKind(num: Numbers, a: Json, x: string, b: Json, y: string)
    requires Printable(num, a) && Printable(num, b) && Print(num, a) + x == Print(num, b) + y
    ensures KindOfValue(a) == KindOfValue(b)
  {
    FirstChar(num, a);
    FirstChar(num, b);
    assert (Print(num, a) + x)[0] == Print(num, a)[0] && (Print(num, b) + y)[0] == Print(num, b)[0];
  }

  /** A printed value and what follows it can be told apart. */
  lemma {:induction false} PrintUnique(num: Numbers, a: Json, x: string, b: Json, y: string)
    requires Printable(num, a) && Printable(num, b) && Follow(x) && Follow(y) && Print(num, a) + x == Print(num, b) + y
    ensures Alike(num, a, b) && x == y
    decreases a, 1
  {
    SameKind(num, a, x, b, y);
    match a
    case Null => Cut(Print(num, a) + x, Print(num, b) + y, Print(num, a), x, y);
    case Bool(_) => Cut(Print(num, a) + x, Print(num, b) + y, Print(num, a), x, y);
    case Int(_) => NumberUnique(num, a, x, b, y);
    case Float(_) => NumberUnique(num, a, x, b, y);
    case Str(s) => QuoteUnique(s, x, b.s, y);
    case Arr(_) => ArrUnique(num, a, x, b, y);
    case Obj(_) => ObjUnique(num, a, x, b, y);
  }

  lemma ArrText(num: Numbers, v: Json, x: string)
    requires v.Arr?
    ensures Print(num, v) + x == "[" + (PrintItems(num, v, 0) + ("]" + x))
  {
  }

  lemma {:induction false} ArrUnique(num: Numbers, a: Json, x: string, b: Json, y: string)
    requires a.Arr? && b.Arr? && Printable(num, a) && Printable(num, b) && Print(num, a) + x == Print(num, b) + y
    ensures Alike(num, a, b) && x == y
    decreases a, 0
  {
    ArrText(num, a, x);
    ArrText(num, b, y);
    Cut(Print(num, a) + x, Print(num, b) + y, "[", PrintItems(num, a, 0) + ("]" + x),
        PrintItems(num, b, 0) + ("]" + y));
    ItemsUnique(num, a, x, b, y, 0);
  }

  lemma ObjText(num: Numbers, v: Json, keys: seq<string>, x: string)
    requires v.Obj? && keys == SortedKeys(v.fields.Keys)
    ensures KeysOf(v, keys) && (forall k :: k in v.fields ==> k in keys)
    ensures Print(num, v) + x == "{" + (PrintFields(num, v, keys, 0) + ("}" + x))
  {
  }

  lemma {:induction false} ObjUnique(num: Numbers, a: Json, x: string, b: Json, y: string)
    requires a.Obj? && b.Obj? && Printable(num, a) && Printable(num, b) && Print(num, a) + x == Print(num, b) + y
    ensures Alike(num, a, b) && x == y
    decreases a, 0
  {
    var p, q := SortedKeys(a.fields.Keys), SortedKeys(b.fields.Keys);
    ObjText(num, a, p, x);
    ObjText(num, b, q, y);
    Cut(Print(num, a) + x, Print(num, b) + y, "{", PrintFields(num, a, p, 0) + ("}" + x),
        PrintFields(num, b, q, 0) + ("}" + y));
    FieldsUnique(num, a, p, x, b, q, y, 0);
    SameFields(num, a, b, p);
  }

  /** The text of the items from `i` on, with the closing bracket and what follows. */
  lemma ItemsText(num: Numbers, v: Json, i: nat, x: string)
    requires v.Arr? && Printable(num, v) && i <= |v.items|
    ensures PrintItems(num, v, i) + ("]" + x) ==
            if i == |v.items|
              then "]" + x else Sep(i) + (Print(num, v.items[i]) + (PrintItems(num, v, i + 1) + ("]" + x)))
    ensures (PrintItems(num, v, i) + ("]" + x))[0] == ']' <==> i == |v.items|
    ensures i > 0 ==> Follow(PrintItems(num, v, i) + ("]" + x))
  {
    if i < |v.items| { FirstChar(num, v.items[i]); }
  }

  ghost predicate SameItems(num: Numbers, a: Json, b: Json, i: nat)
    requires a.Arr? && b.Arr?
  {
    i <= |a.items| && i <= |b.items| && forall j :: 0 <= j < i ==> Alike(num, a.items[j], b.items[j])
  }

  /** From equal texts, the items from `i` on are equal, given those before are. */
  lemma {:induction false} ItemsUnique(num: Numbers, a: Json, x: string, b: Json, y: string, i: nat)
    requires a.Arr? && b.Arr? && Printable(num, a) && Printable(num, b) && SameItems(num, a, b, i)
    requires PrintItems(num, a, i) + ("]" + x) == PrintItems(num, b, i) + ("]" + y)
    ensures Alike(num, a, b) && x == y
    decreases a, 0, |a.items| - i, 1
  {
    ItemsText(num, a, i, x);
    ItemsText(num, b, i, y);
    if i == |a.items| {
      Cut("]" + x, "]" + y, "]", x, y);
    } else {
      ItemUnique(num, a, x, b, y, i);
      ItemsUnique(num, a, x, b, y, i + 1);
    }
  }

  lemma {:induction false} ItemUnique(num: Numbers, a: Json, x: string, b: Json, y: string, i: nat)
    requires a.Arr? && b.Arr? && Printable(num, a) && Printable(num, b) && i < |a.items| && i < |b.items|
    requires PrintItems(num, a, i) + ("]" + x) == PrintItems(num, b, i) + ("]" + y)
    ensures Alike(num, a.items[i], b.items[i])
            && PrintItems(num, a, i + 1) + ("]" + x) == PrintItems(num, b, i + 1) + ("]" + y)
    decreases a, 0, |a.items| - i, 0
  {
    var l, r := PrintItems(num, a, i + 1) + ("]" + x), PrintItems(num, b, i + 1) + ("]" + y);
    ItemsText(num, a, i, x);
    ItemsText(num, b, i, y);
    Cut(Sep(i) + (Print(num, a.items[i]) + l), Sep(i) + (Print(num, b.items[i]) + r), Sep(i),
        Print(num, a.items[i]) + l, Print(num, b.items[i]) + r);
    ItemsText(num, a, i + 1, x);
    ItemsText(num, b, i + 1, y);
    PrintUnique(num, a.items[i], l, b.items[i], r);
  }

  lemma Regroup(sep: string, k: string, value: string, rest: string, end: string)
    ensures sep + k + ":" + value + rest + end == sep + (k + (":" + (value + (rest + end))))
  {
  }

  /** The text of the fields from `i` on, with the closing brace and what follows. */
  lemma FieldsText(num: Numbers, v: Json, keys: seq<string>, i: nat, x: string)
    requires KeysOf(v, keys) && i < |keys|
    ensures PrintFields(num, v, keys, i) + ("}" + x) ==
            Sep(i) + (Quote(keys[i])
                      + (":" + (Print(num, v.fields[keys[i]]) + (PrintFields(num, v, keys, i + 1) + ("}" + x)))))
  {
    Regroup(Sep(i), Quote(keys[i]), Print(num, v.fields[keys[i]]), PrintFields(num, v, keys, i + 1), "}" + x);
  }

  lemma FieldsStart(num: Numbers, v: Json, keys: seq<string>, i: nat, x: string)
    requires KeysOf(v, keys) && i <= |keys|
    ensures (PrintFields(num, v, keys, i) + ("}" + x))[0] == '}' <==> i == |keys|
    ensures i == |keys| ==> PrintFields(num, v, keys, i) + ("}" + x) == "}" + x
    ensures i > 0 ==> Follow(PrintFields(num, v, keys, i) + ("}" + x))
  {
    if i < |keys| {
      FieldsText(num, v, keys, i, x);
    } else {
      assert PrintFields(num, v, keys, i) + ("}" + x) == "}" + x;
    }
  }

  ghost predicate SameUpTo(num: Numbers, a: Json, p: seq<string>, b: Json, q: seq<string>, i: nat)
    requires KeysOf(a, p) && KeysOf(b, q)
  {
    i <= |p| && i <= |q| && forall j :: 0 <= j < i ==> p[j] == q[j] && Alike(num, a.fields[p[j]], b.fields[q[j]])
  }

  /** From equal texts, the fields from `i` on are equal, given those before are. */
  lemma {:induction false} FieldsUnique(num: Numbers, a: Json, p: seq<string>, x: string, b: Json, q: seq<string>,
                                        y: string, i: nat)
    requires KeysOf(a, p) && KeysOf(b, q) && Printable(num, a) && Printable(num, b) && SameUpTo(num, a, p, b, q, i)
    requires PrintFields(num, a, p, i) + ("}" + x) == PrintFields(num, b, q, i) + ("}" + y)
    ensures p == q && SameUpTo(num, a, p, b, q, |p|) && x == y
    decreases a, 0, |p| - i, 1
  {
    FieldsStart(num, a, p, i, x);
    FieldsStart(num, b, q, i, y);
    if i == |p| {
      Cut("}" + x, "}" + y, "}", x, y);
    } else {
      FieldUnique(num, a, p, x, b, q, y, i);
      FieldsUnique(num, a, p, x, b, q, y, i + 1);
    }
  }

  lemma {:induction false} FieldUnique(num: Numbers, a: Json, p: seq<string>, x: string, b: Json, q: seq<string>,
                                       y: string, i: nat)
    requires KeysOf(a, p) && KeysOf(b, q) && Printable(num, a) && Printable(num, b) && i < |p| && i < |q|
    requires PrintFields(num, a, p, i) + ("}" + x) == PrintFields(num, b, q, i) + ("}" + y)
    ensures p[i] == q[i] && Alike(num, a.fields[p[i]], b.fields[q[i]])
    ensures PrintFields(num, a, p, i + 1) + ("}" + x) == PrintFields(num, b, q, i + 1) + ("}" + y)
    decreases a, 0, |p| - i, 0
  {
    var l, r := PrintFields(num, a, p, i + 1) + ("}" + x), PrintFields(num, b, q, i + 1) + ("}" + y);
    FieldsText(num, a, p, i, x);
    FieldsText(num, b, q, i, y);
    KeyUnique(Sep(i), p[i], Print(num, a.fields[p[i]]) + l, q[i], Print(num, b.fields[q[i]]) + r);
    FieldsStart(num, a, p, i + 1, x);
    FieldsStart(num, b, q, i + 1, y);
    PrintUnique(num, a.fields[p[i]], l, b.fields[q[i]], r);
  }

  lemma KeyUnique(sep: string, k: string, m: string, k': string, n: string)
    requires sep + (Quote(k) + (":" + m)) == sep + (Quote(k') + (":" + n))
    ensures k == k' && m == n
  {
    Cut(sep + (Quote(k) + (":" + m)), sep + (Quote(k') + (":" + n)), sep, Quote(k) + (":" + m), Quote(k') + (":" + n));
    QuoteUnique(k, ":" + m, k', ":" + n);
    Cut(":" + m, ":" + n, ":", m, n);
  }

  lemma SameFields(num: Numbers, a: Json, b: Json, p: seq<string>)
    requires KeysOf(a, p) && KeysOf(b, p) && SameUpTo(num, a, p, b, p, |p|)
    requires (forall k :: k in a.fields ==> k in p) && (forall k :: k in b.fields ==> k in p)
    ensures Alike(num, a, b)
  {
    forall k | k in p ensures Alike(num, a.fields[k], b.fields[k]) {
      var j :| 0 <= j < |p| && p[j] == k;
    }
    assert a.fields.Keys == b.fields.Keys;
  }

  /** Values print the same if and only if they differ in nothing but numbers with the same text. */
  lemma PrintExact(num: Numbers, a: Json, b: Json)
    requires Printable(num, a) && Printable(num, b)
    ensures Print(num, a) == Print(num, b) <==> Alike(num, a, b)
  {
    if Print(num, a) == Print(num, b) {
      assert Print(num, a) + "" == Print(num, a) && Print(num, b) + "" == Print(num, b);
      PrintUnique(num, a, "", b, "");
    }
    if Alike(num, a, b) { AlikePrints(num, a, b); }
  }

  /** Different values have different stored texts. */
  lemma StoredInjective(a: Json, b: Json)
    requires WellFormed(a) && WellFormed(b) && StoredText(a) == StoredText(b)
    ensures a == b
  {
    StoredPrintable(a);
    StoredPrintable(b);
    PrintExact(StoredNumber, a, b);
    StoredAlike(a, b);
  }

  // ----- Signature inputs -----

  /** The kind that a signed payload names for itself. */
  function KindOf(payload: Json): (kind: Option<string>)
    ensures kind.Some? ==> payload.Obj? && "kind" in payload.fields && payload.fields["kind"] == Str(kind.value)
    ensures kind.None? ==> forall k :: k != "" && payload.Obj? && "kind" in payload.fields ==>
                             payload.fields["kind"] != Str(k)
  {
    if payload.Obj? && "kind" in payload.fields && payload.fields["kind"].Str? && payload.fields["kind"].s != ""
    then Some(payload.fields["kind"].s) else None
  }

  function SignatureInput(kind: string, canonical: string, domain: string): string {
    domain + "/" + kind + [0 as char] + canonical
  }

  lemma {:induction false} EscapeNoNul(s: string)
    ensures 0 as char !in Escape(s)
  {
    if s != [] { EscapeNoNul(s[1..]); }
  }

  lemma {:induction false} PrintNoNul(num: Numbers, v: Json)
    requires Printable(num, v)
    ensures 0 as char !in Print(num, v)
    decreases v
  {
    match v
    case Str(s) => EscapeNoNul(s);
    case Arr(_) => ItemsNoNul(num, v, 0);
    case Obj(_) => FieldsNoNul(num, v, SortedKeys(v.fields.Keys), 0);
    case _ =>
  }

  lemma {:induction false} ItemsNoNul(num: Numbers, v: Json, i: nat)
    requires v.Arr? && Printable(num, v) && i <= |v.items|
    ensures 0 as char !in PrintItems(num, v, i)
    decreases v, |v.items| - i
  {
    if i < |v.items| {
      PrintNoNul(num, v.items[i]);
      ItemsNoNul(num, v, i + 1);
    }
  }

  lemma {:induction false} FieldsNoNul(num: Numbers, v: Json, keys: seq<string>, i: nat)
    requires KeysOf(v, keys) && Printable(num, v) && i <= |keys|
    ensures 0 as char !in PrintFields(num, v, keys, i)
    decreases v, |keys| - i
  {
    if i < |keys| {
      EscapeNoNul(keys[i]);
      PrintNoNul(num, v.fields[keys[i]]);
      FieldsNoNul(num, v, keys, i + 1);
    }
  }

  function LastNul(s: string): int {
    if s == [] then -1 else if s[|s| - 1] == 0 as char then |s| - 1 else LastNul(s[..|s| - 1])
  }

  lemma {:induction false} LastNulIs(p: string, x: string)
    requires 0 as char !in x
    ensures LastNul(p + [0 as char] + x) == |p|
  {
    var s := p + [0 as char] + x;
    if x == [] {
      assert s == p + [0 as char];
    } else {
      assert s[|s| - 1] == x[|x| - 1] && x[|x| - 1] in x;
      LastNulIs(p, x[..|x| - 1]);
      assert s[..|s| - 1] == p + [0 as char] + x[..|x| - 1];
    }
  }

  lemma LastNulSplits(p: string, x: string, q: string, y: string)
    requires 0 as char !in x && 0 as char !in y && p + [0 as char] + x == q + [0 as char] + y
    ensures p == q && x == y
  {
    var l, r := p + [0 as char] + x, q + [0 as char] + y;
    LastNulIs(p, x);
    LastNulIs(q, y);
    assert l[..|p|] == p && r[..|q|] == q && l[|p| + 1..] == x && r[|q| + 1..] == y;
  }

  /** Domain, slash, kind, NUL, text. */
  function Input(text: string, payload: Json, domain: string): (input: string)
    requires KindOf(payload).Some?
    ensures input == domain + ['/'] + payload.fields["kind"].s + [0 as char] + text
  {
    SignatureInput(KindOf(payload).value, text, domain)
  }

  lemma AlikeKinds(num: Numbers, a: Json, b: Json)
    requires Alike(num, a, b) && KindOf(a).Some? && KindOf(b).Some?
    ensures KindOf(a) == KindOf(b)
  {
    assert Alike(num, a.fields["kind"], b.fields["kind"]);
  }

  /** Inputs over one number format are equal if and only if the domains agree and the payloads print alike. */
  lemma InputExact(num: Numbers, a: Json, domainA: string, b: Json, domainB: string)
    requires Printable(num, a) && Printable(num, b) && KindOf(a).Some? && KindOf(b).Some?
    ensures Input(Print(num, a), a, domainA) == Input(Print(num, b), b, domainB) <==>
            domainA == domainB && Alike(num, a, b)
  {
    PrintExact(num, a, b);
    if Input(Print(num, a), a, domainA) == Input(Print(num, b), b, domainB) {
      PrintNoNul(num, a);
      PrintNoNul(num, b);
      var p, q := domainA + "/" + KindOf(a).value, domainB + "/" + KindOf(b).value;
      LastNulSplits(p, Print(num, a), q, Print(num, b));
      AlikeKinds(num, a, b);
      assert p[..|domainA|] == domainA && q[..|domainB|] == domainB;
    }
    if Alike(num, a, b) { AlikeKinds(num, a, b); }
  }

  /** The input over stored text, which the cache digests, determines both the domain and the payload. */
  lemma StoredInputInjective(a: Json, domainA: string, b: Json, domainB: string)
    requires WellFormed(a) && WellFormed(b) && KindOf(a).Some? && KindOf(b).Some?
    requires Input(StoredText(a), a, domainA) == Input(StoredText(b), b, domainB)
    ensures a == b && domainA == domainB
  {
    StoredPrintable(a);
    StoredPrintable(b);
    InputExact(StoredNumber, a, domainA, b, domainB);
    StoredAlike(a, b);
  }

  /** What is signed determines the domain, and the payload up to numbers that are formatted alike, and no more. */
  lemma SignedInputExact(format: Json -> string, a: Json, domainA: string, b: Json, domainB: string)
    requires Formatter(format) && WellFormed(a) && WellFormed(b) && KindOf(a).Some? && KindOf(b).Some?
    requires SignedText(format, a).Some? && SignedText(format, b).Some?
    ensures Input(SignedText(format, a).value, a, domainA) == Input(SignedText(format, b).value, b, domainB) <==>
              domainA == domainB && Alike(SignedNumbers(format), a, b)
  {
    TextsExact(format, a);
    TextsExact(format, b);
    SignedPrintable(format, a);
    SignedPrintable(format, b);
    InputExact(SignedNumbers(format), a, domainA, b, domainB);
  }

  function Payload(n: Json): Json {
    Obj(map["kind" := Str("k"), "n" := n])
  }

  lemma PayloadShape(n: Json)
    requires IsNumber(n) && WellFormed(n) && Safe(n)
    ensures WellFormed(Payload(n)) && Safe(Payload(n)) && KindOf(Payload(n)) == Some("k") && Payload(n).fields["n"] == n
  {
    var fields := Payload(n).fields;
    forall k | k in fields ensures WellFormed(fields[k]) && Safe(fields[k]) { }
  }

  lemma PayloadsAlike(num: Numbers, m: Json, n: Json)
    requires IsNumber(m) && IsNumber(n) && NumberText(num, m) == NumberText(num, n)
    ensures Alike(num, Payload(m), Payload(n))
  {
    var a, b := Payload(m).fields, Payload(n).fields;
    assert a.Keys == {"kind", "n"} == b.Keys;
    forall k | k in a ensures Alike(num, a[k], b[k]) { }
  }

  /** ECMAScript prints 1 and 1.0 alike, so one signature holds for both payloads although their stored texts differ. */
  lemma OneSignatureTwoPayloads(format: Json -> string, domain: string)
    requires Formatter(format) && format(Int(1)) == format(Float("1.0")) == "1"
    ensures var a, b := Payload(Int(1)), Payload(Float("1.0"));
            && WellFormed(a) && WellFormed(b) && KindOf(a) == KindOf(b) == Some("k") && a != b
            && SignedText(format, a).Some? && SignedText(format, b).Some?
            && Input(SignedText(format, a).value, a, domain) == Input(SignedText(format, b).value, b, domain)
            && StoredText(a) != StoredText(b)
  {
    var one, float := Int(1), Float("1.0");
    assert float.text[1] == '.';
    PayloadShape(one);
    PayloadShape(float);
    TextsExact(format, Payload(one));
    TextsExact(format, Payload(float));
    PayloadsAlike(SignedNumbers(format), one, float);
    SignedInputExact(format, Payload(one), domain, Payload(float), domain);
    if StoredText(Payload(one)) == StoredText(Payload(float)) { StoredInjective(Payload(one), Payload(float)); }
  }
}
