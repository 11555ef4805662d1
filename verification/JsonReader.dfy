/**
 A reader of JSON text after RFC 8259, without insignificant whitespace. It knows nothing of the printer;
 reading a canonical text gives the printed value back, and every escape has its one canonical form.
 */
module JsonReader {
  import opened Wrappers
  import opened CanonicalJson

  // ----- Strings, section 7 -----

  /** The character that a backslash and this letter stand for. */
  function Meaning(letter: char): Option<char> {
    match letter
    case '\"' => Some(0x22 as char)
    case '\\' => Some(0x5C as char)
    case '/' => Some(0x2F as char)
    case 'b' => Some(0x08 as char)
    case 'f' => Some(0x0C as char)
    case 'n' => Some(0x0A as char)
    case 'r' => Some(0x0D as char)
    case 't' => Some(0x09 as char)
    case _ => None
  }

  function HexValue(c: char): (r: Option<nat>)
    ensures r.Some? ==> r.value < 16
  {
    if '0' <= c <= '9' then Some(c as int - '0' as int)
    else if 'a' <= c <= 'f' then Some(c as int - 'a' as int + 10)
    else if 'A' <= c <= 'F' then Some(c as int - 'A' as int + 10)
    else None
  }

  /** Four hexadecimal digits. */
  function CodeUnit(text: string): (r: Option<nat>)
    ensures r.Some? ==> |text| >= 4 && r.value < 0x1_0000
  {
    if |text| < 4 then None
    else
      var a, b, c, d := HexValue(text[0]), HexValue(text[1]), HexValue(text[2]), HexValue(text[3]);
      if a.None? || b.None? || c.None? || d.None? then None
      else Some(((a.value * 16 + b.value) * 16 + c.value) * 16 + d.value)
  }

  /** What follows a backslash: a character and the rest. A character beyond the first plane takes two code units. */
  function ReadEscape(text: string): (r: Option<(char, string)>)
    ensures r.Some? ==> |r.value.1| < |text|
  {
    if text == [] then None
    else if text[0] != 'u' then
      if Meaning(text[0]).None? then None else Some((Meaning(text[0]).value, text[1..]))
    else
      var unit := CodeUnit(text[1..]);
      if unit.None? then None
      else if unit.value < 0xD800 || 0xE000 <= unit.value then Some((unit.value as char, text[5..]))
      else if unit.value >= 0xDC00 || |text| < 11 || text[5] != '\\' || text[6] != 'u' then None
      else
        var low := CodeUnit(text[7..]);
        if low.None? || !(0xDC00 <= low.value < 0xE000) then None
        else Some(((0x1_0000 + (unit.value - 0xD800) * 0x400 + (low.value - 0xDC00)) as char, text[11..]))
  }

  /** The characters up to the closing quotation mark, and the text after it. */
  function ReadString(text: string): (r: Option<(string, string)>)
    ensures r.Some? ==> |r.value.1| < |text|
    decreases |text|
  {
    if text == [] || text[0] as int < 0x20 then None
    else if text[0] == '\"' then Some(("", text[1..]))
    else
      var first := if text[0] == '\\' then ReadEscape(text[1..]) else Some((text[0], text[1..]));
      if first.None? then None
      else
        var more := ReadString(first.value.1);
        if more.None? then None else Some(([first.value.0] + more.value.0, more.value.1))
  }

  // ----- Numbers, section 6 -----

  predicate Digits(text: string) {
    text != [] && (forall c :: c in text ==> '0' <= c <= '9') && (text[0] == '0' ==> |text| == 1)
  }

  function ReadNumber(text: string): Option<Json> {
    if Digits(text) then Some(Int(Value(text)))
    else if text != [] && text[0] == '-' && Digits(text[1..]) then Some(Int(-Value(text[1..])))
    else if FloatText(text) then Some(Float(text))
    else None
  }

  /** How many characters of a number the text starts with. */
  function NumberLength(text: string): (n: nat)
    ensures n <= |text|
  {
    if text != [] && NumberChar(text[0]) then 1 + NumberLength(text[1..]) else 0
  }

  // ----- Values, sections 3 to 5 -----

  function ReadWord(word: string, v: Json, text: string): (r: Option<(Json, string)>)
    ensures r.Some? && word != [] ==> |r.value.1| < |text|
  {
    if |word| <= |text| && text[..|word|] == word then Some((v, text[|word|..])) else None
  }

  /** A value at the start of the text, and the rest. */
  function ReadValue(text: string): (r: Option<(Json, string)>)
    ensures r.Some? ==> |r.value.1| < |text|
    decreases |text|, 0
  {
    if text == [] then None
    else match text[0]
      case '\"' =>
        var s := ReadString(text[1..]);
        if s.None? then None else Some((Str(s.value.0), s.value.1))
      case '[' =>
        if |text| > 1 && text[1] == ']' then Some((Arr([]), text[2..]))
        else
          var items := ReadItems(text[1..]);
          if items.None? then None else Some((Arr(items.value.0), items.value.1))
      case '{' =>
        if |text| > 1 && text[1] == '}' then Some((Obj(map[]), text[2..]))
        else
          var fields := ReadFields(text[1..]);
          if fields.None? then None else Some((Obj(fields.value.0), fields.value.1))
      case 'n' => ReadWord("null", Null, text)
      case 't' => ReadWord("true", Bool(true), text)
      case 'f' => ReadWord("false", Bool(false), text)
      case _ =>
        var n := NumberLength(text);
        var number := ReadNumber(text[..n]);
        if n == 0 || number.None? then None else Some((number.value, text[n..]))
  }

  /** One or more items up to the closing bracket. */
  function ReadItems(text: string): (r: Option<(seq<Json>, string)>)
    ensures r.Some? ==> |r.value.1| < |text|
    decreases |text|, 1
  {
    var first := ReadValue(text);
    if first.None? || first.value.1 == [] then None
    else
      var rest := first.value.1;
      if rest[0] == ']' then Some(([first.value.0], rest[1..]))
      else if rest[0] != ',' then None
      else
        var more := ReadItems(rest[1..]);
        if more.None? then None else Some(([first.value.0] + more.value.0, more.value.1))
  }

  /** One or more members up to the closing brace; of members with the same name the last one counts. */
  function ReadFields(text: string): (r: Option<(map<string, Json>, string)>)
    ensures r.Some? ==> |r.value.1| < |text|
    decreases |text|, 1
  {
    if text == [] || text[0] != '\"' then None
    else
      var name := ReadString(text[1..]);
      if name.None? || name.value.1 == [] || name.value.1[0] != ':' then None
      else
        var first := ReadValue(name.value.1[1..]);
        if first.None? || first.value.1 == [] then None
        else
          var field, rest := map[name.value.0 := first.value.0], first.value.1;
          if rest[0] == '}' then Some((field, rest[1..]))
          else if rest[0] != ',' then None
          else
            var more := ReadFields(rest[1..]);
            if more.None? then None else Some((field + more.value.0, more.value.1))
  }

  /** The value that a whole text stands for. */
  function Parse(text: string): Option<Json> {
    var r := ReadValue(text);
    if r.Some? && r.value.1 == [] then Some(r.value.0) else None
  }

  // ----- Escapes -----

  /** Every character in its canonical form is read back, whatever follows. */
  lemma EscapeCharReads(c: char, x: string)
    ensures EscapeChar(c)[0] as int >= 0x20 && EscapeChar(c)[0] != '\"'
    ensures if EscapeChar(c)[0] == '\\' then ReadEscape((EscapeChar(c) + x)[1..]) == Some((c, x))
            else EscapeChar(c) == [c]
  {
    var text := EscapeChar(c) + x;
    if |EscapeChar(c)| == 2 {
      assert text[1..][1..] == x;
    } else if |EscapeChar(c)| == 6 {
      assert text[1..][1..][..4] == EscapeChar(c)[2..];
      assert text[1..][5..] == x;
    }
  }

  /** The backslash letter that stands for a character, `/` aside, which needs none. */
  ghost predicate HasShortEscape(c: char) {
    c != '/' && exists letter :: Meaning(letter) == Some(c)
  }

  /**
   The canonical form of a character: two characters if there is such an escape, else `\\u00` and two
   lower-case hexadecimal digits for a control character, and the character itself otherwise.
   */
  lemma EscapeForm(c: char)
    ensures HasShortEscape(c) <==> |EscapeChar(c)| == 2
    ensures HasShortEscape(c) ==> EscapeChar(c)[0] == '\\' && Meaning(EscapeChar(c)[1]) == Some(c)
    ensures !HasShortEscape(c) && c as int < 0x20 ==>
              && |EscapeChar(c)| == 6 && EscapeChar(c)[..4] == "\\u00"
              && (forall d :: d in EscapeChar(c)[4..] ==> '0' <= d <= '9' || 'a' <= d <= 'f')
              && CodeUnit(EscapeChar(c)[2..]) == Some(c as int)
    ensures !HasShortEscape(c) && c as int >= 0x20 ==> EscapeChar(c) == [c]
  {
    assert Meaning('\"') == Some('\"') && Meaning('\\') == Some('\\');
    assert Meaning('b') == Some(8 as char) && Meaning('t') == Some('\t') && Meaning('n') == Some('\n');
    assert Meaning('f') == Some(12 as char) && Meaning('r') == Some('\r');
  }

  lemma ReadsOneMore(c: char, rest: string)
    requires ReadString(rest).Some?
    ensures ReadString(EscapeChar(c) + rest) == Some(([c] + ReadString(rest).value.0, ReadString(rest).value.1))
  {
    EscapeCharReads(c, rest);
    var text := EscapeChar(c) + rest;
    assert text[0] == EscapeChar(c)[0];
    if EscapeChar(c) == [c] { assert text[1..] == rest; }
  }

  lemma Regrouped(a: string, b: string, c: string)
    ensures (a + b) + c == a + (b + c)
  {
  }

  /** An escaped string and its closing quotation mark are read back, whatever follows. */
  lemma {:induction false} EscapeReads(s: string, x: string)
    ensures ReadString(Escape(s) + ("\"" + x)) == Some((s, x))
  {
    var end := "\"" + x;
    if s == [] {
      assert Escape(s) + end == end && end[1..] == x;
    } else {
      EscapeReads(s[1..], x);
      ReadsOneMore(s[0], Escape(s[1..]) + end);
      Regrouped(EscapeChar(s[0]), Escape(s[1..]), end);
      assert s == [s[0]] + s[1..];
    }
  }

  lemma QuoteReads(s: string, x: string)
    ensures (Quote(s) + x)[0] == '\"' && ReadString((Quote(s) + x)[1..]) == Some((s, x))
  {
    EscapeReads(s, x);
    assert (Quote(s) + x)[1..] == Escape(s) + ("\"" + x);
  }

  // ----- Numbers -----

  lemma {:induction false} DecimalDigits(n: nat)
    ensures Digits(Decimal(n)) && Value(Decimal(n)) == n && (Decimal(n)[0] == '0' <==> n == 0)
  {
    DecimalReads(n);
    if n >= 10 { DecimalDigits(n / 10); }
  }

  /** A stored integer is read back as that integer, a stored float as that float. */
  lemma StoredNumberReads(v: Json)
    requires IsNumber(v) && WellFormed(v)
    ensures ReadNumber(NumberText(StoredNumber, v)) == Some(v)
  {
    match v
    case Int(n) =>
      DecimalDigits(if n < 0 then -n else n);
      if n < 0 {
        assert Integer(n)[0] == '-' && '-' in Integer(n) && Integer(n)[1..] == Decimal(-n);
      }
    case Float(text) =>
      if text[0] == '-' { assert text == [text[0]] + text[1..]; }
  }

  lemma {:induction false} NumberEnds(number: string, x: string)
    requires (forall c :: c in number ==> NumberChar(c)) && Follow(x)
    ensures NumberLength(number + x) == |number|
  {
    if number == [] {
      assert number + x == x;
    } else {
      assert number[0] in number && (number + x)[1..] == number[1..] + x;
      NumberEnds(number[1..], x);
    }
  }

  lemma NumberReads(number: string, v: Json, x: string)
    requires GoodText(number) && Follow(x) && ReadNumber(number) == Some(v)
    ensures ReadValue(number + x) == Some((v, x))
  {
    NumberEnds(number, x);
    assert (number + x)[0] == number[0];
    assert (number + x)[..|number|] == number && (number + x)[|number|..] == x;
  }

  // ----- Whole values -----

  /** The value with each number as its printed text is read. */
  function Reread(num: Numbers, v: Json): Json {
    match v
    case Arr(items) => Arr(seq(|items|, i requires 0 <= i < |items| => Reread(num, items[i])))
    case Obj(fields) => Obj(map k | k in fields :: Reread(num, fields[k]))
    case _ =>
      if !IsNumber(v) then v
      else var read := ReadNumber(NumberText(num, v)); if read.Some? then read.value else Null
  }

  /** Every number is printed as text that reads as a number. */
  ghost predicate Legible(num: Numbers, v: Json) {
    match v
    case Arr(items) => forall i :: 0 <= i < |items| ==> Legible(num, items[i])
    case Obj(fields) => forall k :: k in fields ==> Legible(num, fields[k])
    case _ => IsNumber(v) ==> GoodText(NumberText(num, v)) && ReadNumber(NumberText(num, v)).Some?
  }

  lemma {:induction false} LegiblePrintable(num: Numbers, v: Json)
    requires Legible(num, v)
    ensures Printable(num, v)
    decreases v
  {
    match v
    case Arr(items) => forall i | 0 <= i < |items| { LegiblePrintable(num, items[i]); }
    case Obj(fields) => forall k | k in fields { LegiblePrintable(num, fields[k]); }
    case _ =>
  }

  /** A printed value is read back up to its numbers, and reading stops where the value ends. */
  lemma {:induction false} PrintReads(num: Numbers, v: Json, x: string)
    requires Legible(num, v) && Follow(x)
    ensures ReadValue(Print(num, v) + x) == Some((Reread(num, v), x))
    decreases v, 1
  {
    match v
    case Null => WordReads("null", v, x);
    case Bool(b) => WordReads(if b then "true" else "false", v, x);
    case Str(s) => QuoteReads(s, x);
    case Arr(_) => ArrReads(num, v, x);
    case Obj(_) => ObjReads(num, v, x);
    case _ => NumberReads(NumberText(num, v), Reread(num, v), x);
  }

  lemma WordReads(word: string, v: Json, x: string)
    ensures ReadWord(word, v, word + x) == Some((v, x))
  {
    assert (word + x)[..|word|] == word && (word + x)[|word|..] == x;
  }

  ghost function ItemsFrom(num: Numbers, v: Json, i: nat): seq<Json>
    requires v.Arr? && i <= |v.items|
  {
    Reread(num, v).items[i..]
  }

  lemma BracketReads(text: string, items: seq<Json>, x: string)
    ensures ReadValue("[" + ("]" + x)) == Some((Arr([]), x))
    ensures text != [] && text[0] != ']' && ReadItems(text) == Some((items, x)) ==>
              ReadValue("[" + text) == Some((Arr(items), x))
  {
    assert ("[" + ("]" + x))[2..] == x;
    assert ("[" + text)[1..] == text;
  }

  lemma NoItems(num: Numbers, v: Json, x: string)
    requires v == Arr([])
    ensures PrintItems(num, v, 0) + ("]" + x) == "]" + x && Reread(num, v) == v
  {
  }

  lemma FirstItemText(num: Numbers, v: Json, x: string)
    requires v.Arr? && v.items != [] && Printable(num, v)
    ensures PrintItems(num, v, 0) + ("]" + x) == Print(num, v.items[0]) + (PrintItems(num, v, 1) + ("]" + x))
    ensures (PrintItems(num, v, 0) + ("]" + x))[0] != ']'
    ensures ItemsFrom(num, v, 0) == Reread(num, v).items
  {
    ItemsText(num, v, 0, x);
  }

  lemma {:induction false} ArrReads(num: Numbers, v: Json, x: string)
    requires v.Arr? && Legible(num, v)
    ensures ReadValue(Print(num, v) + x) == Some((Reread(num, v), x))
    decreases v, 0
  {
    ArrText(num, v, x);
    BracketReads(PrintItems(num, v, 0) + ("]" + x), Reread(num, v).items, x);
    if v.items == [] {
      NoItems(num, v, x);
    } else {
      LegiblePrintable(num, v);
      FirstItemText(num, v, x);
      ItemsRead(num, v, 0, x);
    }
  }

  lemma ItemReads(text: string, first: Json, tail: string, more: seq<Json>, x: string)
    ensures ReadValue(text) == Some((first, "]" + x)) ==> ReadItems(text) == Some(([first], x))
    ensures ReadValue(text) == Some((first, "," + tail)) && ReadItems(tail) == Some((more, x)) ==>
              ReadItems(text) == Some(([first] + more, x))
  {
    assert ("]" + x)[1..] == x && ("," + tail)[1..] == tail;
  }

  lemma ItemsFromStep(num: Numbers, v: Json, i: nat)
    requires v.Arr? && i < |v.items|
    ensures ItemsFrom(num, v, i) == [Reread(num, v.items[i])] + ItemsFrom(num, v, i + 1)
    ensures i + 1 == |v.items| ==> ItemsFrom(num, v, i) == [Reread(num, v.items[i])]
  {
  }

  lemma {:induction false} ItemsRead(num: Numbers, v: Json, i: nat, x: string)
    requires v.Arr? && Legible(num, v) && i < |v.items|
    ensures ReadItems(Print(num, v.items[i]) + (PrintItems(num, v, i + 1) + ("]" + x))) ==
            Some((ItemsFrom(num, v, i), x))
    decreases v, 0, |v.items| - i
  {
    var rest := PrintItems(num, v, i + 1) + ("]" + x);
    LegiblePrintable(num, v);
    ItemsText(num, v, i + 1, x);
    PrintReads(num, v.items[i], rest);
    ItemsFromStep(num, v, i);
    var tail, more := "", [];
    if i + 1 < |v.items| {
      ItemsRead(num, v, i + 1, x);
      tail := Print(num, v.items[i + 1]) + (PrintItems(num, v, i + 2) + ("]" + x));
      more := ItemsFrom(num, v, i + 1);
    }
    ItemReads(Print(num, v.items[i]) + rest, Reread(num, v.items[i]), tail, more, x);
  }

  ghost function FieldsFrom(num: Numbers, v: Json, keys: seq<string>, i: nat): map<string, Json>
    requires KeysOf(v, keys)
  {
    map k | k in keys[if i <= |keys| then i else |keys|..] :: Reread(num, v.fields[k])
  }

  lemma FieldsFromStep(num: Numbers, v: Json, keys: seq<string>, i: nat)
    requires KeysOf(v, keys) && i < |keys|
    ensures FieldsFrom(num, v, keys, i) ==
            map[keys[i] := Reread(num, v.fields[keys[i]])] + FieldsFrom(num, v, keys, i + 1)
    ensures i + 1 == |keys| ==> FieldsFrom(num, v, keys, i) == map[keys[i] := Reread(num, v.fields[keys[i]])]
  {
    assert keys[i..] == [keys[i]] + keys[i + 1..];
  }

  lemma BraceReads(text: string, fields: map<string, Json>, x: string)
    ensures ReadValue("{" + ("}" + x)) == Some((Obj(map[]), x))
    ensures text != [] && text[0] != '}' && ReadFields(text) == Some((fields, x)) ==>
              ReadValue("{" + text) == Some((Obj(fields), x))
  {
    assert ("{" + ("}" + x))[2..] == x;
    assert ("{" + text)[1..] == text;
  }

  lemma AllFields(num: Numbers, v: Json, keys: seq<string>)
    requires KeysOf(v, keys) && forall k :: k in v.fields ==> k in keys
    ensures FieldsFrom(num, v, keys, 0) == Reread(num, v).fields
  {
    assert keys[0..] == keys;
  }

  lemma {:induction false} ObjReads(num: Numbers, v: Json, x: string)
    requires v.Obj? && Legible(num, v)
    ensures ReadValue(Print(num, v) + x) == Some((Reread(num, v), x))
    decreases v, 0
  {
    var keys := SortedKeys(v.fields.Keys);
    ObjText(num, v, keys, x);
    FieldsStart(num, v, keys, 0, x);
    var text := PrintFields(num, v, keys, 0) + ("}" + x);
    AllFields(num, v, keys);
    BraceReads(text, Reread(num, v).fields, x);
    if keys != [] {
      FieldsRead(num, v, keys, 0, x);
      FirstFieldText(num, v, keys, x);
    }
  }

  lemma FirstFieldText(num: Numbers, v: Json, keys: seq<string>, x: string)
    requires KeysOf(v, keys) && keys != []
    ensures PrintFields(num, v, keys, 0) + ("}" + x) ==
            Quote(keys[0]) + (":" + (Print(num, v.fields[keys[0]]) + (PrintFields(num, v, keys, 1) + ("}" + x))))
  {
    FieldsText(num, v, keys, 0, x);
  }

  lemma FieldReads(name: string, text: string, first: Json, tail: string, more: map<string, Json>, x: string)
    ensures ReadValue(text) == Some((first, "}" + x)) ==>
              ReadFields(Quote(name) + (":" + text)) == Some((map[name := first], x))
    ensures ReadValue(text) == Some((first, "," + tail)) && ReadFields(tail) == Some((more, x)) ==>
              ReadFields(Quote(name) + (":" + text)) == Some((map[name := first] + more, x))
  {
    QuoteReads(name, ":" + text);
    assert (":" + text)[1..] == text && ("}" + x)[1..] == x && ("," + tail)[1..] == tail;
  }

  lemma {:induction false} FieldsRead(num: Numbers, v: Json, keys: seq<string>, i: nat, x: string)
    requires KeysOf(v, keys) && Legible(num, v) && i < |keys|
    ensures ReadFields(Quote(keys[i]) + (":" + (Print(num, v.fields[keys[i]])
                                                 + (PrintFields(num, v, keys, i + 1) + ("}" + x))))) ==
            Some((FieldsFrom(num, v, keys, i), x))
    decreases v, 0, |keys| - i
  {
    var rest := PrintFields(num, v, keys, i + 1) + ("}" + x);
    FieldsStart(num, v, keys, i + 1, x);
    PrintReads(num, v.fields[keys[i]], rest);
    FieldsFromStep(num, v, keys, i);
    var tail, more := "", map[];
    if i + 1 < |keys| {
      FieldsRead(num, v, keys, i + 1, x);
      FieldsText(num, v, keys, i + 1, x);
      tail := Quote(keys[i + 1]) + (":" + (Print(num, v.fields[keys[i + 1]])
                                           + (PrintFields(num, v, keys, i + 2) + ("}" + x))));
      more := FieldsFrom(num, v, keys, i + 1);
    }
    FieldReads(keys[i], Print(num, v.fields[keys[i]]) + rest, Reread(num, v.fields[keys[i]]), tail, more, x);
  }

  lemma {:induction false} StoredRereads(v: Json)
    requires WellFormed(v)
    ensures Reread(StoredNumber, v) == v && Legible(StoredNumber, v)
    decreases v
  {
    match v
    case Arr(items) => forall i | 0 <= i < |items| { StoredRereads(items[i]); }
    case Obj(fields) =>
      forall k | k in fields { StoredRereads(fields[k]); }
      assert Reread(StoredNumber, v).fields == fields;
    case _ => if IsNumber(v) { StoredNumberReads(v); StoredPrintable(v); }
  }

  /** Reading a stored text gives the value back. */
  lemma StoredReads(v: Json)
    requires WellFormed(v)
    ensures Parse(StoredText(v)) == Some(v)
  {
    StoredRereads(v);
    PrintReads(StoredNumber, v, "");
    assert StoredText(v) + "" == StoredText(v);
  }

  /** Reading a signed text gives the value back, with each number as its format reads. */
  lemma SignedReads(format: Json -> string, v: Json)
    requires SignedText(format, v).Some? && Legible(SignedNumbers(format), v)
    ensures Parse(SignedText(format, v).value) == Some(Reread(SignedNumbers(format), v))
  {
    TextsExact(format, v);
    PrintReads(SignedNumbers(format), v, "");
    assert Print(SignedNumbers(format), v) + "" == Print(SignedNumbers(format), v);
  }
}
