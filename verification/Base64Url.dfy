/** URL-safe base64 without padding, as in section 5 of RFC 4648: three bytes become four digits. */
module Base64Url {
  type Byte = b: nat | b < 256

  /** A digit's six bits. */
  type Six = v: nat | v < 64

  function Digit(v: Six): char {
    if v < 26 then 'A' + v as char
    else if v < 52 then 'a' + (v - 26) as char
    else if v < 62 then '0' + (v - 52) as char
    else if v == 62 then '-' else '_'
  }

  function First(a: Byte): Six { a / 4 }

  function Second(a: Byte, b: Byte): Six { a % 4 * 16 + b / 16 }

  function Third(b: Byte, c: Byte): Six { b % 16 * 4 + c / 64 }

  function Fourth(c: Byte): Six { c % 64 }

  function Encode(bytes: seq<Byte>): string {
    if bytes == [] then ""
    else if |bytes| == 1 then [Digit(First(bytes[0])), Digit(Second(bytes[0], 0))]
    else if |bytes| == 2 then
      [Digit(First(bytes[0])), Digit(Second(bytes[0], bytes[1])), Digit(Third(bytes[1], 0))]
    else Group(bytes[0], bytes[1], bytes[2]) + Encode(bytes[3..])
  }

  function Group(a: Byte, b: Byte, c: Byte): string {
    [Digit(First(a)), Digit(Second(a, b)), Digit(Third(b, c)), Digit(Fourth(c))]
  }

  predicate IsDigit(c: char) {
    'A' <= c <= 'Z' || 'a' <= c <= 'z' || '0' <= c <= '9' || c == '-' || c == '_'
  }

  function Value(c: char): Six
    requires IsDigit(c)
  {
    if 'A' <= c <= 'Z' then c as int - 'A' as int
    else if 'a' <= c <= 'z' then c as int - 'a' as int + 26
    else if '0' <= c <= '9' then c as int - '0' as int + 52
    else if c == '-' then 62 else 63
  }

  lemma DigitValue(v: Six)
    ensures IsDigit(Digit(v)) && Value(Digit(v)) == v
  {
  }

  lemma ValueDigit(c: char)
    requires IsDigit(c)
    ensures Digit(Value(c)) == c
  {
  }

  lemma Bits(p: Six, q: Six, r: Six, s: Six) returns (a: Byte, b: Byte, c: Byte)
    ensures First(a) == p && Second(a, b) == q && Third(b, c) == r && Fourth(c) == s
    ensures r % 4 == 0 ==> Third(b, 0) == r
  {
    a, b, c := p * 4 + q / 16, q % 16 * 16 + r / 4, r % 4 * 64 + s;
  }

  /** The text of two bytes more than a multiple of three: digits, the last with two zero bits. */
  predicate Regular(s: string) {
    |s| % 4 == 3 && (forall c :: c in s ==> IsDigit(c)) && Value(s[|s| - 1]) % 4 == 0
  }

  lemma GroupDigits(a: Byte, b: Byte, c: Byte)
    ensures forall x :: x in Group(a, b, c) ==> IsDigit(x)
  {
    DigitValue(First(a));
    DigitValue(Second(a, b));
    DigitValue(Third(b, c));
    DigitValue(Fourth(c));
  }

  lemma RegularConcat(group: string, rest: string)
    requires |group| == 4 && (forall c :: c in group ==> IsDigit(c))
    ensures Regular(group + rest) <==> Regular(rest)
  {
    var s := group + rest;
    assert |s| % 4 == |rest| % 4;
    if rest != [] { assert s[|s| - 1] == rest[|rest| - 1]; }
    assert forall c :: c in rest ==> c in s;
  }

  lemma {:induction false} EncodeRegular(bytes: seq<Byte>)
    requires |bytes| % 3 == 2
    ensures Regular(Encode(bytes)) && |Encode(bytes)| == |bytes| / 3 * 4 + 3
  {
    if |bytes| == 2 {
      DigitValue(First(bytes[0]));
      DigitValue(Second(bytes[0], bytes[1]));
      DigitValue(Third(bytes[1], 0));
    } else {
      GroupDigits(bytes[0], bytes[1], bytes[2]);
      EncodeRegular(bytes[3..]);
      RegularConcat(Group(bytes[0], bytes[1], bytes[2]), Encode(bytes[3..]));
    }
  }

  /** Every such text is the text of some bytes. */
  lemma {:induction false} Decode(s: string) returns (bytes: seq<Byte>)
    requires Regular(s)
    ensures |bytes| == |s| / 4 * 3 + 2 && Encode(bytes) == s
  {
    assert s[0] in s && s[1] in s && s[2] in s;
    ValueDigit(s[0]);
    ValueDigit(s[1]);
    ValueDigit(s[2]);
    if |s| == 3 {
      var a, b, c := Bits(Value(s[0]), Value(s[1]), Value(s[2]), 0);
      bytes := [a, b];
    } else {
      assert s[3] in s && s == s[..4] + s[4..];
      ValueDigit(s[3]);
      var a, b, c := Bits(Value(s[0]), Value(s[1]), Value(s[2]), Value(s[3]));
      RegularConcat(s[..4], s[4..]);
      var rest := Decode(s[4..]);
      bytes := [a, b, c] + rest;
      assert bytes[3..] == rest && Group(a, b, c) == s[..4];
    }
  }

  /** Whether the text is the canonical text of 32 bytes. */
  predicate Is32Bytes(s: string) {
    |s| == 43 && (forall i :: 0 <= i < 43 ==> IsDigit(s[i])) && Value(s[42]) % 4 == 0
  }

  lemma Is32BytesExact(s: string)
    ensures Is32Bytes(s) <==> exists bytes: seq<Byte> :: |bytes| == 32 && Encode(bytes) == s
  {
    if Is32Bytes(s) {
      var bytes := Decode(s);
    }
    if bytes: seq<Byte> :| |bytes| == 32 && Encode(bytes) == s {
      EncodeRegular(bytes);
      assert forall i :: 0 <= i < |s| ==> s[i] in s;
    }
  }
}
