/**
 JSON string literals over UTF-16 code units: the quoting that JSON.stringify performs
 (RFC 8259, section 7; lone surrogates are escaped) and a reader that inverts it.
 */
module JsonText {
  import Seqs

  newtype CodeUnit = u: int | 0 <= u < 0x10000

  type Text = seq<CodeUnit>

  const QUOTE: CodeUnit := 0x22
  const BACKSLASH: CodeUnit := 0x5C
  const LETTER_U: CodeUnit := 0x75

  /** Plain characters as code units. */
  function Ascii(s: string): (t: Text)
    ensures |t| == |s|
    ensures forall i :: 0 <= i < |s| && s[i] < 128 as char ==> t[i] == s[i] as int as CodeUnit
  {
    seq(|s|, i requires 0 <= i < |s| => if s[i] < 128 as char then s[i] as int as CodeUnit else 0xFFFD)
  }

  /** The outcome of reading a prefix of a text: what was read, and what is left. */
  datatype Scan<+T> = Fail | Read(value: T, rest: Text)

  predicate IsHigh(u: CodeUnit) { 0xD800 <= u <= 0xDBFF }

  predicate IsLow(u: CodeUnit) { 0xDC00 <= u <= 0xDFFF }

  predicate StartsWithPair(s: Text) { |s| >= 2 && IsHigh(s[0]) && IsLow(s[1]) }

  function HexDigit(d: int): CodeUnit
    requires 0 <= d < 16
  {
    (if d < 10 then 0x30 + d else 0x61 + (d - 10)) as CodeUnit
  }

  function HexValue(u: CodeUnit): (d: int)
    ensures -1 <= d < 16
  {
    if 0x30 <= u <= 0x39 then u as int - 0x30
    else if 0x61 <= u <= 0x66 then u as int - 0x61 + 10
    else if 0x41 <= u <= 0x46 then u as int - 0x41 + 10
    else -1
  }

  function Hex4(u: CodeUnit): (t: Text)
    ensures |t| == 4
  {
    var n := u as int;
    var q := n / 16;
    var r := q / 16;
    [HexDigit(r / 16), HexDigit(r % 16), HexDigit(q % 16), HexDigit(n % 16)]
  }

  /** The two-character escape letter of a unit, or 0 when it has none. */
  function ShortEscape(u: CodeUnit): CodeUnit {
    if u == 0x08 then 0x62
    else if u == 0x09 then 0x74
    else if u == 0x0A then 0x6E
    else if u == 0x0C then 0x66
    else if u == 0x0D then 0x72
    else if u == QUOTE then QUOTE
    else if u == BACKSLASH then BACKSLASH
    else 0
  }

  /** One unit that is not half of a surrogate pair. */
  function EscapeUnit(u: CodeUnit): (t: Text)
    ensures |t| >= 1
  {
    if ShortEscape(u) != 0 then [BACKSLASH, ShortEscape(u)]
    else if u < 0x20 || IsHigh(u) || IsLow(u) then [BACKSLASH, LETTER_U] + Hex4(u)
    else [u]
  }

  /** The inside of a string literal: pairs are copied, lone surrogates and controls are escaped. */
  function Escape(s: Text): Text {
    if s == [] then []
    else if StartsWithPair(s) then s[..2] + Escape(s[2..])
    else EscapeUnit(s[0]) + Escape(s[1..])
  }

  function Quote(s: Text): (t: Text)
    ensures |t| >= 2 && t[0] == QUOTE
  {
    [QUOTE] + Escape(s) + [QUOTE]
  }

  /** Reads one raw or escaped unit of a string literal. */
  function ReadUnit(t: Text): (r: Scan<CodeUnit>)
    ensures r.Read? ==> |r.rest| < |t|
  {
    if t == [] || t[0] < 0x20 || t[0] == QUOTE then Fail
    else if t[0] != BACKSLASH then Read(t[0], t[1..])
    else if |t| < 2 then Fail
    else if t[1] == QUOTE || t[1] == BACKSLASH || t[1] == 0x2F then Read(t[1], t[2..])
    else if t[1] == 0x62 then Read(0x08, t[2..])
    else if t[1] == 0x74 then Read(0x09, t[2..])
    else if t[1] == 0x6E then Read(0x0A, t[2..])
    else if t[1] == 0x66 then Read(0x0C, t[2..])
    else if t[1] == 0x72 then Read(0x0D, t[2..])
    else if t[1] != LETTER_U || |t| < 6 then Fail
    else
      var a, b, c, d := HexValue(t[2]), HexValue(t[3]), HexValue(t[4]), HexValue(t[5]);
      if a < 0 || b < 0 || c < 0 || d < 0 then Fail
      else Read((a * 0x1000 + b * 0x100 + c * 16 + d) as CodeUnit, t[6..])
  }

  /** Reads the rest of a string literal, after its opening quote, through its closing quote. */
  function ReadString(t: Text): (r: Scan<Text>)
    ensures r.Read? ==> |r.rest| < |t|
  {
    if t == [] then Fail
    else if t[0] == QUOTE then Read([], t[1..])
    else
      match ReadUnit(t)
      case Fail => Fail
      case Read(u, rest) =>
        match ReadString(rest)
        case Fail => Fail
        case Read(us, end) => Read([u] + us, end)
  }

  lemma HexDigitValue(d: int)
    requires 0 <= d < 16
    ensures HexValue(HexDigit(d)) == d
  {
  }

  lemma Hex4Value(u: CodeUnit)
    ensures var h := Hex4(u);
            && (forall i :: 0 <= i < 4 ==> HexValue(h[i]) >= 0)
            && HexValue(h[0]) * 0x1000 + HexValue(h[1]) * 0x100 + HexValue(h[2]) * 16 + HexValue(h[3]) == u as int
  {
    var n := u as int;
    var q := n / 16;
    var r := q / 16;
    HexDigitValue(r / 16);
    HexDigitValue(r % 16);
    HexDigitValue(q % 16);
    HexDigitValue(n % 16);
  }

  lemma ReadUnitEscape(u: CodeUnit, rest: Text)
    ensures ReadUnit(EscapeUnit(u) + rest) == Read(u, rest)
    ensures EscapeUnit(u)[0] != QUOTE
  {
    var t := EscapeUnit(u) + rest;
    assert t[|EscapeUnit(u)|..] == rest;
    if ShortEscape(u) == 0 && (u < 0x20 || IsHigh(u) || IsLow(u)) {
      Hex4Value(u);
      assert t[2..6] == Hex4(u);
      assert t[2] == Hex4(u)[0] && t[3] == Hex4(u)[1] && t[4] == Hex4(u)[2] && t[5] == Hex4(u)[3];
    }
  }

  lemma ReadStringCons(t: Text, u: CodeUnit, tail: Text, us: Text, rest: Text)
    requires t != [] && t[0] != QUOTE
    requires ReadUnit(t) == Read(u, tail)
    requires ReadString(tail) == Read(us, rest)
    ensures ReadString(t) == Read([u] + us, rest)
  {
  }

  lemma ReadPair(s: Text, tail: Text, us: Text, rest: Text)
    requires StartsWithPair(s)
    requires ReadString(tail) == Read(us, rest)
    ensures ReadString(s[..2] + tail) == Read(s[..2] + us, rest)
  {
    var t := s[..2] + tail;
    assert t[1..][1..] == tail;
    ReadStringCons(t[1..], s[1], tail, us, rest);
    ReadStringCons(t, s[0], t[1..], [s[1]] + us, rest);
    assert [s[0]] + ([s[1]] + us) == s[..2] + us;
  }

  /** Reading inverts escaping, whatever follows the closing quote. */
  lemma {:induction false} ReadStringEscape(s: Text, end: Text)
    requires end != [] && end[0] == QUOTE
    ensures ReadString(Escape(s) + end) == Read(s, end[1..])
  {
    if s == [] {
      assert Escape(s) + end == end;
    } else if StartsWithPair(s) {
      ReadStringEscape(s[2..], end);
      ReadPair(s, Escape(s[2..]) + end, s[2..], end[1..]);
      Seqs.Assoc(s[..2], Escape(s[2..]), end);
      assert s[..2] + s[2..] == s;
    } else {
      var tail := Escape(s[1..]) + end;
      ReadUnitEscape(s[0], tail);
      ReadStringEscape(s[1..], end);
      ReadStringCons(EscapeUnit(s[0]) + tail, s[0], tail, s[1..], end[1..]);
      Seqs.Assoc(EscapeUnit(s[0]), Escape(s[1..]), end);
      Seqs.HeadTail(s);
    }
  }

  /** A quoted literal followed by anything reads back as its string and exactly that remainder. */
  lemma ReadQuoted(s: Text, rest: Text)
    ensures ReadString((Quote(s) + rest)[1..]) == Read(s, rest)
  {
    assert (Quote(s) + rest)[1..] == Escape(s) + ([QUOTE] + rest);
    ReadStringEscape(s, [QUOTE] + rest);
  }

  predicate Printable(t: Text) { forall i :: 0 <= i < |t| ==> t[i] >= 0x20 }

  lemma {:induction false} EscapePrintable(s: Text)
    ensures Printable(Escape(s))
  {
    if s == [] {
    } else if StartsWithPair(s) {
      EscapePrintable(s[2..]);
    } else {
      EscapePrintable(s[1..]);
    }
  }
}
