/** What canonical text looks like: its literals and escapes, character by character, and its order of names. */
module CanonicalOrder {
  import opened JsonText
  import opened Json
  import opened Keys
  import opened ObjectGraph
  import Canonical
  import Seqs

  // ---- the order of names ----

  /** a comes before b: it is a proper prefix of b, or has the smaller unit where they first differ. */
  ghost predicate Precedes(a: Text, b: Text) {
    exists k :: 0 <= k <= |a| && k < |b| && a[..k] == b[..k] && (k == |a| || a[k] < b[k])
  }

  lemma {:induction false} LessIff(a: Text, b: Text)
    ensures Less(a, b) <==> Precedes(a, b)
  {
    if a == [] || b == [] {
      assert a == [] && b != [] ==> a[..0] == b[..0];
    } else {
      LessIff(a[1..], b[1..]);
      if Less(a, b) { LaterUnit(a, b); }
      if k :| 0 <= k <= |a| && k < |b| && a[..k] == b[..k] && (k == |a| || a[k] < b[k]) {
        if k > 0 {
          assert a[..k][0] == b[..k][0];
          assert a[1..][..k - 1] == a[..k][1..] && b[1..][..k - 1] == b[..k][1..];
        }
      }
    }
  }

  lemma LaterUnit(a: Text, b: Text)
    requires a != [] && b != [] && (a[0] < b[0] || (a[0] == b[0] && Precedes(a[1..], b[1..])))
    ensures Precedes(a, b)
  {
    if a[0] < b[0] {
      assert a[..0] == b[..0];
    } else {
      var k :| 0 <= k <= |a[1..]| && k < |b[1..]| && a[1..][..k] == b[1..][..k]
        && (k == |a[1..]| || a[1..][k] < b[1..][k]);
      assert a[..k + 1] == [a[0]] + a[1..][..k] && b[..k + 1] == [b[0]] + b[1..][..k];
    }
  }

  /** In every object of the value, at every level, each name precedes the next. */
  ghost predicate Ordered(v: Json)
    decreases v
  {
    match v
    case Arr(items) => forall i :: 0 <= i < |items| ==> Ordered(items[i])
    case Obj(members) =>
      && (forall i :: 0 <= i < |members| - 1 ==> Precedes(members[i].key, members[i + 1].key))
      && forall i :: 0 <= i < |members| ==> Ordered(members[i].val)
    case _ => true
  }

  lemma {:induction false} CanonOrdered(v: Json)
    requires Canonical.WellFormed(v)
    ensures Ordered(Canonical.Canon(v))
    decreases v
  {
    match v
    case Arr(items) =>
      forall i | 0 <= i < |items| ensures Ordered(Canonical.Canon(items[i])) {
        CanonOrdered(items[i]);
      }
    case Obj(members) =>
      var ks := Sort(Names(members));
      SortAscending(Names(members));
      forall i | 0 <= i < |ks| - 1 ensures Precedes(ks[i], ks[i + 1]) {
        LessIff(ks[i], ks[i + 1]);
      }
      forall i | 0 <= i < |ks| ensures Ordered(Canonical.Canon(Lookup(members, ks[i]))) {
        CanonOrdered(Lookup(members, ks[i]));
      }
    case _ =>
  }

  /** The value read back from canonical text has its names in this order at every level. */
  lemma ReadsOrdered(v: Json, rest: Text)
    requires Canonical.WellFormed(v) && Delimited(rest)
    ensures var r := ParseValue(Canonical.Stable(v) + rest);
            r.Read? && r.rest == rest && Ordered(r.value) && Canonical.Same(v, r.value)
  {
    Canonical.ParseStable(v, rest);
    CanonOrdered(v);
    Canonical.CanonWellFormed(v);
  }

  // ---- the characters ----

  /** The punctuation and the literals. */
  lemma Literals()
    ensures [COMMA, COLON, LBRACKET, RBRACKET, LBRACE, RBRACE, QUOTE, BACKSLASH] == Ascii(",:[]{}\"\\")
    ensures NULL_TEXT == Ascii("null") && TRUE_TEXT == Ascii("true") && FALSE_TEXT == Ascii("false")
  {
  }

  /** What each leaf is rendered as. */
  lemma Leaves(h: Graph, b: bool, num: NumberText, s: Text, seen: set<nat>)
    ensures Render(h, NullValue, seen) == Ok(Ascii("null"))
    ensures Render(h, Boolean(b), seen) == Ok(Ascii(if b then "true" else "false"))
    ensures Render(h, Number(Finite(num)), seen) == Ok(num)
    ensures Render(h, Number(MinusZero), seen) == Ok(Ascii("0"))
    ensures Render(h, String(s), seen) == Ok([0x22] + Escape(s) + [0x22])
  {
    Literals();
  }

  /** A hexadecimal digit as it is written: a figure or a small letter. */
  predicate SmallHex(u: CodeUnit) { u in Ascii("0123456789abcdef") }

  lemma DigitsAreSmall(d: int)
    requires 0 <= d < 16
    ensures SmallHex(HexDigit(d)) && HexDigit(d) == Ascii("0123456789abcdef")[d]
  {
  }

  /** The short escapes of section 7 of RFC 8259 that JSON.stringify uses. */
  lemma ShortEscapes()
    ensures EscapeUnit(0x22) == Ascii("\\\"") && EscapeUnit(0x5C) == Ascii("\\\\")
    ensures EscapeUnit(0x08) == Ascii("\\b") && EscapeUnit(0x0C) == Ascii("\\f") && EscapeUnit(0x0A) == Ascii("\\n")
    ensures EscapeUnit(0x0D) == Ascii("\\r") && EscapeUnit(0x09) == Ascii("\\t")
  {
  }

  /** All other controls, and halves of surrogate pairs, are written as four hexadecimal digits; the rest as it is. */
  lemma OtherEscapes(u: CodeUnit)
    requires u !in {0x22, 0x5C, 0x08, 0x0C, 0x0A, 0x0D, 0x09}
    ensures var t := EscapeUnit(u);
            if u < 0x20 || 0xD800 <= u <= 0xDFFF then
              && |t| == 6 && t[..2] == Ascii("\\u")
              && (forall i :: 2 <= i < 6 ==> SmallHex(t[i]))
              && HexValue(t[2]) * 0x1000 + HexValue(t[3]) * 0x100 + HexValue(t[4]) * 16 + HexValue(t[5]) == u as int
            else t == [u]
  {
    Hex4Value(u);
    SmallDigits(u);
  }

  lemma SmallDigits(u: CodeUnit)
    ensures forall i :: 0 <= i < 4 ==> SmallHex(Hex4(u)[i])
  {
    var n := u as int;
    var q := n / 16;
    var r := q / 16;
    DigitsAreSmall(r / 16);
    DigitsAreSmall(r % 16);
    DigitsAreSmall(q % 16);
    DigitsAreSmall(n % 16);
  }

  /** A string is escaped unit by unit, but surrogate pairs are copied. */
  lemma EscapesAll(s: Text)
    ensures s == [] ==> Escape(s) == []
    ensures |s| > 1 && 0xD800 <= s[0] <= 0xDBFF && 0xDC00 <= s[1] <= 0xDFFF ==> Escape(s) == s[..2] + Escape(s[2..])
    ensures s != [] && !(|s| > 1 && 0xD800 <= s[0] <= 0xDBFF && 0xDC00 <= s[1] <= 0xDFFF) ==>
              Escape(s) == EscapeUnit(s[0]) + Escape(s[1..])
  {
  }
}
