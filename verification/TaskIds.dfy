/** Task ids: numbers or names, compared sometimes by value and sometimes by their text. */
module TaskIds {

  datatype Id = Number(n: int) | Name(s: string)

  predicate IsDigit(c: char) { '0' <= c <= '9' }

  function Digit(d: nat): char
    requires d < 10
  {
    '0' + d as char
  }

  function DigitValue(c: char): (d: nat)
    requires IsDigit(c)
    ensures d < 10 && Digit(d) == c
  {
    (c - '0') as nat
  }

  predicate AllDigits(s: string) { forall i :: 0 <= i < |s| ==> IsDigit(s[i]) }

  function Decimal(n: nat): (s: string)
    ensures s != [] && AllDigits(s)
  {
    if n < 10 then [Digit(n)] else Decimal(n / 10) + [Digit(n % 10)]
  }

  /** Any digits, leading zeros included. */
  function Digits(s: string): nat
    requires AllDigits(s)
  {
    if s == [] then 0 else 10 * Digits(s[..|s| - 1]) + DigitValue(s[|s| - 1])
  }

  /** What String(id) gives. */
  function Key(id: Id): string {
    match id
    case Name(s) => s
    case Number(n) => if n < 0 then "-" + Decimal(-n) else Decimal(n)
  }

  /** An optional minus sign and at least one digit. */
  predicate IsIntegerText(s: string) {
    || (s != [] && AllDigits(s))
    || (|s| > 1 && s[0] == '-' && AllDigits(s[1..]))
  }

  function IntegerValue(s: string): int
    requires IsIntegerText(s)
  {
    if s[0] == '-' then 0 - Digits(s[1..]) else Digits(s)
  }

  /** An id whose text is an integer becomes that number. */
  function Coerce(id: Id): Id { if IsIntegerText(Key(id)) then Number(IntegerValue(Key(id))) else id }

  /** Coercing the id does not change its text. */
  predicate Canonical(id: Id) { Key(Coerce(id)) == Key(id) }

  lemma {:induction false} DigitsDecimal(n: nat)
    ensures Digits(Decimal(n)) == n
  {
    if n < 10 {
      assert [Digit(n)][..0] == [];
    } else {
      DigitsDecimal(n / 10);
      var s := Decimal(n / 10) + [Digit(n % 10)];
      assert s[..|s| - 1] == Decimal(n / 10);
    }
  }

  /** Numbers are canonical; only names like 01 or -0 are not. */
  lemma NumberCanonical(n: int)
    ensures Coerce(Number(n)) == Number(n) && Canonical(Number(n))
  {
    var s := Key(Number(n));
    if n < 0 {
      DigitsDecimal(-n);
      assert s[1..] == Decimal(-n);
    } else {
      DigitsDecimal(n);
      assert s[0] != '-';
    }
  }

  // ---- names that are numbers ----

  /** A number without zeros in front of it is the decimal text of what it denotes. */
  lemma {:induction false} DecimalDigits(d: string)
    requires d != "" && AllDigits(d) && (|d| == 1 || d[0] != '0')
    ensures Decimal(Digits(d)) == d && (d[0] != '0' ==> Digits(d) > 0)
  {
    var n := |d| - 1;
    if n == 0 {
      assert d[..0] == [] && d == [d[0]];
      assert Digit(DigitValue(d[0])) == d[0];
      assert d[0] != '0' ==> DigitValue(d[0]) > 0;
    } else {
      assert d[..n][0] == d[0] && d == d[..n] + [d[n]];
      DecimalDigits(d[..n]);
      assert Digits(d) / 10 == Digits(d[..n]) && Digits(d) % 10 == DigitValue(d[n]);
    }
  }

  /** A zero in front changes nothing. */
  lemma {:induction false} ZeroInFront(d: string)
    requires AllDigits(d)
    ensures Digits("0" + d) == Digits(d)
  {
    if d == "" {
      assert "0" + d == "0" && "0"[..0] == "";
      assert DigitValue('0') == 0 by { assert Digit(0) == '0'; }
    } else {
      var n := |d| - 1;
      assert ("0" + d)[..n + 1] == "0" + d[..n];
      ZeroInFront(d[..n]);
    }
  }

  lemma {:induction false} NoZeroInFront(n: nat)
    ensures n > 0 ==> Decimal(n)[0] != '0'
    ensures Decimal(0) == "0"
  {
    if n >= 10 { NoZeroInFront(n / 10); }
    assert Digit(0) == '0';
  }

  /** Names that are decimal numbers, whatever zeros are in front, become those numbers, and all others stay. */
  lemma CoercesExactly(d: string)
    ensures d != "" && AllDigits(d) ==>
              Coerce(Name(d)) == Number(Digits(d)) && Coerce(Name("-" + d)) == Number(-(Digits(d) as int))
    ensures !(d != "" && AllDigits(d)) && !(|d| > 1 && d[0] == '-' && AllDigits(d[1..])) ==> Coerce(Name(d)) == Name(d)
  {
    assert ("-" + d)[1..] == d;
  }

  /** Without a zero too many in front, the digits are the text of their number; with one, they are not. */
  lemma DigitsText(d: string)
    requires d != "" && AllDigits(d)
    ensures Decimal(Digits(d)) == d <==> |d| == 1 || d[0] != '0'
    ensures d[0] != '0' ==> Digits(d) > 0
    ensures Digits(d) > 0 && Decimal(Digits(d)) == d ==> d[0] != '0'
  {
    NoZeroInFront(Digits(d));
    if |d| == 1 || d[0] != '0' { DecimalDigits(d); }
  }

  /** The names that change their text: those with a zero too many in front, and minus zero. */
  lemma CanonicalIff(d: string)
    requires d != "" && AllDigits(d)
    ensures Canonical(Name(d)) <==> |d| == 1 || d[0] != '0'
    ensures Canonical(Name("-" + d)) <==> d[0] != '0'
  {
    CoercesExactly(d);
    DigitsText(d);
    Negated(d, Decimal(Digits(d)));
    if Digits(d) == 0 { NoMinus(); }
  }

  lemma Negated(a: string, b: string)
    ensures "-" + a == "-" + b <==> a == b
  {
    assert ("-" + a)[1..] == a && ("-" + b)[1..] == b;
  }

  lemma NoMinus()
    ensures Decimal(0)[0] != '-'
  {
    assert Digit(0) == '0';
  }
}
