/** Number formats of the persistence grammar: Java's decimal printing of an
    `int` and of an integer-valued `float`, and the two token readers the parser
    hands its digit runs to (Integer.parseInt and Double.parseDouble). */
module Text {
  import opened Results

  const MIN_INT: int := -0x8000_0000
  const MAX_INT: int := 0x7fff_ffff

  /** Java's 32-bit `int`. */
  type Int32 = x: int | MIN_INT <= x <= MAX_INT

  predicate IsDigit(c: char) {
    '0' <= c <= '9'
  }

  predicate AllDigits(s: string) {
    s == [] || (IsDigit(s[0]) && AllDigits(s[1..]))
  }

  lemma AllDigitsAppend(s: string, t: string)
    requires AllDigits(s) && AllDigits(t)
    ensures AllDigits(s + t)
  {
    if s == [] {
      assert s + t == t;
    } else {
      assert (s + t)[0] == s[0];
      assert (s + t)[1..] == s[1..] + t;
      AllDigitsAppend(s[1..], t);
    }
  }

  lemma AllDigitsPrefix(s: string)
    requires AllDigits(s) && |s| > 0
    ensures AllDigits(s[..|s| - 1]) && IsDigit(s[|s| - 1])
  {
    if |s| > 1 {
      assert s[1..][..|s| - 2] == s[..|s| - 1][1..];
      AllDigitsPrefix(s[1..]);
    }
  }

  lemma AllDigitsAt(s: string, i: nat)
    requires AllDigits(s) && i < |s|
    ensures IsDigit(s[i])
  {
    if i > 0 {
      AllDigitsAt(s[1..], i - 1);
    }
  }

  function DigitChar(d: nat): (c: char)
    requires d < 10
    ensures IsDigit(c)
  {
    ('0' as int + d) as char
  }

  function DigitValue(c: char): (d: nat)
    requires IsDigit(c)
    ensures d < 10
  {
    c as int - '0' as int
  }

  /** Decimal digits of a natural number, most significant first, no leading zero. */
  function NatText(n: nat): (s: string)
    ensures |s| > 0 && AllDigits(s)
    ensures |s| > 1 ==> s[0] != '0'
  {
    if n < 10 then [DigitChar(n)]
    else
      var s := NatText(n / 10) + [DigitChar(n % 10)];
      AllDigitsAppend(NatText(n / 10), [DigitChar(n % 10)]);
      s
  }

  /** The value of a run of decimal digits (the empty run is 0). */
  function DigitsValue(s: string): nat
    requires AllDigits(s)
  {
    if s == [] then 0
    else
      AllDigitsPrefix(s);
      DigitsValue(s[..|s| - 1]) * 10 + DigitValue(s[|s| - 1])
  }

  function Pow10(n: nat): (p: nat)
    ensures p >= 1
  {
    if n == 0 then 1 else 10 * Pow10(n - 1)
  }

  lemma {:induction false} NatTextValue(n: nat)
    ensures DigitsValue(NatText(n)) == n
  {
    if n >= 10 {
      var s := NatText(n);
      NatTextValue(n / 10);
      assert s[..|s| - 1] == NatText(n / 10);
    }
  }

  /** Java's `String.valueOf(int)`: an optional minus sign, then the digits. */
  function IntText(n: int): string {
    if n < 0 then "-" + NatText(-n) else NatText(n)
  }

  /** Integer.parseInt restricted to the characters the parser collects
      (digits and '-'): an optional leading '-', at least one digit, and a value
      that fits in 32 bits. Anything else is a NumberFormatException. */
  function IntValue(token: string): (r: Option<Int32>)
    ensures r.Some? ==> |token| > 0
    ensures r.Some? && token[0] != '-' ==> AllDigits(token) && r.value == DigitsValue(token)
    ensures r.Some? && token[0] == '-' ==> AllDigits(token[1..]) && r.value == -(DigitsValue(token[1..]) as int)
  {
    var negative := |token| > 0 && token[0] == '-';
    var digits := if negative then token[1..] else token;
    if |digits| == 0 || !AllDigits(digits) then None
    else
      var v := if negative then -(DigitsValue(digits) as int) else DigitsValue(digits);
      if MIN_INT <= v <= MAX_INT then Some(v) else None
  }

  /** Characters of a printed int: a digit or '-'. */
  lemma IntTextChars(n: int)
    ensures |IntText(n)| > 0
    ensures forall i :: 0 <= i < |IntText(n)| ==> IsDigit(IntText(n)[i]) || IntText(n)[i] == '-'
  {
    var m: nat := if n < 0 then -n else n;
    forall i | 0 <= i < |NatText(m)| ensures IsDigit(NatText(m)[i]) {
      AllDigitsAt(NatText(m), i);
    }
  }

  /** Reading back what the writer printed yields the same `int`. */
  lemma IntRoundTrip(n: Int32)
    ensures IntValue(IntText(n)) == Some(n)
  {
    if n < 0 {
      var m: nat := -(n as int);
      var t := IntText(n);
      assert t[1..] == NatText(m);
      NatTextValue(m);
    } else {
      NatTextValue(n);
    }
  }

  /** An integer-valued float small enough that Java's Float.toString prints it
      in plain notation, as its integer digits followed by ".0". */
  predicate Printable(v: real) {
    v == v.Floor as real && -10000000.0 < v < 10000000.0
  }

  /** Float.toString of a printable float. */
  function FloatText(v: real): string
    requires Printable(v)
  {
    IntText(v.Floor) + ".0"
  }

  /** Index of the first '.' in s, or |s| when there is none. */
  function DotIndex(s: string): (k: nat)
    ensures k <= |s|
    ensures k < |s| ==> s[k] == '.'
  {
    if s == [] then 0 else if s[0] == '.' then 0 else 1 + DotIndex(s[1..])
  }

  /** Double.parseDouble restricted to the characters the parser collects
      (digits, '-' and '.'): an optional leading '-', then digits with at most one
      '.', and at least one digit. The value is the exact decimal. */
  function DecimalValue(token: string): (r: Option<real>)
    ensures r.Some? ==> |token| > 0
  {
    if |token| > 0 && token[0] == '-' then
      match UnsignedValue(token[1..])
      case None => None
      case Some(m) => Some(-m)
    else UnsignedValue(token)
  }

  /** Digits with at most one '.', and at least one digit. */
  function UnsignedValue(body: string): (r: Option<real>)
    ensures r.Some? ==> |body| > 0 && r.value >= 0.0
  {
    var dot := DotIndex(body);
    var whole := body[..dot];
    var frac := if dot < |body| then body[dot + 1..] else "";
    if !AllDigits(whole) || !AllDigits(frac) || (|whole| == 0 && |frac| == 0) then None
    else Some(Magnitude(whole, frac))
  }

  /** The value of "<whole>.<frac>". */
  function Magnitude(whole: string, frac: string): (m: real)
    requires AllDigits(whole) && AllDigits(frac)
    ensures m >= 0.0
  {
    DigitsValue(whole) as real + FractionValue(frac)
  }

  /** The value of the digits after the point: 0.d1d2... = (d1 + 0.d2...) / 10. */
  function FractionValue(frac: string): (f: real)
    requires AllDigits(frac)
    ensures 0.0 <= f <= 1.0
  {
    if frac == [] then 0.0 else (DigitValue(frac[0]) as real + FractionValue(frac[1..])) / 10.0
  }

  /** Reading back what the writer printed yields the same float. */
  lemma FloatRoundTrip(v: real)
    requires Printable(v)
    ensures DecimalValue(FloatText(v)) == Some(v)
  {
    var n := v.Floor;
    if n < 0 {
      var m: nat := -n;
      NatTextValue(m);
      assert FloatText(v) == "-" + (NatText(m) + ".0");
      UnsignedDecimal(NatText(m));
      assert (FloatText(v))[1..] == NatText(m) + ".0";
    } else {
      NatTextValue(n);
      assert FloatText(v) == NatText(n) + ".0";
      UnsignedDecimal(NatText(n));
    }
  }

  /** The value of "<digits>.0". */
  lemma UnsignedDecimal(digits: string)
    requires |digits| > 0 && AllDigits(digits)
    ensures UnsignedValue(digits + ".0") == Some(DigitsValue(digits) as real)
  {
    var body := digits + ".0";
    DotOfDigits(digits, ".0");
    var dot := DotIndex(body);
    assert body[..dot] == digits;
    assert body[dot + 1..] == "0";
    UnsignedParts(body);
    MagnitudeOfWhole(digits);
  }

  lemma UnsignedParts(body: string)
    requires DotIndex(body) < |body|
    requires AllDigits(body[..DotIndex(body)]) && AllDigits(body[DotIndex(body) + 1..])
    requires |body[..DotIndex(body)]| > 0
    ensures UnsignedValue(body) == Some(Magnitude(body[..DotIndex(body)], body[DotIndex(body) + 1..]))
  {
  }

  lemma MagnitudeOfWhole(digits: string)
    requires AllDigits(digits)
    ensures Magnitude(digits, "0") == DigitsValue(digits) as real
  {
    assert FractionValue("0") == 0.0 by {
      assert "0"[1..] == [];
    }
  }

  lemma DotOfDigits(digits: string, rest: string)
    requires AllDigits(digits) && |rest| > 0 && rest[0] == '.'
    ensures DotIndex(digits + rest) == |digits|
  {
    if digits != [] {
      assert (digits + rest)[1..] == digits[1..] + rest;
      DotOfDigits(digits[1..], rest);
    }
  }

  /** Characters of a printed float: a digit, '-' or '.'. */
  lemma FloatTextChars(v: real)
    requires Printable(v)
    ensures |FloatText(v)| > 0
    ensures forall i :: 0 <= i < |FloatText(v)| ==>
      IsDigit(FloatText(v)[i]) || FloatText(v)[i] == '-' || FloatText(v)[i] == '.'
  {
    IntTextChars(v.Floor);
  }
}
