/** Numbers as the statement pipeline reads and writes them: parseFloat over decimal text,
    Number.prototype.toFixed(2) and Math.round, all on exact reals. */
module Numbers {
  import opened Wrappers
  import opened Text

  /** The length of the run of decimal digits that starts s. */
  function LeadingDigits(s: string): (n: nat)
    ensures n <= |s|
    ensures AllDigits(s[..n])
    ensures n < |s| ==> !IsDigit(s[n])
  {
    if s == [] || !IsDigit(s[0]) then 0
    else
      var n := 1 + LeadingDigits(s[1..]);
      assert s[..n] == [s[0]] + s[1..][..n - 1];
      n
  }

  /** A run of digits followed by a non-digit (or nothing) is exactly the leading run. */
  lemma {:induction false} LeadingDigitsOf(ds: string, rest: string)
    requires AllDigits(ds)
    requires rest == [] || !IsDigit(rest[0])
    ensures LeadingDigits(ds + rest) == |ds|
    decreases |ds|
  {
    if ds != [] {
      assert (ds + rest)[1..] == ds[1..] + rest;
      LeadingDigitsOf(ds[1..], rest);
    } else {
      assert ds + rest == rest;
    }
  }

  /** The value of the digits after a decimal point. */
  function FractionValue(ds: string): real
    requires AllDigits(ds)
  {
    DigitsValue(ds) as real / Pow10(|ds|) as real
  }

  /** The unsigned part of a decimal number: the longest prefix of the form digits[.digits]
      with at least one digit; whatever follows is ignored. None stands for NaN. */
  function ParseUnsigned(body: string): Option<real>
  {
    var n := LeadingDigits(body);
    var hasPoint := n < |body| && body[n] == '.';
    var m := if hasPoint then LeadingDigits(body[n + 1..]) else 0;
    if n == 0 && m == 0 then None
    else
      var fraction := if hasPoint then FractionValue(body[n + 1..][..m]) else 0.0;
      Some(DigitsValue(body[..n]) as real + fraction)
  }

  /** parseFloat on decimal text: white space is skipped, then an optional sign, then the
      unsigned part. None stands for NaN. */
  function ParseFloat(s: string): Option<real>
  {
    var t := TrimStart(s);
    if |t| > 0 && t[0] == '-' then
      match ParseUnsigned(t[1..])
      case None => None
      case Some(v) => Some(-v)
    else if |t| > 0 && t[0] == '+' then ParseUnsigned(t[1..])
    else ParseUnsigned(t)
  }

  function Abs(x: real): (r: real)
    ensures r >= 0.0 && (r == x || r == -x)
  {
    if x < 0.0 then -x else x
  }

  /** Math.round: the nearest integer, halves going up. */
  function Round(x: real): (r: int)
    ensures x - 0.5 < r as real <= x + 0.5
  {
    (x + 0.5).Floor
  }

  lemma RoundMonotonic(x: real, y: real)
    requires x <= y
    ensures Round(x) <= Round(y)
  {
  }

  /** The whole number of hundredths toFixed(2) prints for |x|. */
  function Cents(x: real): nat
  {
    var c := Round(Abs(x) * 100.0);
    assert c >= 0;
    c
  }

  /** The unsigned text toFixed(2) prints for c hundredths. */
  function CentsText(c: nat): string
  {
    NatToString(c / 100) + "." + [DigitChar(c / 10 % 10), DigitChar(c % 10)]
  }

  /** Number.prototype.toFixed(2): an optional minus sign (exactly when x < 0), the whole
      part, a point and exactly two digits; never a comma. */
  function ToFixed2(x: real): string
  {
    SignedText(Cents(x), x < 0.0)
  }

  /** The text printed for c hundredths, with a minus sign in front when negative. */
  function SignedText(c: nat, negative: bool): string
  {
    (if negative then "-" else "") + CentsText(c)
  }

  /** The printed text: an optional minus sign (exactly when x < 0), the whole part, a point
      and exactly two digits; never a comma or a quote, so it is a plain CSV field. */
  lemma ToFixed2Shape(x: real)
    ensures var s := ToFixed2(x);
      && |s| >= 4 && s[|s| - 3] == '.' && IsDigit(s[|s| - 2]) && IsDigit(s[|s| - 1])
      && ',' !in s && '"' !in s
      && (x < 0.0 <==> s[0] == '-')
  {
    var whole := NatToString(Cents(x) / 100);
    assert forall i :: 0 <= i < |whole| ==> IsDigit(whole[i]);
  }

  /** The value toFixed(2) denotes: x rounded to hundredths, halves away from zero. */
  function Rounded2(x: real): real
  {
    SignedValue(Cents(x), x < 0.0)
  }

  /** The value of c hundredths, negated when negative. */
  function SignedValue(c: nat, negative: bool): real
  {
    if negative then -(c as real / 100.0) else c as real / 100.0
  }

  /** The printed amount is within half a cent of the amount. */
  lemma Rounded2Close(x: real)
    ensures Abs(Rounded2(x) - x) <= 0.005
  {
  }

  /** parseFloat reads back the text String(n) of a natural number. */
  lemma ParseFloatNat(n: nat)
    ensures ParseFloat(NatToString(n)) == Some(n as real)
  {
    var s := NatToString(n);
    assert LeadingSpaces(s) == 0 by { assert !IsSpace(s[0]); }
    LeadingDigitsOf(s, []);
    assert s + [] == s;
    assert s[..|s|] == s;
  }

  /** Text that starts with a digit is read by parseFloat as its unsigned part, and with a
      minus sign in front as the negation of it. */
  lemma ParseFloatSigned(s: string, body: string, v: real, negative: bool)
    requires body != [] && IsDigit(body[0])
    requires ParseUnsigned(body) == Some(v)
    requires s == (if negative then "-" else "") + body
    ensures ParseFloat(s) == Some(if negative then -v else v)
  {
    assert LeadingSpaces(s) == 0 by { assert !IsSpace(s[0]); }
    if negative {
      assert s[1..] == body;
    }
  }

  /** digits.digits is read as the whole part plus the fraction. */
  lemma ParseUnsignedPoint(whole: string, frac: string)
    requires whole != [] && AllDigits(whole)
    requires frac != [] && AllDigits(frac)
    ensures ParseUnsigned(whole + "." + frac) == Some(DigitsValue(whole) as real + FractionValue(frac))
  {
    var body := whole + "." + frac;
    LeadingDigitsOf(whole, "." + frac);
    assert body == whole + ("." + frac);
    assert body[..|whole|] == whole;
    assert body[|whole| + 1..] == frac;
    LeadingDigitsOf(frac, []);
    assert frac + [] == frac;
    assert frac[..|frac|] == frac;
  }

  /** Two digits after the point are worth d1 tenths and d2 hundredths. */
  lemma TwoDigitFraction(d1: nat, d2: nat)
    requires d1 < 10 && d2 < 10
    ensures FractionValue([DigitChar(d1), DigitChar(d2)]) == (10 * d1 + d2) as real / 100.0
  {
    var frac := [DigitChar(d1), DigitChar(d2)];
    assert frac[..1] == [DigitChar(d1)];
    assert [DigitChar(d1)][..0] == [];
    assert DigitsValue([DigitChar(d1)]) == d1;
    assert DigitsValue(frac) == 10 * d1 + d2;
    assert Pow10(2) == 100;
  }

  lemma CentsSplit(c: nat)
    ensures (c / 100) as real + (10 * (c / 10 % 10) + c % 10) as real / 100.0 == c as real / 100.0
  {
    var q, r := c / 100, c % 100;
    LastTwoDigits(c);
    assert c == 100 * q + r;
    Hundredths(q, r);
  }

  lemma LastTwoDigits(c: nat)
    ensures 10 * (c / 10 % 10) + c % 10 == c % 100
  {
    var q, r := c / 100, c % 100;
    var a, b := r / 10, r % 10;
    assert c == 10 * (10 * q + a) + b;
    assert c / 10 == 10 * q + a;
    assert c % 10 == b;
  }

  lemma Hundredths(q: int, r: int)
    ensures q as real + r as real / 100.0 == (100 * q + r) as real / 100.0
  {
  }

  /** The unsigned text printed for c hundredths is read back as c / 100. */
  lemma ParseCentsText(c: nat)
    ensures ParseUnsigned(CentsText(c)) == Some(c as real / 100.0)
  {
    var d1, d2 := c / 10 % 10, c % 10;
    ParseUnsignedPoint(NatToString(c / 100), [DigitChar(d1), DigitChar(d2)]);
    TwoDigitFraction(d1, d2);
    CentsSplit(c);
  }

  /** The signed text printed for c hundredths is read back as the signed value. */
  lemma ParseSignedCents(c: nat, negative: bool)
    ensures ParseFloat(SignedText(c, negative))
         == Some(SignedValue(c, negative))
  {
    ParseCentsText(c);
    CentsTextLeadingDigit(c);
    ParseFloatSigned(SignedText(c, negative), CentsText(c), c as real / 100.0, negative);
  }

  lemma CentsTextLeadingDigit(c: nat)
    ensures CentsText(c) != [] && IsDigit(CentsText(c)[0])
  {
    var w := NatToString(c / 100);
    assert CentsText(c)[0] == w[0];
  }

  /** parseFloat reads back exactly the value toFixed(2) printed: the amount the local
      parser writes into a canonical line is the amount the ledger builder reads. */
  lemma ParseToFixed2(x: real)
    ensures ParseFloat(ToFixed2(x)) == Some(Rounded2(x))
  {
    ParseSignedCents(Cents(x), x < 0.0);
  }
}
