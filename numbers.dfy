/**
 * Numbers as the formula editor sees them: JavaScript's `parseFloat`, which reads the longest
 * numeric prefix of its argument, and the plain decimal text a number prints as when the
 * formula is joined into an expression string. Numbers are exact decimals, not doubles.
 */
module Numbers {
  import opened Wrappers
  import opened Strings

  function Pow10(n: nat): (p: nat)
    ensures p >= 1
  {
    if n == 0 then 1 else 10 * Pow10(n - 1)
  }

  predicate IsDigit(c: char) {
    '0' <= c <= '9'
  }

  predicate AllDigits(s: string) {
    forall i :: 0 <= i < |s| ==> IsDigit(s[i])
  }

  function DigitValue(c: char): nat {
    if IsDigit(c) then c as int - '0' as int else 0
  }

  function DigitChar(n: nat): (c: char)
    requires n < 10
    ensures IsDigit(c) && DigitValue(c) == n
  {
    ('0' as int + n) as char
  }

  /** The number a string of decimal digits denotes, most significant digit first. */
  function DigitsValue(s: string): nat {
    if s == [] then 0 else DigitsValue(s[..|s| - 1]) * 10 + DigitValue(s[|s| - 1])
  }

  lemma DigitsValueSnoc(s: string, c: char)
    ensures DigitsValue(s + [c]) == DigitsValue(s) * 10 + DigitValue(c)
  {
    assert (s + [c])[..|s|] == s;
  }

  lemma {:induction false} DigitsValueAppend(a: string, b: string)
    ensures DigitsValue(a + b) == DigitsValue(a) * Pow10(|b|) + DigitsValue(b)
  {
    if b == [] {
      assert a + b == a;
    } else {
      var b' := b[..|b| - 1];
      var c := b[|b| - 1];
      assert a + b == (a + b') + [c];
      assert b == b' + [c];
      DigitsValueSnoc(a + b', c);
      DigitsValueSnoc(b', c);
      DigitsValueAppend(a, b');
      Distribute(DigitsValue(a), Pow10(|b'|), DigitsValue(b'));
    }
  }

  lemma Distribute(x: int, p: int, y: int)
    ensures (x * p + y) * 10 == x * (10 * p) + y * 10
  {
  }

  /** The longest prefix of `s` made of decimal digits. */
  function DigitPrefix(s: string): (p: string)
    ensures p <= s && AllDigits(p)
    ensures |p| < |s| ==> !IsDigit(s[|p|])
  {
    if |s| > 0 && IsDigit(s[0]) then [s[0]] + DigitPrefix(s[1..]) else []
  }

  lemma DigitPrefixOf(a: string, b: string)
    requires AllDigits(a)
    requires b == [] || !IsDigit(b[0])
    ensures DigitPrefix(a + b) == a
  {
    assert (a + b)[..|a|] == a;
  }

  /** The decimal text of `n`, without leading zeros, as JavaScript prints a whole number. */
  function IntText(n: nat): (s: string)
    ensures |s| > 0 && AllDigits(s)
    ensures |s| > 1 ==> s[0] != '0'
    ensures DigitsValue(s) == n
  {
    if n < 10 then
      [DigitChar(n)]
    else
      var s := IntText(n / 10) + [DigitChar(n % 10)];
      DigitsValueSnoc(IntText(n / 10), DigitChar(n % 10));
      s
  }

  /** The last `width` decimal digits of `r`, padded with leading zeros. */
  function PadDigits(r: nat, width: nat): (s: string)
    requires r < Pow10(width)
    ensures |s| == width && AllDigits(s)
    ensures DigitsValue(s) == r
  {
    if width == 0 then
      []
    else
      var s := PadDigits(r / 10, width - 1) + [DigitChar(r % 10)];
      DigitsValueSnoc(PadDigits(r / 10, width - 1), DigitChar(r % 10));
      s
  }

  /** An exact decimal number: `mantissa` times ten to the power `-scale`. */
  datatype Decimal = Decimal(mantissa: int, scale: nat)

  function Value(d: Decimal): real {
    d.mantissa as real / Pow10(d.scale) as real
  }

  /** The canonical form: no zero digit trails the decimal point. */
  predicate Normal(d: Decimal) {
    d.scale == 0 || d.mantissa % 10 != 0
  }

  lemma DropTrailingZero(m: int, s: nat)
    requires s > 0 && m % 10 == 0
    ensures Value(Decimal(m / 10, s - 1)) == Value(Decimal(m, s))
  {
    var k, p := m / 10, Pow10(s - 1);
    assert m == 10 * k;
    assert Pow10(s) == 10 * p;
    assert (10 * k) as real / (10 * p) as real == k as real / p as real;
  }

  /** Strips trailing zero digits of the fraction; the number denoted stays the same. */
  function Normalize(d: Decimal): (r: Decimal)
    ensures Normal(r) && Value(r) == Value(d)
    ensures Normal(d) ==> r == d
    decreases d.scale
  {
    if d.scale > 0 && d.mantissa % 10 == 0 then
      DropTrailingZero(d.mantissa, d.scale);
      Normalize(Decimal(d.mantissa / 10, d.scale - 1))
    else
      d
  }

  function Signed(a: nat, negative: bool): int {
    if negative then -(a as int) else a
  }

  /** `m` times ten to the power `e - s`, written with a non-negative scale. */
  function Shift(m: int, s: nat, e: int): Decimal {
    if e >= s then Decimal(m * Pow10(e - s), 0) else Decimal(m, s - e)
  }

  /** The exponent an `e`/`E` part at the head of `w` denotes, 0 when there is none. */
  function ExponentPart(w: string): int {
    if |w| > 0 && (w[0] == 'e' || w[0] == 'E') then SignedDigits(w[1..]) else 0
  }

  /** The signed whole number an optional sign and digits at the head of `x` denote, 0 when there are no digits. */
  function SignedDigits(x: string): int {
    var ds := DigitPrefix(Unsigned(x));
    if ds == [] then 0
    else if x[0] == '-' then -(DigitsValue(ds) as int)
    else DigitsValue(ds)
  }

  /** What follows an optional `+` or `-` sign at the head of `t`. */
  function Unsigned(t: string): (u: string)
    ensures u == t || (|t| > 0 && (t[0] == '+' || t[0] == '-') && u == t[1..])
  {
    if |t| > 0 && (t[0] == '+' || t[0] == '-') then t[1..] else t
  }

  /** `t` begins with a decimal literal: an optional sign, then a digit or a point followed by a digit. */
  predicate StartsWithNumber(t: string) {
    var u := Unsigned(t);
    (|u| > 0 && IsDigit(u[0])) || (|u| > 1 && u[0] == '.' && IsDigit(u[1]))
  }

  /**
   * The unsigned decimal literal digits? ('.' digits?)? (('e'|'E') sign? digits)? at the head of `u`,
   * negated when `negative`; there is one exactly when a digit comes before the exponent part.
   */
  function LiteralAt(u: string, negative: bool): (r: Option<Decimal>)
    ensures r.Some? <==> (|u| > 0 && IsDigit(u[0])) || (|u| > 1 && u[0] == '.' && IsDigit(u[1]))
  {
    var whole := DigitPrefix(u);
    var v := u[|whole|..];
    var fraction := if |v| > 0 && v[0] == '.' then DigitPrefix(v[1..]) else "";
    var w := if |v| > 0 && v[0] == '.' then v[1 + |fraction|..] else v;
    if |whole| + |fraction| == 0 then
      None
    else
      Some(Shift(Signed(DigitsValue(whole + fraction), negative), |fraction|, ExponentPart(w)))
  }

  /**
   * `parseFloat(s)`: the literal at the head of `s` once its leading white space is skipped,
   * in canonical form; `None` stands for NaN.
   */
  function ParseFloat(s: string): (r: Option<Decimal>)
    ensures r.Some? <==> StartsWithNumber(TrimStart(s))
    ensures r.Some? ==> Normal(r.value)
  {
    var t := TrimStart(s);
    match LiteralAt(Unsigned(t), |t| > 0 && t[0] == '-')
    case None => None
    case Some(d) => Some(Normalize(d))
  }

  lemma DivMod(a: nat, p: nat)
    requires p > 0
    ensures 0 <= a / p && 0 <= a % p < p
    ensures a == (a / p) * p + a % p
  {
  }

  /** The plain decimal text of `a` times ten to the power `-scale`, for `a` not negative. */
  function PlainText(a: nat, scale: nat): (s: string)
    ensures |s| > 0 && IsDigit(s[0])
    ensures forall i :: 0 <= i < |s| ==> IsDigit(s[i]) || s[i] == '.'
  {
    var p := Pow10(scale);
    DivMod(a, p);
    var whole := IntText(a / p);
    var tail := if scale > 0 then "." + PadDigits(a % p, scale) else "";
    assert forall i :: 0 <= i < |tail| ==> IsDigit(tail[i]) || tail[i] == '.';
    whole + tail
  }

  /** How JavaScript prints the number `d` in plain decimal notation (`String(x)`). */
  function NumberText(d: Decimal): (s: string)
    ensures |s| > 0
    ensures forall i :: 0 <= i < |s| ==> IsDigit(s[i]) || s[i] == '-' || s[i] == '.'
  {
    var n := Normalize(d);
    if n.mantissa < 0 then "-" + PlainText(-n.mantissa, n.scale) else PlainText(n.mantissa, n.scale)
  }

  /** A whole number prints as its digits, with no point and no leading zeros. */
  lemma NumberTextOfWhole(n: nat)
    ensures NumberText(Decimal(n, 0)) == IntText(n)
  {
    assert Normalize(Decimal(n, 0)) == Decimal(n, 0);
    assert Pow10(0) == 1 && n / 1 == n;
  }

  /** A literal made of digits, then optionally a point and more digits, reads as those digits. */
  lemma LiteralOfParts(whole: string, frac: string, negative: bool)
    requires |whole| > 0 && AllDigits(whole) && AllDigits(frac)
    ensures LiteralAt(whole + (if |frac| > 0 then "." + frac else ""), negative)
         == Some(Shift(Signed(DigitsValue(whole + frac), negative), |frac|, 0))
  {
    var tail := if |frac| > 0 then "." + frac else "";
    var u := whole + tail;
    DigitPrefixOf(whole, tail);
    assert u[|whole|..] == tail;
    if |frac| > 0 {
      assert tail[1..] == frac + "";
      DigitPrefixOf(frac, "");
      assert tail[1 + |frac|..] == "";
    } else {
      assert whole + frac == whole;
    }
  }

  /** Plain text with no sign reads back as the number it was printed from. */
  lemma PlainTextRoundTrip(a: nat, scale: nat, negative: bool)
    ensures LiteralAt(PlainText(a, scale), negative) == Some(Decimal(Signed(a, negative), scale))
  {
    var p := Pow10(scale);
    DivMod(a, p);
    var whole := IntText(a / p);
    var frac := PadDigits(a % p, scale);
    assert PlainText(a, scale) == whole + (if |frac| > 0 then "." + frac else "");
    LiteralOfParts(whole, frac, negative);
    DigitsValueAppend(whole, frac);
    assert DigitsValue(whole + frac) == a;
  }

  /** Text that does not start with white space is parsed from its first character. */
  lemma ParseFloatNoLeadingSpace(s: string)
    requires |s| > 0 && !IsWhiteSpace(s[0])
    ensures ParseFloat(s) == match LiteralAt(Unsigned(s), s[0] == '-')
                             case None => None
                             case Some(d) => Some(Normalize(d))
  {
    assert TrimStart(s) == s;
  }

  /** Signed plain text reads back as the signed number, in canonical form. */
  lemma SignedTextRoundTrip(a: nat, scale: nat, negative: bool)
    ensures ParseFloat((if negative then "-" else "") + PlainText(a, scale))
         == Some(Normalize(Decimal(Signed(a, negative), scale)))
  {
    var plain := PlainText(a, scale);
    var s := (if negative then "-" else "") + plain;
    PlainTextRoundTrip(a, scale, negative);
    assert Unsigned(s) == plain;
    assert (s[0] == '-') == negative;
    ParseFloatNoLeadingSpace(s);
  }

  /** Reading back the printed text of a number gives the number, in canonical form. */
  lemma NumberTextRoundTrip(d: Decimal)
    ensures ParseFloat(NumberText(d)) == Some(Normalize(d))
  {
    var n := Normalize(d);
    var a := if n.mantissa < 0 then -n.mantissa else n.mantissa;
    assert NumberText(d) == (if n.mantissa < 0 then "-" else "") + PlainText(a, n.scale);
    SignedTextRoundTrip(a, n.scale, n.mantissa < 0);
    assert Decimal(Signed(a, n.mantissa < 0), n.scale) == n;
  }

  lemma LiteralOfWhole(digits: string, rest: string, negative: bool)
    requires |digits| > 0 && AllDigits(digits)
    requires rest == [] || (!IsDigit(rest[0]) && rest[0] !in ".eE")
    ensures LiteralAt(digits + rest, negative) == Some(Decimal(Signed(DigitsValue(digits), negative), 0))
  {
    var u := digits + rest;
    DigitPrefixOf(digits, rest);
    assert u[|digits|..] == rest;
    assert digits + "" == digits;
    assert ExponentPart(rest) == 0;
  }

  /** Text whose first `k` characters are digits, not continued by a point, a digit or an exponent,
      reads as the whole number those digits denote. */
  lemma ParseFloatWholeNumber(s: string, k: nat)
    requires 0 < k <= |s| && AllDigits(s[..k])
    requires k == |s| || (!IsDigit(s[k]) && s[k] !in ".eE")
    ensures ParseFloat(s) == Some(Decimal(DigitsValue(s[..k]), 0))
  {
    assert s == s[..k] + s[k..];
    LiteralOfWhole(s[..k], s[k..], false);
    assert s[..k][0] == s[0];
    ParseFloatNoLeadingSpace(s);
  }

  /** `parseFloat` reads a numeric prefix and ignores what follows it. */
  lemma ParseFloatReadsPrefix()
    ensures ParseFloat("3abc") == Some(Decimal(3, 0))
  {
    assert "3abc"[..1] == "3";
    ParseFloatWholeNumber("3abc", 1);
  }

  lemma {:induction false} Pow10Add(a: nat, b: nat)
    ensures Pow10(a + b) == Pow10(a) * Pow10(b)
  {
    if b > 0 {
      Pow10Add(a, b - 1);
      assert Pow10(a + b) == 10 * Pow10(a + (b - 1));
    }
  }

  /** `m` times ten to the power `e`, divided by ten to the power `s`, as a real number. */
  function Scaled(m: int, s: nat, e: int): real {
    if e >= 0 then (m * Pow10(e)) as real / Pow10(s) as real
    else m as real / (Pow10(s) * Pow10(-e)) as real
  }

  /** A common factor `q` of numerator `xq` and denominator `pq` cancels. */
  lemma CancelFactor(x: int, p: nat, q: nat, xq: int, pq: nat)
    requires p > 0 && q > 0 && xq == x * q && pq == p * q
    ensures xq as real / pq as real == x as real / p as real
  {
    assert xq as real == x as real * q as real;
    assert pq as real == p as real * q as real;
  }

  lemma ShiftValueWhole(m: int, s: nat, e: int)
    requires e >= s
    ensures Value(Shift(m, s, e)) == Scaled(m, s, e)
  {
    var x, q := m * Pow10(e - s), Pow10(s);
    assert m * Pow10(e) == x * q by {
      Pow10Add(e - s, s);
    }
    CancelFactor(x, 1, q, m * Pow10(e), q);
  }

  lemma ShiftValueFraction(m: int, s: nat, e: int)
    requires 0 <= e < s
    ensures Value(Shift(m, s, e)) == Scaled(m, s, e)
  {
    var p, q := Pow10(s - e), Pow10(e);
    Pow10Add(s - e, e);
    CancelFactor(m, p, q, m * q, Pow10(s));
  }

  lemma ShiftValueNegative(m: int, s: nat, e: int)
    requires e < 0
    ensures Value(Shift(m, s, e)) == Scaled(m, s, e)
  {
    Pow10Add(s, -e);
    assert Shift(m, s, e) == Decimal(m, s + -e);
  }

  /** `Shift` denotes `m` times ten to the power `e - s`, whichever of `e` and `s` is larger. */
  lemma ShiftValue(m: int, s: nat, e: int)
    ensures Value(Shift(m, s, e)) == Scaled(m, s, e)
  {
    if e >= s {
      ShiftValueWhole(m, s, e);
    } else if e >= 0 {
      ShiftValueFraction(m, s, e);
    } else {
      ShiftValueNegative(m, s, e);
    }
  }

  /**
   * Digits, an optional point with more digits, and then a tail that neither continues the digits
   * nor starts with a point: the literal is those digits, shifted by the exponent the tail starts with.
   */
  lemma LiteralOfTail(whole: string, frac: string, tail: string, negative: bool)
    requires |whole| + |frac| > 0 && AllDigits(whole) && AllDigits(frac)
    requires tail == [] || (!IsDigit(tail[0]) && tail[0] != '.')
    ensures LiteralAt(whole + (if |frac| > 0 then "." + frac else "") + tail, negative)
         == Some(Shift(Signed(DigitsValue(whole + frac), negative), |frac|, ExponentPart(tail)))
  {
    var point := if |frac| > 0 then "." + frac else "";
    var u := whole + point + tail;
    assert u == whole + (point + tail);
    DigitPrefixOf(whole, point + tail);
    assert u[|whole|..] == point + tail;
    if |frac| > 0 {
      assert (point + tail)[1..] == frac + tail;
      DigitPrefixOf(frac, tail);
      assert (point + tail)[1 + |frac|..] == tail;
    } else {
      assert whole + frac == whole;
      assert point + tail == tail;
    }
  }

  lemma SignedDigitsUnsigned(digits: string, rest: string)
    requires |digits| > 0 && AllDigits(digits)
    requires rest == [] || !IsDigit(rest[0])
    ensures SignedDigits(digits + rest) == DigitsValue(digits)
  {
    assert (digits + rest)[0] == digits[0];
    DigitPrefixOf(digits, rest);
  }

  lemma SignedDigitsSigned(c: char, digits: string, rest: string)
    requires c == '+' || c == '-'
    requires |digits| > 0 && AllDigits(digits)
    requires rest == [] || !IsDigit(rest[0])
    ensures SignedDigits([c] + (digits + rest)) == if c == '-' then -(DigitsValue(digits) as int) else DigitsValue(digits)
  {
    assert ([c] + (digits + rest))[1..] == digits + rest;
    DigitPrefixOf(digits, rest);
  }

  /** An optional sign and digits not continued by another digit denote that signed number. */
  lemma SignedDigitsOf(sign: string, digits: string, rest: string)
    requires sign == "" || sign == "+" || sign == "-"
    requires |digits| > 0 && AllDigits(digits)
    requires rest == [] || !IsDigit(rest[0])
    ensures SignedDigits(sign + (digits + rest))
         == if sign == "-" then -(DigitsValue(digits) as int) else DigitsValue(digits)
  {
    if sign == "" {
      assert sign + (digits + rest) == digits + rest;
      SignedDigitsUnsigned(digits, rest);
    } else {
      assert sign == [sign[0]];
      SignedDigitsSigned(sign[0], digits, rest);
    }
  }

  /** The exponent part: a marker, an optional sign and digits not continued by another digit. */
  lemma ExponentOf(marker: char, sign: string, digits: string, rest: string)
    requires marker == 'e' || marker == 'E'
    requires sign == "" || sign == "+" || sign == "-"
    requires |digits| > 0 && AllDigits(digits)
    requires rest == [] || !IsDigit(rest[0])
    ensures ExponentPart([marker] + (sign + (digits + rest)))
         == if sign == "-" then -(DigitsValue(digits) as int) else DigitsValue(digits)
  {
    var x := sign + (digits + rest);
    assert ([marker] + x)[1..] == x;
    SignedDigitsOf(sign, digits, rest);
  }

  /**
   * `parseFloat` of digits, an optional point with more digits, and a tail that neither continues
   * the digits nor starts with a point: those digits divided by ten per fraction digit and
   * multiplied by ten to the exponent the tail starts with (0 when it starts with none).
   */
  lemma ParseFloatLiteral(whole: string, frac: string, tail: string)
    requires |whole| + |frac| > 0 && AllDigits(whole) && AllDigits(frac)
    requires tail == [] || (!IsDigit(tail[0]) && tail[0] != '.')
    ensures var d := Shift(DigitsValue(whole + frac), |frac|, ExponentPart(tail));
      ParseFloat(whole + (if |frac| > 0 then "." + frac else "") + tail) == Some(Normalize(d))
      && Value(Normalize(d)) == Scaled(DigitsValue(whole + frac), |frac|, ExponentPart(tail))
  {
    var s := whole + (if |frac| > 0 then "." + frac else "") + tail;
    LiteralOfTail(whole, frac, tail, false);
    if |whole| > 0 {
      assert s[0] == whole[0] && IsDigit(s[0]);
    } else {
      assert s[0] == '.';
    }
    assert Unsigned(s) == s;
    ParseFloatNoLeadingSpace(s);
    ShiftValue(DigitsValue(whole + frac), |frac|, ExponentPart(tail));
  }

  /**
   * `parseFloat` of a literal with an exponent, such as "25e-3" or "1.5E+2", followed by anything
   * but another digit: the mantissa's digits times ten to the signed exponent, divided by ten per
   * fraction digit.
   */
  lemma ParseFloatExponent(whole: string, frac: string, marker: char, sign: string, digits: string, rest: string)
    requires |whole| + |frac| > 0 && AllDigits(whole) && AllDigits(frac)
    requires marker == 'e' || marker == 'E'
    requires sign == "" || sign == "+" || sign == "-"
    requires |digits| > 0 && AllDigits(digits)
    requires rest == [] || !IsDigit(rest[0])
    ensures var e := if sign == "-" then -(DigitsValue(digits) as int) else DigitsValue(digits);
      var r := ParseFloat(whole + (if |frac| > 0 then "." + frac else "") + ([marker] + (sign + (digits + rest))));
      r.Some? && Value(r.value) == Scaled(DigitsValue(whole + frac), |frac|, e)
  {
    ExponentOf(marker, sign, digits, rest);
    ParseFloatLiteral(whole, frac, [marker] + (sign + (digits + rest)));
  }

  /**
   * `parseFloat` of a literal with a fraction, such as "1.5abc", followed by anything but a digit,
   * a point or an exponent marker: the digits divided by ten per fraction digit.
   */
  lemma ParseFloatFraction(whole: string, frac: string, rest: string)
    requires |whole| + |frac| > 0 && AllDigits(whole) && AllDigits(frac)
    requires rest == [] || (!IsDigit(rest[0]) && rest[0] !in ".eE")
    ensures var r := ParseFloat(whole + (if |frac| > 0 then "." + frac else "") + rest);
      r == Some(Normalize(Decimal(DigitsValue(whole + frac), |frac|)))
      && Value(r.value) == DigitsValue(whole + frac) as real / Pow10(|frac|) as real
  {
    assert ExponentPart(rest) == 0;
    ParseFloatLiteral(whole, frac, rest);
  }

  /** `parseFloat("25e-3")` is 0.025. */
  lemma ParseFloatNegativeExponent()
    ensures ParseFloat("25e-3") == Some(Decimal(25, 3))
  {
    var m := DigitsValue("25" + "");
    assert m == 25 by {
      assert "25" + "" == "2" + ['5'];
      DigitsValueSnoc("2", '5');
    }
    var e := ExponentPart("e-3");
    assert e == -3 by {
      assert "e-3" == ['e'] + ("-" + ("3" + ""));
      ExponentOf('e', "-", "3", "");
    }
    assert ParseFloat("25e-3") == Some(Normalize(Shift(m, 0, e))) by {
      assert "25e-3" == "25" + "" + "e-3";
      ParseFloatLiteral("25", "", "e-3");
    }
    assert Shift(m, 0, e) == Decimal(25, 3);
  }

  /** `parseFloat("1.5abc")` is 1.5: the fraction is read and the word after it ignored. */
  lemma ParseFloatFractionPrefix()
    ensures ParseFloat("1.5abc") == Some(Decimal(15, 1))
  {
    var m := DigitsValue("1" + "5");
    assert m == 15 by {
      DigitsValueSnoc("1", '5');
    }
    assert ParseFloat("1.5abc") == Some(Normalize(Decimal(m, 1))) by {
      assert "1.5abc" == "1" + ("." + "5") + "abc";
      ParseFloatFraction("1", "5", "abc");
    }
  }

  /** Text that starts with neither white space nor a decimal literal is NaN. */
  lemma NotANumber(s: string)
    requires |s| > 0 && !IsWhiteSpace(s[0]) && !StartsWithNumber(s)
    ensures ParseFloat(s) == None
  {
    assert TrimStart(s) == s;
  }

  /** A lone sign, point, operator symbol or parenthesis is NaN. */
  lemma SymbolIsNotANumber(c: char)
    requires c in "+-.*/^()"
    ensures ParseFloat([c]) == None
  {
    assert [c][0] == c;
    assert Unsigned([c]) == [] || Unsigned([c]) == [c];
    NotANumber([c]);
  }

  /** A word is NaN. */
  lemma WordIsNotANumber()
    ensures ParseFloat("abc") == None
  {
    assert "abc"[0] == 'a' && Unsigned("abc") == "abc";
    NotANumber("abc");
  }
}
