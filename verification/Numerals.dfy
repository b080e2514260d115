/** Numerals as text: exact values, the standard library's conversions, and canonical rendering. */
module Numerals {
  import opened Text
  import opened Wrappers

  const DIGITS: set<char> := set c: char | '0' <= c <= '9'
  const INT_MAX: nat := 0x7fff_ffff

  function DigitOf(c: char): (d: nat)
    requires c in DIGITS
    ensures d < 10
  {
    (c as int) - ('0' as int)
  }

  function DigitChar(d: nat): (c: char)
    requires d < 10
    ensures c in DIGITS && DigitOf(c) == d
  {
    ('0' as int + d) as char
  }

  function Value(s: string): nat
    requires All(s, DIGITS)
  {
    if s == [] then 0 else 10 * Value(s[..|s| - 1]) + DigitOf(s[|s| - 1])
  }

  function Pow10(n: nat): (p: nat)
    ensures p >= 1
  {
    if n == 0 then 1 else 10 * Pow10(n - 1)
  }

  /** `a` followed by `n` zeros. */
  function Shift(a: nat, n: nat): nat { if n == 0 then a else 10 * Shift(a, n - 1) }

  /** `x` with the decimal point moved `n` places to the left. */
  function Descale(x: real, n: nat): real { if n == 0 then x else Descale(x, n - 1) / 10.0 }

  /** Exactly `width` digits. */
  function Padded(n: nat, width: nat): (s: string)
    requires n < Pow10(width)
    ensures |s| == width && All(s, DIGITS) && Value(s) == n
  {
    if width == 0 then "" else Padded(n / 10, width - 1) + [DigitChar(n % 10)]
  }

  /** No leading zeros. */
  function Shortest(n: nat): (s: string)
    ensures s != "" && All(s, DIGITS) && Value(s) == n
  {
    if n < 10 then [DigitChar(n)] else Shortest(n / 10) + [DigitChar(n % 10)]
  }

  // ---------- Order and size ----------

  lemma {:induction false} ValueAppend(a: string, b: string)
    requires All(a, DIGITS) && All(b, DIGITS)
    ensures All(a + b, DIGITS)
    ensures Value(a + b) == Shift(Value(a), |b|) + Value(b)
    decreases |b|
  {
    AllConcat(a, b, DIGITS);
    if b == [] {
      assert a + b == a;
    } else {
      var b' := b[..|b| - 1];
      ValueAppend(a, b');
      assert (a + b)[..|a + b| - 1] == a + b';
    }
  }

  lemma {:induction false} ValueBound(s: string)
    requires All(s, DIGITS)
    ensures Value(s) < Pow10(|s|)
  {
    if s == [] {
    } else {
      ValueBound(s[..|s| - 1]);
    }
  }

  /** `x` then `u`, both `n` digits wide at most, compare like pairs. */
  lemma {:induction false} ShiftOrder(x: nat, u: nat, y: nat, v: nat, n: nat)
    requires u < Pow10(n) && v < Pow10(n)
    ensures Shift(x, n) + u < Shift(y, n) + v <==> x < y || (x == y && u < v)
    ensures Shift(x, n) + u == Shift(y, n) + v <==> x == y && u == v
  {
    if n == 0 {
    } else {
      ShiftOrder(x, u / 10, y, v / 10, n - 1);
    }
  }

  /** Lexicographic order of two texts of the same length. */
  predicate LexLess(a: string, b: string)
    requires |a| == |b|
  {
    a != [] && (a[0] < b[0] || (a[0] == b[0] && LexLess(a[1..], b[1..])))
  }

  lemma {:induction false} LexAppend(a: string, b: string, c: string, d: string)
    requires |a| == |b| && |c| == |d|
    ensures LexLess(a + c, b + d) <==> LexLess(a, b) || (a == b && LexLess(c, d))
  {
    if a == [] {
      assert a + c == c && b + d == d;
    } else {
      assert (a + c)[1..] == a[1..] + c && (b + d)[1..] == b[1..] + d;
      LexAppend(a[1..], b[1..], c, d);
      assert a == b <==> a[0] == b[0] && a[1..] == b[1..];
    }
  }

  lemma ValueHead(s: string)
    requires s != [] && All(s, DIGITS)
    ensures Value(s) == Shift(DigitOf(s[0]), |s| - 1) + Value(s[1..])
    ensures Value(s[1..]) < Pow10(|s| - 1)
  {
    OneDigit(s[..1]);
    hide Value, Shift, Pow10;
    assert s == s[..1] + s[1..];
    ValueAppend(s[..1], s[1..]);
    ValueBound(s[1..]);
  }

  lemma OneDigit(s: string)
    requires |s| == 1 && All(s, DIGITS)
    ensures Value(s) == DigitOf(s[0])
  {
    assert s[..0] == [];
  }

  /** Digit strings of one length: lexicographic order is numeric order. */
  lemma {:induction false} ValueOrder(a: string, b: string)
    requires |a| == |b| && All(a, DIGITS) && All(b, DIGITS)
    ensures LexLess(a, b) <==> Value(a) < Value(b)
    ensures Value(a) == Value(b) <==> a == b
  {
    if a == [] {
    } else {
      ValueHead(a);
      ValueHead(b);
      ValueOrder(a[1..], b[1..]);
      ShiftOrder(DigitOf(a[0]), Value(a[1..]), DigitOf(b[0]), Value(b[1..]), |a| - 1);
      assert a == b <==> a[0] == b[0] && a[1..] == b[1..];
    }
  }

  /** Moving the point is dividing by the power of ten. */
  lemma {:induction false} DescaleIsQuotient(x: real, n: nat)
    ensures Descale(x, n) == x / Pow10(n) as real
  {
    if n == 0 {
    } else {
      DescaleIsQuotient(x, n - 1);
      QuotientStep(x, Pow10(n - 1));
    }
  }

  lemma QuotientStep(x: real, p: nat)
    requires p >= 1
    ensures (x / p as real) / 10.0 == x / (10 * p) as real
  {
    var y := (x / p as real) / 10.0;
    assert (10 * p) as real == 10.0 * p as real;
    assert y * (10 * p) as real == x;
  }

  lemma {:induction false} DescaleOrder(x: real, y: real, n: nat)
    ensures Descale(x, n) < Descale(y, n) <==> x < y
    ensures Descale(x, n) == Descale(y, n) <==> x == y
    ensures Descale(0.0, n) == 0.0
  {
    if n == 0 {
    } else {
      DescaleOrder(x, y, n - 1);
    }
  }

  lemma {:induction false} DescaleAdd(x: real, y: real, n: nat)
    ensures Descale(x + y, n) == Descale(x, n) + Descale(y, n)
  {
    if n == 0 {
    } else {
      DescaleAdd(x, y, n - 1);
    }
  }

  lemma {:induction false} DescaleTenfold(x: real, n: nat)
    ensures Descale(10.0 * x, n) == 10.0 * Descale(x, n)
  {
    if n == 0 {
    } else {
      DescaleTenfold(x, n - 1);
    }
  }

  lemma {:induction false} DescaleShift(a: nat, n: nat)
    ensures Descale(Shift(a, n) as real, n) == a as real
  {
    if n == 0 {
    } else {
      DescaleShift(a, n - 1);
      assert Shift(a, n) as real == 10.0 * Shift(a, n - 1) as real;
      DescaleTenfold(Shift(a, n - 1) as real, n - 1);
    }
  }

  // ---------- std::stoi and std::stof ----------

  /** How many digits `s` starts with. */
  function DigitRun(s: string): (n: nat)
    ensures n <= |s| && All(s[..n], DIGITS)
    ensures n < |s| ==> s[n] !in DIGITS
  {
    if s == [] || s[0] !in DIGITS then 0 else
      var n := 1 + DigitRun(s[1..]);
      assert s[..n] == [s[0]] + s[1..][..n - 1];
      n
  }

  lemma {:induction false} DigitRunPrefix(a: string, b: string)
    requires All(a, DIGITS)
    requires b == [] || b[0] !in DIGITS
    ensures DigitRun(a + b) == |a| && (a + b)[..|a|] == a
  {
    if a == [] {
      assert a + b == b;
    } else {
      assert (a + b)[1..] == a[1..] + b;
      DigitRunPrefix(a[1..], b);
    }
  }

  lemma WholeRun(s: string)
    requires All(s, DIGITS)
    ensures DigitRun(s) == |s| && s[..|s|] == s
  {
    DigitRunPrefix(s, "");
    assert s + "" == s;
  }

  /** `std::stoi` on texts without blanks or sign: `None` when it throws, because there is no digit
      or the value does not fit an `int`. */
  function Stoi(s: string): Option<nat> {
    var n := DigitRun(s);
    if n == 0 || Value(s[..n]) > INT_MAX then None else Some(Value(s[..n]))
  }

  /** The real number written `whole.fraction`. */
  function Decimal(whole: string, fraction: string): real
    requires All(whole, DIGITS) && All(fraction, DIGITS)
  {
    Value(whole) as real + Descale(Value(fraction) as real, |fraction|)
  }

  /** The digits after a point at position `n`; empty when there is no point. */
  function FractionRun(s: string, n: nat): (fraction: string)
    requires n <= |s|
    ensures All(fraction, DIGITS)
  {
    if n < |s| && s[n] == '.' then s[n + 1..][..DigitRun(s[n + 1..])] else ""
  }

  /** The value of an unsigned numeral, fraction optional; `None` when there is no digit at all. */
  function Unsigned(s: string): Option<real> {
    var n := DigitRun(s);
    var fraction := FractionRun(s, n);
    if n == 0 && fraction == "" then None else Some(Decimal(s[..n], fraction))
  }

  /** `std::stof` in exact arithmetic, on texts without blanks or exponent: `None` when it throws. */
  function Stof(s: string): Option<real> {
    if s != "" && s[0] == '-' then
      match Unsigned(s[1..]) case None => None case Some(v) => Some(-v)
    else Unsigned(s)
  }

  lemma StoiDigits(s: string)
    requires s != "" && All(s, DIGITS)
    ensures Stoi(s) == if Value(s) <= INT_MAX then Some(Value(s)) else None
  {
    WholeRun(s);
  }

  lemma StofWhole(s: string)
    requires s != "" && All(s, DIGITS)
    ensures Stof(s) == Some(Value(s) as real)
  {
    WholeRun(s);
    DecimalWhole(s);
    assert s[0] in DIGITS;
  }

  lemma StofEmpty()
    ensures Stof("") == None
  {
  }

  lemma DecimalWhole(s: string)
    requires All(s, DIGITS)
    ensures Decimal(s, "") == Value(s) as real
  {
  }

  lemma StofDecimal(whole: string, fraction: string)
    requires whole != "" && All(whole, DIGITS) && All(fraction, DIGITS)
    ensures Stof(whole + "." + fraction) == Some(Decimal(whole, fraction))
    ensures Stof("-" + (whole + "." + fraction)) == Some(-Decimal(whole, fraction))
  {
    hide Value, Descale, Decimal;
    var s := whole + "." + fraction;
    assert s == whole + ("." + fraction);
    DigitRunPrefix(whole, "." + fraction);
    assert s[|whole| + 1..] == fraction;
    WholeRun(fraction);
    assert Unsigned(s) == Some(Decimal(whole, fraction));
    assert s[0] == whole[0] && whole[0] in DIGITS;
    assert ("-" + s)[1..] == s;
  }
}
