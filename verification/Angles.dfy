/** `to_degrees_`: angles written `D..DMM.m..m`. */
module Angles {
  import opened Numerals
  import opened Text
  import opened Wrappers

  /** The angle in degrees, or `None` when one of the library calls throws. */
  function Degrees(angle: string): Option<real>
    requires '.' in angle
  {
    DotSplits(angle);
    var content := Fields(angle, '.');
    var n := |content[0]|;
    if n < 2 then None else
      match (Stof(content[0][n - 2..] + "." + content[1]), Stof(content[0][..n - 2]))
      case (Some(minutes), Some(degrees)) => Some(degrees + minutes / 60.0)
      case _ => None
  }

  lemma DotSplits(angle: string)
    requires '.' in angle
    ensures |Fields(angle, '.')| >= 2
  {
    var _, _ := FieldsUnfold(angle, '.');
  }

  /** The source's own steps: split, glue the minutes, erase them from the degrees, add. */
  method ToDegrees(angle: string) returns (degrees: Option<real>)
    requires '.' in angle
    ensures degrees == Degrees(angle)
  {
    hide Stof, Fields;
    DotSplits(angle);
    var content := Split(angle, '.');
    if |content[0]| < 2 {
      return None;
    }
    var minutes := Stof(content[0][|content[0]| - 2..] + "." + content[1]);
    if minutes == None {
      return None;
    }
    var minutesOfDegree := minutes.value / 60.0;
    content := content[0 := content[0][..|content[0]| - 2]];
    var whole := Stof(content[0]);
    degrees := match whole case None => None case Some(d) => Some(d + minutesOfDegree);
  }

  /** Degrees and minutes as digit strings: what the angle means. */
  function Meaning(d: string, m: string, f: string): real
    requires All(d, DIGITS) && All(m, DIGITS) && All(f, DIGITS)
  {
    Value(d) as real + Decimal(m, f) / 60.0
  }

  /** The documented form is converted exactly; without degree digits the conversion throws. */
  lemma DegreesOf(d: string, m: string, f: string)
    requires All(d, DIGITS) && All(m, DIGITS) && All(f, DIGITS)
    requires |m| == 2 && f != ""
    ensures '.' in d + m + "." + f
    ensures Degrees(d + m + "." + f) == if d == "" then None else Some(Meaning(d, m, f))
  {
    hide Stof, Decimal, Value, Find;
    var angle := d + m + "." + f;
    assert angle[|d + m|] == '.';
    FieldsCons(d + m, f, '.');
    FieldsOne(f, '.');
    assert (d + m)[|d + m| - 2..] == m && (d + m)[..|d + m| - 2] == d;
    StofDecimal(m, f);
    if d == "" {
      StofEmpty();
    } else {
      StofWhole(d);
    }
  }

  // ---------- Order ----------

  /** Minutes in units of the last fraction digit. */
  function MinuteUnits(m: string, f: string): nat
    requires All(m, DIGITS) && All(f, DIGITS)
  {
    AllConcat(m, f, DIGITS);
    Value(m + f)
  }

  lemma DecimalUnits(m: string, f: string)
    requires All(m, DIGITS) && All(f, DIGITS)
    ensures Decimal(m, f) == Descale(MinuteUnits(m, f) as real, |f|)
  {
    hide Value, Descale, Shift;
    ValueAppend(m, f);
    var whole, fraction := Shift(Value(m), |f|), Value(f);
    assert (whole + fraction) as real == whole as real + fraction as real;
    DescaleAdd(whole as real, fraction as real, |f|);
    DescaleShift(Value(m), |f|);
  }

  lemma MinuteBound(m: string, f: string)
    requires All(m, DIGITS) && All(f, DIGITS)
    ensures Value(m) as real <= Decimal(m, f) < (Value(m) + 1) as real
  {
    ValueBound(f);
    PowShift(|f|);
    DescaleShift(1, |f|);
    DescaleOrder(Value(f) as real, Shift(1, |f|) as real, |f|);
    DescaleOrder(0.0, Value(f) as real, |f|);
  }

  lemma {:induction false} PowShift(n: nat)
    ensures Pow10(n) == Shift(1, n)
  {
    if n == 0 {
    } else {
      PowShift(n - 1);
    }
  }

  /** Equal-length angles with minutes 00-59: text order is degree order, and equal degrees mean
      equal texts. */
  lemma AngleOrder(d: string, m: string, f: string, d': string, m': string, f': string)
    requires All(d, DIGITS) && All(m, DIGITS) && All(f, DIGITS)
    requires All(d', DIGITS) && All(m', DIGITS) && All(f', DIGITS)
    requires |d| == |d'| > 0 && |m| == |m'| == 2 && |f| == |f'| > 0
    requires Value(m) < 60 && Value(m') < 60
    ensures '.' in d + m + "." + f && '.' in d' + m' + "." + f'
    ensures Degrees(d + m + "." + f).Some? && Degrees(d' + m' + "." + f').Some?
    ensures LexLess(d + m + "." + f, d' + m' + "." + f')
            <==> Degrees(d + m + "." + f).value < Degrees(d' + m' + "." + f').value
    ensures d + m + "." + f == d' + m' + "." + f'
            <==> Degrees(d + m + "." + f).value == Degrees(d' + m' + "." + f').value
  {
    DegreesOf(d, m, f);
    DegreesOf(d', m', f');
    MeaningOrder(d, m, f, d', m', f');
    TextOrder(d, m, f, d', m', f');
  }

  lemma MeaningOrder(d: string, m: string, f: string, d': string, m': string, f': string)
    requires All(d, DIGITS) && All(m, DIGITS) && All(f, DIGITS)
    requires All(d', DIGITS) && All(m', DIGITS) && All(f', DIGITS)
    requires |f| == |f'| && Value(m) < 60 && Value(m') < 60
    ensures Meaning(d, m, f) < Meaning(d', m', f') <==>
            Value(d) < Value(d') || (Value(d) == Value(d') && MinuteUnits(m, f) < MinuteUnits(m', f'))
    ensures Meaning(d, m, f) == Meaning(d', m', f') <==>
            Value(d) == Value(d') && MinuteUnits(m, f) == MinuteUnits(m', f')
  {
    DecimalUnits(m, f);
    DecimalUnits(m', f');
    MinuteBound(m, f);
    MinuteBound(m', f');
    DescaleOrder(MinuteUnits(m, f) as real, MinuteUnits(m', f') as real, |f|);
    WholeAndPart(Value(d), Decimal(m, f) / 60.0, Value(d'), Decimal(m', f') / 60.0);
  }

  lemma WholeAndPart(x: nat, u: real, y: nat, v: real)
    requires 0.0 <= u < 1.0 && 0.0 <= v < 1.0
    ensures x as real + u < y as real + v <==> x < y || (x == y && u < v)
    ensures x as real + u == y as real + v <==> x == y && u == v
  {
  }

  lemma TextOrder(d: string, m: string, f: string, d': string, m': string, f': string)
    requires All(d, DIGITS) && All(m, DIGITS) && All(f, DIGITS)
    requires All(d', DIGITS) && All(m', DIGITS) && All(f', DIGITS)
    requires |d| == |d'| && |m| == |m'| && |f| == |f'|
    ensures LexLess(d + m + "." + f, d' + m' + "." + f') <==>
            Value(d) < Value(d') || (Value(d) == Value(d') && MinuteUnits(m, f) < MinuteUnits(m', f'))
    ensures d + m + "." + f == d' + m' + "." + f' <==>
            Value(d) == Value(d') && MinuteUnits(m, f) == MinuteUnits(m', f')
  {
    AllConcat(m, f, DIGITS);
    AllConcat(m', f', DIGITS);
    assert d + m + "." + f == d + (m + "." + f) && d' + m' + "." + f' == d' + (m' + "." + f');
    LexAppend(d, d', m + "." + f, m' + "." + f');
    PointOrder(m, f, m', f');
    ValueOrder(d, d');
    ValueOrder(m + f, m' + f');
    SamePieces(d, m, f, d', m', f');
  }

  /** The point, at the same place in both texts, does not matter for the order. */
  lemma PointOrder(m: string, f: string, m': string, f': string)
    requires |m| == |m'| && |f| == |f'|
    ensures LexLess(m + "." + f, m' + "." + f') <==> LexLess(m + f, m' + f')
  {
    assert m + "." + f == m + ("." + f) && m' + "." + f' == m' + ("." + f');
    LexAppend(m, m', "." + f, "." + f');
    LexAppend(".", ".", f, f');
    LexAppend(m, m', f, f');
    assert !LexLess(".", ".");
  }

  lemma SamePieces(d: string, m: string, f: string, d': string, m': string, f': string)
    requires |d| == |d'| && |m| == |m'| && |f| == |f'|
    ensures d + m + "." + f == d' + m' + "." + f' <==> d == d' && m + f == m' + f'
  {
    var a, a' := d + m + "." + f, d' + m' + "." + f';
    var n := |d + m|;
    if a == a' {
      assert a[..|d|] == d && a'[..|d|] == d';
      assert a[|d|..n] == m && a'[|d|..n] == m';
      assert a[n + 1..] == f && a'[n + 1..] == f';
    }
    if d == d' && m + f == m' + f' {
      assert (m + f)[..|m|] == m && (m' + f')[..|m|] == m';
      assert (m + f)[|m|..] == f && (m' + f')[|m|..] == f';
    }
  }
}
