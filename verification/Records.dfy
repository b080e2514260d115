/** What a GPGGA sentence says: numbers with their written precision, their exact values, and their
    text. */
module Records {
  import opened Angles
  import opened Checksum
  import opened Grammar
  import opened Numerals
  import opened Text
  import opened Wrappers

  /** The sample handed to clients, in exact arithmetic. */
  datatype GpggaData = GpggaData(
    timestamp: real,
    latitude: real,
    longitude: real,
    fix: nat,
    satellitesOnView: nat,
    horizontalPrecision: real,
    altitude: real,
    heightOfGeoid: real,
    dgpsLastUpdate: real,
    dgpsReferenceStationId: nat)

  // ---------- Numbers ----------

  /** `whole.fraction` with `scale` digits after the point. */
  datatype Fixed = Fixed(whole: nat, fraction: nat, scale: nat) {
    predicate Valid() { scale >= 1 && fraction < Pow10(scale) }

    function Real(): real { whole as real + Descale(fraction as real, scale) }

    function Text(): string
      requires Valid()
    {
      Shortest(whole) + "." + Padded(fraction, scale)
    }
  }

  function FixedOf(s: string): Fixed
    requires IsDecimal(s)
  {
    var p := Fields(s, '.');
    Fixed(Value(p[0]), Value(p[1]), |p[1]|)
  }

  lemma DecimalValue(s: string)
    requires IsDecimal(s)
    ensures FixedOf(s).Valid() && Stof(s) == Some(FixedOf(s).Real())
    ensures Stof("-" + s) == Some(-FixedOf(s).Real())
  {
    var p := Fields(s, '.');
    JoinFields(s, '.');
    assert Join(p, '.') == p[0] + "." + p[1];
    ValueBound(p[1]);
    StofDecimal(p[0], p[1]);
  }

  lemma PointFields(a: string, b: string)
    requires All(a, DIGITS) && All(b, DIGITS)
    ensures Fields(a + "." + b, '.') == [a, b]
  {
    FieldsCons(a, b, '.');
    FieldsOne(b, '.');
  }

  lemma FixedText(x: Fixed)
    requires x.Valid()
    ensures IsDecimal(x.Text()) && FixedOf(x.Text()) == x
  {
    PointFields(Shortest(x.whole), Padded(x.fraction, x.scale));
  }

  datatype Signed = Signed(negative: bool, magnitude: Fixed) {
    function Real(): real { if negative then -magnitude.Real() else magnitude.Real() }

    function Text(): string
      requires magnitude.Valid()
    {
      if negative then "-" + magnitude.Text() else magnitude.Text()
    }
  }

  function SignedOf(s: string): Signed
    requires IsSigned(s)
  {
    if IsDecimal(s) then Signed(false, FixedOf(s)) else Signed(true, FixedOf(s[1..]))
  }

  lemma SignedValue(s: string)
    requires IsSigned(s)
    ensures SignedOf(s).magnitude.Valid() && Stof(s) == Some(SignedOf(s).Real())
  {
    hide Stof, Fields, Fixed.Real;
    if IsDecimal(s) {
      DecimalValue(s);
    } else {
      DecimalValue(s[1..]);
      assert s == "-" + s[1..];
    }
  }

  lemma DecimalStart(s: string)
    requires IsDecimal(s)
    ensures s != "" && s[0] in DIGITS
  {
    var p := Fields(s, '.');
    JoinFields(s, '.');
    assert s[0] == p[0][0];
  }

  lemma SignedText(x: Signed)
    requires x.magnitude.Valid()
    ensures IsSigned(x.Text()) && SignedOf(x.Text()) == x
  {
    var t := x.magnitude.Text();
    FixedText(x.magnitude);
    if x.negative {
      assert ("-" + t)[1..] == t;
      if IsDecimal("-" + t) {
        DecimalStart("-" + t);
      }
    }
  }

  /** A time of day: six digits, fraction optional (`scale` 0). */
  datatype Clock = Clock(digits: nat, fraction: nat, scale: nat) {
    predicate Valid() { digits < 1000000 && fraction < Pow10(scale) }

    function Real(): real { digits as real + Descale(fraction as real, scale) }

    function Text(): string
      requires Valid()
    {
      assert Pow10(6) == 1000000;
      if scale == 0 then Padded(digits, 6) else Padded(digits, 6) + "." + Padded(fraction, scale)
    }
  }

  function ClockOf(s: string): Clock
    requires IsTimestamp(s)
  {
    var p := Fields(s, '.');
    if |p| == 1 then Clock(Value(p[0]), 0, 0) else Clock(Value(p[0]), Value(p[1]), |p[1]|)
  }

  lemma ClockValue(s: string)
    requires IsTimestamp(s)
    ensures ClockOf(s).Valid() && Stof(s) == Some(ClockOf(s).Real())
  {
    var p := Fields(s, '.');
    JoinFields(s, '.');
    ValueBound(p[0]);
    assert Pow10(6) == 1000000;
    if |p| == 1 {
      StofWhole(s);
    } else {
      assert Join(p, '.') == p[0] + "." + p[1];
      ValueBound(p[1]);
      StofDecimal(p[0], p[1]);
    }
  }

  lemma ClockText(x: Clock)
    requires x.Valid()
    ensures IsTimestamp(x.Text()) && ClockOf(x.Text()) == x
  {
    assert Pow10(6) == 1000000;
    var whole := Padded(x.digits, 6);
    if x.scale == 0 {
      FieldsOne(whole, '.');
      assert Pow10(0) == 1;
    } else {
      PointFields(whole, Padded(x.fraction, x.scale));
    }
  }

  // ---------- Angles ----------

  /** Degrees, minutes and a fraction of a minute. */
  datatype Angle = Angle(degrees: nat, minutes: nat, fraction: nat, scale: nat) {
    predicate Valid(top: nat) {
      degrees <= top && minutes <= 60 && scale >= 1 && fraction < Pow10(scale)
    }

    function Real(): real {
      degrees as real + (minutes as real + Descale(fraction as real, scale)) / 60.0
    }

    /** Two degree digits up to 89, or three up to 179. */
    function Text(width: nat): string
      requires (width == 2 && Valid(89)) || (width == 3 && Valid(179))
    {
      assert Pow10(2) == 100 && Pow10(3) == 1000;
      Padded(degrees, width) + Padded(minutes, 2) + "." + Padded(fraction, scale)
    }
  }

  /** The angle a text stands for; the bare limit stands for that many whole degrees. */
  function AngleOf(s: string, width: nat, top: nat, limit: string): Angle
    requires IsAngle(s, width, top, limit) && All(limit, DIGITS)
  {
    var p := Fields(s, '.');
    if p[0] == limit then Angle(Value(limit), 0, 0, |p[1]|)
    else Angle(Value(p[0][..width]), Value(p[0][width..]), Value(p[1]), |p[1]|)
  }

  predicate IsBare(s: string, limit: string) { Fields(s, '.')[0] == limit }

  /** The degree-minute form is converted exactly. */
  lemma WholeAngleValue(s: string, width: nat, top: nat, limit: string)
    requires width > 0 && All(limit, DIGITS) && |limit| == width
    requires IsAngle(s, width, top, limit) && !IsBare(s, limit)
    ensures '.' in s
    ensures AngleOf(s, width, top, limit).Valid(top)
    ensures Degrees(s) == Some(AngleOf(s, width, top, limit).Real())
  {
    hide Degrees, Descale;
    var p := Fields(s, '.');
    JoinFields(s, '.');
    var d, m, f := p[0][..width], p[0][width..], p[1];
    assert p[0] == d + m;
    assert s == d + m + "." + f;
    ValueBound(f);
    DegreesOf(d, m, f);
  }

  lemma LatitudeText(x: Angle)
    requires x.Valid(89)
    ensures IsLatitude(x.Text(2)) && !IsBare(x.Text(2), "90") && AngleOf(x.Text(2), 2, 89, "90") == x
  {
    AngleText(x, 2, 89, "90");
  }

  lemma LongitudeText(x: Angle)
    requires x.Valid(179)
    ensures IsLongitude(x.Text(3)) && !IsBare(x.Text(3), "180") && AngleOf(x.Text(3), 3, 179, "180") == x
  {
    AngleText(x, 3, 179, "180");
  }

  lemma AngleText(x: Angle, width: nat, top: nat, limit: string)
    requires (width == 2 && top == 89) || (width == 3 && top == 179)
    requires All(limit, DIGITS) && |limit| == width && x.Valid(top)
    ensures var s := x.Text(width);
            IsAngle(s, width, top, limit) && !IsBare(s, limit) && AngleOf(s, width, top, limit) == x
  {
    assert Pow10(2) == 100 && Pow10(3) == 1000;
    var d, m, f := Padded(x.degrees, width), Padded(x.minutes, 2), Padded(x.fraction, x.scale);
    AllConcat(d, m, DIGITS);
    PointFields(d + m, f);
    assert (d + m)[..width] == d && (d + m)[width..] == m;
  }

  lemma {:induction false} ZerosValue(s: string)
    requires All(s, {'0'})
    ensures All(s, DIGITS) && Value(s) == 0
  {
    if s == [] {
    } else {
      ZerosValue(s[..|s| - 1]);
    }
  }

  /** The bare limit breaks the documented `D{1,3}MM.m` form: its last two digits are read as
      minutes and the rest as degrees. */
  lemma BareAngleValue(s: string, width: nat, top: nat, limit: string)
    requires width >= 2 && All(limit, DIGITS) && |limit| == width
    requires IsAngle(s, width, top, limit) && IsBare(s, limit)
    ensures '.' in s
    ensures var d, m := limit[..width - 2], limit[width - 2..];
            Degrees(s) == if d == "" then None else Some(Value(d) as real + Value(m) as real / 60.0)
  {
    hide Degrees, Descale;
    var p := Fields(s, '.');
    JoinFields(s, '.');
    var d, m, f := limit[..width - 2], limit[width - 2..], p[1];
    assert limit == d + m;
    assert s == d + m + "." + f;
    ZerosValue(f);
    DescaleOrder(0.0, 0.0, |f|);
    DegreesOf(d, m, f);
  }

  // ---------- Records ----------

  /** The optional slots of the sentence. */
  datatype Dgps =
    | NoSlots
    | AgeSlot(age: Option<Fixed>)
    | AgeAndStation(age: Option<Fixed>, station: nat)

  datatype Record = Record(
    clock: Clock,
    latitude: Angle,
    north: bool,
    longitude: Angle,
    east: bool,
    fix: nat,
    satellites: nat,
    precision: Fixed,
    altitude: Signed,
    geoid: Signed,
    dgps: Dgps)
  {
    /** What the grammar can write, apart from the bare limits. */
    predicate Valid() {
      && clock.Valid()
      && latitude.Valid(89) && longitude.Valid(179)
      && fix <= 2
      && precision.Valid() && altitude.magnitude.Valid() && geoid.magnitude.Valid()
      && (!dgps.NoSlots? && dgps.age.Some? ==> dgps.age.value.Valid())
    }

    /** The values a client should see: south and west negative, -1 and 0 for absent slots. */
    function Data(): GpggaData {
      GpggaData(
        clock.Real(),
        if north then latitude.Real() else -latitude.Real(),
        if east then longitude.Real() else -longitude.Real(),
        fix,
        satellites,
        precision.Real(),
        altitude.Real(),
        geoid.Real(),
        if dgps.NoSlots? || dgps.age.None? then -1.0 else dgps.age.value.Real(),
        if dgps.AgeAndStation? then dgps.station else 0)
    }
  }

  function DgpsOf(f: seq<string>): Dgps
    requires IsLayout(f)
  {
    if |f| == 14 then NoSlots else
      var age := if f[13] == "" then None else Some(FixedOf(f[13]));
      if |f| == 15 then AgeSlot(age) else AgeAndStation(age, Value(f[14]))
  }

  /** Reading the fields. */
  function RecordOf(f: seq<string>): Record
    requires IsLayout(f)
  {
    FieldsKnown(f);
    Record(
      ClockOf(f[1]),
      AngleOf(f[2], 2, 89, "90"), f[3] == "N",
      AngleOf(f[4], 3, 179, "180"), f[5] == "E",
      Value(f[6]),
      Value(f[7]),
      FixedOf(f[8]),
      SignedOf(f[9]),
      SignedOf(f[11]),
      DgpsOf(f))
  }

  // ---------- Writing a record ----------

  function AgeText(age: Option<Fixed>): string
    requires age.Some? ==> age.value.Valid()
  {
    match age case None => "" case Some(x) => x.Text()
  }

  function DgpsFields(dgps: Dgps): seq<string>
    requires !dgps.NoSlots? && dgps.age.Some? ==> dgps.age.value.Valid()
  {
    match dgps
    case NoSlots => []
    case AgeSlot(age) => [AgeText(age)]
    case AgeAndStation(age, station) => [AgeText(age), Shortest(station)]
  }

  /** The fixed fields after the identifier. */
  function FixedTexts(r: Record): (f: seq<string>)
    requires r.Valid()
    ensures |f| == 12
  {
    [ r.clock.Text(),
      r.latitude.Text(2), if r.north then "N" else "S",
      r.longitude.Text(3), if r.east then "E" else "W",
      Shortest(r.fix),
      Shortest(r.satellites),
      r.precision.Text(),
      r.altitude.Text(), "M",
      r.geoid.Text(), "M" ]
  }

  /** The sentence's fields, given the two checksum digits. */
  function RecordFields(r: Record, digits: string): (f: seq<string>)
    requires r.Valid()
    ensures 14 <= |f| <= 16
  {
    [GPGGA_ID] + FixedTexts(r) + DgpsFields(r.dgps) + ["*" + digits]
  }

  lemma WrittenTexts(r: Record, digits: string)
    requires r.Valid()
    ensures var f := RecordFields(r, digits);
            && f[0] == GPGGA_ID
            && f[1] == r.clock.Text()
            && f[2] == r.latitude.Text(2) && f[3] == (if r.north then "N" else "S")
            && f[4] == r.longitude.Text(3) && f[5] == (if r.east then "E" else "W")
            && f[6] == Shortest(r.fix) && f[7] == Shortest(r.satellites)
            && f[8] == r.precision.Text()
            && f[9] == r.altitude.Text() && f[10] == "M"
            && f[11] == r.geoid.Text() && f[12] == "M"
            && f[13..] == DgpsFields(r.dgps) + ["*" + digits]
  {
    hide Clock.Text, Angle.Text, Fixed.Text, Signed.Text, Shortest, DgpsFields;
  }

  lemma FixText(fix: nat)
    requires fix <= 2
    ensures Shortest(fix) in {"0", "1", "2"}
  {
    assert Shortest(fix) == [DigitChar(fix)];
  }

  lemma FixedFieldsWritten(r: Record, digits: string)
    requires r.Valid()
    ensures FixedFields(RecordFields(r, digits))
  {
    hide RecordFields, IsTimestamp, IsLatitude, IsLongitude, IsDecimal, IsSigned, Shortest;
    hide Clock.Text, Angle.Text, Fixed.Text, Signed.Text, ClockOf, AngleOf, FixedOf, SignedOf, IsBare;
    WrittenTexts(r, digits);
    ClockText(r.clock);
    LatitudeText(r.latitude);
    LongitudeText(r.longitude);
    FixText(r.fix);
    FixedText(r.precision);
    SignedText(r.altitude);
    SignedText(r.geoid);
  }

  lemma LayoutWritten(r: Record, digits: string)
    requires r.Valid() && |digits| == 2 && All(digits, HEX_CHARS)
    ensures IsLayout(RecordFields(r, digits))
    ensures DgpsOf(RecordFields(r, digits)) == r.dgps
  {
    hide RecordFields, FixedFields, IsDecimal, FixedOf, IsInteger, Value, DgpsFields, IsChecksum;
    var f := RecordFields(r, digits);
    FixedFieldsWritten(r, digits);
    WrittenTexts(r, digits);
    var tail := f[13..];
    DgpsRead(r.dgps, digits, tail);
    assert f[|f| - 1] == tail[|tail| - 1];
    assert |tail| >= 2 ==> f[13] == tail[0];
    assert |tail| == 3 ==> f[14] == tail[1];
  }

  lemma DgpsRead(dgps: Dgps, digits: string, tail: seq<string>)
    requires !dgps.NoSlots? && dgps.age.Some? ==> dgps.age.value.Valid()
    requires |digits| == 2 && All(digits, HEX_CHARS)
    requires tail == DgpsFields(dgps) + ["*" + digits]
    ensures |tail| == if dgps.NoSlots? then 1 else if dgps.AgeSlot? then 2 else 3
    ensures IsChecksum(tail[|tail| - 1])
    ensures !dgps.NoSlots? ==> if dgps.age.None? then tail[0] == "" else
              tail[0] != "" && IsDecimal(tail[0]) && FixedOf(tail[0]) == dgps.age.value
    ensures dgps.AgeAndStation? ==> IsInteger(tail[1]) && Value(tail[1]) == dgps.station
  {
    assert ("*" + digits)[1..] == digits;
    if !dgps.NoSlots? {
      AgeRead(dgps.age);
    }
  }

  lemma AgeRead(age: Option<Fixed>)
    requires age.Some? ==> age.value.Valid()
    ensures AgeText(age) == "" <==> age.None?
    ensures age.Some? ==> IsDecimal(AgeText(age)) && FixedOf(AgeText(age)) == age.value
  {
    if age.Some? {
      FixedText(age.value);
    }
  }

  /** Reading the written fields gives the record back. */
  lemma RecordFieldsRead(r: Record, digits: string)
    requires r.Valid() && |digits| == 2 && All(digits, HEX_CHARS)
    ensures IsLayout(RecordFields(r, digits))
    ensures RecordOf(RecordFields(r, digits)) == r
    ensures !IsBare(RecordFields(r, digits)[2], "90") && !IsBare(RecordFields(r, digits)[4], "180")
  {
    hide RecordFields, IsLayout, IsTimestamp, IsLatitude, IsLongitude, IsDecimal, IsSigned, Shortest;
    hide Clock.Text, Angle.Text, Fixed.Text, Signed.Text, ClockOf, AngleOf, FixedOf, SignedOf, IsBare;
    LayoutWritten(r, digits);
    WrittenTexts(r, digits);
    ClockText(r.clock);
    LatitudeText(r.latitude);
    LongitudeText(r.longitude);
    FixedText(r.precision);
    SignedText(r.altitude);
    SignedText(r.geoid);
  }
}
