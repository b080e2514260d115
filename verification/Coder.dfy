/** `EasyNmeaCoder::decode`: three gates, then the GPGGA grammar, then field-by-field conversion. */
module Coder {
  import opened Angles
  import opened Checksum
  import opened Grammar
  import opened Layout
  import opened Numerals
  import opened Records
  import opened Regex
  import opened Text
  import opened Wrappers

  /** `Terminates`: a standard library conversion throws inside a `noexcept` function. */
  datatype Decoded = Gpgga(data: GpggaData) | Invalid | Terminates

  datatype DataKind = GPGGA_KIND | INVALID_KIND

  /** Conversion of an `int` to `uint16_t`. */
  function Uint16(n: nat): nat { n % 0x1_0000 }

  // ---------- Conversion ----------

  lemma AnglesHavePoints(f: seq<string>)
    requires IsLayout(f)
    ensures '.' in f[2] && '.' in f[4]
  {
    assert FieldIs(2, f[2]) && FieldIs(4, f[4]);
    if '.' !in f[2] { FieldsOne(f[2], '.'); }
    if '.' !in f[4] { FieldsOne(f[4], '.'); }
  }

  function AgeOf(f: seq<string>): Option<real>
    requires IsLayout(f)
  {
    if |f| >= 15 && f[13] != "" then Stof(f[13]) else Some(-1.0)
  }

  function StationOf(f: seq<string>): Option<nat>
    requires IsLayout(f)
  {
    if |f| == 16 then Stoi(f[14]) else Some(0)
  }

  /** Collecting the converted fields; a conversion that threw brings the process down. */
  function Assemble(
    timestamp: Option<real>, latitude: Option<real>, north: bool, longitude: Option<real>, east: bool,
    fix: Option<nat>, satellites: Option<nat>, precision: Option<real>, altitude: Option<real>,
    geoid: Option<real>, age: Option<real>, station: Option<nat>): Decoded
  {
    if timestamp == None || latitude == None || longitude == None || fix == None || satellites == None
       || precision == None || altitude == None || geoid == None || age == None || station == None then Terminates
    else
      Gpgga(GpggaData(
        timestamp.value,
        if north then latitude.value else -latitude.value,
        if east then longitude.value else -longitude.value,
        Uint16(fix.value),
        Uint16(satellites.value),
        precision.value,
        altitude.value,
        geoid.value,
        age.value,
        Uint16(station.value)))
  }

  /** The field conversions, by position. */
  function Convert(f: seq<string>): Decoded
    requires IsLayout(f)
  {
    AnglesHavePoints(f);
    Assemble(
      Stof(f[1]), Degrees(f[2]), f[3] == "N", Degrees(f[4]), f[5] == "E",
      Stoi(f[6]), Stoi(f[7]), Stof(f[8]), Stof(f[9]), Stof(f[11]), AgeOf(f), StationOf(f))
  }

  function GpggaDecoding(sentence: string): Decoded {
    if Matches(GPGGA, sentence) then
      GrammarIsLayout(sentence);
      Convert(Fields(sentence, ','))
    else Invalid
  }

  function Kind(sentence: string): DataKind {
    if sentence[..Find(sentence, ',')] == GPGGA_ID then GPGGA_KIND else INVALID_KIND
  }

  /** All gates and the conversion. */
  function Decoding(sentence: string): Decoded {
    if !Matches(BASIC, sentence) then Invalid else
      BasicIsBasic(sentence);
      if !ChecksumHolds(sentence) then Invalid else
        match Kind(sentence)
        case GPGGA_KIND => GpggaDecoding(sentence)
        case INVALID_KIND => Invalid
  }

  /** The source's assignments to a fresh sample, in order. */
  method DecodeGpgga(sentence: string) returns (decoded: Decoded)
    ensures decoded == GpggaDecoding(sentence)
  {
    if !Matches(GPGGA, sentence) {
      return Invalid;
    }
    var fields := Split(sentence, ',');
    GrammarIsLayout(sentence);
    decoded := FillSample(fields);
  }

  method FillSample(fields: seq<string>) returns (decoded: Decoded)
    requires IsLayout(fields)
    ensures decoded == Convert(fields)
  {
    hide Stof, Stoi, Degrees, FixedFields;
    AnglesHavePoints(fields);
    var timestamp := Stof(fields[1]);
    var latitude := ToDegrees(fields[2]);
    var longitude := ToDegrees(fields[4]);
    if timestamp == None || latitude == None || longitude == None {
      return Terminates;
    }
    if fields[3] != "N" {
      latitude := Some(-latitude.value);
    }
    if fields[5] != "E" {
      longitude := Some(-longitude.value);
    }
    var fix, satellites := Stoi(fields[6]), Stoi(fields[7]);
    var precision, altitude, geoid := Stof(fields[8]), Stof(fields[9]), Stof(fields[11]);
    if fix == None || satellites == None || precision == None || altitude == None || geoid == None {
      return Terminates;
    }
    var age, station := -1.0, 0;
    if |fields| >= 15 && fields[13] != "" {
      var converted := Stof(fields[13]);
      if converted == None {
        return Terminates;
      }
      age := converted.value;
    }
    if |fields| == 16 {
      var converted := Stoi(fields[14]);
      if converted == None {
        return Terminates;
      }
      station := converted.value;
    }
    decoded := Gpgga(GpggaData(
      timestamp.value, latitude.value, longitude.value, Uint16(fix.value), Uint16(satellites.value),
      precision.value, altitude.value, geoid.value, age, Uint16(station)));
  }

  method Decode(sentence: string) returns (decoded: Decoded)
    ensures decoded == Decoding(sentence)
  {
    if !Matches(BASIC, sentence) {
      return Invalid;
    }
    BasicIsBasic(sentence);
    var valid := ValidateChecksum(sentence);
    if !valid {
      return Invalid;
    }
    match Kind(sentence) {
      case GPGGA_KIND => decoded := DecodeGpgga(sentence);
      case INVALID_KIND => return Invalid;
    }
  }

  // ---------- The gates ----------

  /** A sentence passes every gate and the grammar exactly when it is in the GPGGA language and its
      two digits equal the exclusive or of its body. */
  predicate Accepted(s: string) {
    && Matches(GPGGA, s)
    && IsBasic(s) && ChecksumHolds(s)
  }

  lemma GatesAreAccepted(s: string)
    ensures Decoding(s) != Invalid <==> Accepted(s)
    ensures Accepted(s) ==> Decoding(s) == GpggaDecoding(s)
  {
    hide Stof, Stoi, Degrees, AgeOf, StationOf, Fold, Hex, Fields;
    BasicIsBasic(s);
    GrammarIsLayout(s);
    var f := Fields(s, ',');
    if IsLayout(f) {
      LayoutIsBasic(s, f);
      assert FieldIs(0, f[0]);
      KindIsFirstField(s);
    }
  }

  lemma KindIsFirstField(s: string)
    ensures s[..Find(s, ',')] == Fields(s, ',')[0]
  {
  }

  /** Every GPGGA sentence is a basic sentence, so the two grammars nest. */
  lemma GrammarsNest(s: string)
    requires Matches(GPGGA, s)
    ensures Matches(BASIC, s) && Kind(s) == GPGGA_KIND
  {
    BasicIsBasic(s);
    GrammarIsLayout(s);
    LayoutIsBasic(s, Fields(s, ','));
    assert FieldIs(0, Fields(s, ',')[0]);
  }

  // ---------- Corrupted sentences ----------

  /** The other spelling of the same checksum digit. */
  predicate SameDigit(s: string, k: nat, c: char)
    requires k < |s|
  {
    |s| <= k + 2 && SameLetter(s[k], c)
  }

  /** Changing a single character anywhere in an accepted sentence, to any other character, gets it
      rejected, unless only the letter case of a checksum digit changes. */
  lemma CorruptionDetected(s: string, k: nat, c: char)
    requires Decoding(s) != Invalid && k < |s| && c != s[k]
    ensures Decoding(s[k := c]) != Invalid <==> SameDigit(s, k, c)
  {
    GatesAreAccepted(s);
    GatesAreAccepted(s[k := c]);
    hide Decoding, Matches, Fold;
    var t := s[k := c];
    if 1 <= k < |s| - 3 {
      if IsBasic(t) { SingleChangeDetected(s, k, c); }
    } else if k < |s| - 2 {
      assert !IsBasic(t);
    } else {
      ChangedDigit(s, k, c);
    }
  }

  lemma ChangedDigit(s: string, k: nat, c: char)
    requires Accepted(s) && |s| - 2 <= k < |s| && c != s[k]
    ensures Accepted(s[k := c]) <==> SameDigit(s, k, c)
  {
    hide Matches, Fold, SameLetter, HexDigit, Hex, Accepted;
    AcceptedBasic(s);
    var at := k - (|s| - 2);
    var digits := Digits(s)[at := c];
    assert s[..|s| - 2] + digits == s[k := c] && s[k] == Digits(s)[at];
    SameLetterValue(s[k], c);
    ChangedDigits(s, digits);
    if c in HEX_CHARS {
      OtherDigit(Digits(s), at, c);
    } else {
      assert digits[at] == c;
    }
  }

  lemma AcceptedBasic(s: string)
    requires Accepted(s)
    ensures IsBasic(s)
  {
  }

  lemma ChangedDigits(s: string, digits: string)
    requires Accepted(s) && |digits| == 2
    ensures Accepted(s[..|s| - 2] + digits) <==> All(digits, HEX_CHARS) && Hex(digits) == Hex(Digits(s))
  {
    hide Matches, Fold, Hex;
    var t := s[..|s| - 2] + digits;
    assert Body(t) == Body(s) && Digits(t) == digits;
    if All(digits, HEX_CHARS) {
      NewDigits(s, digits);
    }
  }

  lemma OtherDigit(digits: string, at: nat, c: char)
    requires |digits| == 2 && All(digits, HEX_CHARS) && at < 2 && c in HEX_CHARS
    ensures All(digits[at := c], HEX_CHARS)
    ensures Hex(digits[at := c]) == Hex(digits) <==> HexDigit(c) == HexDigit(digits[at])
  {
    hide HexDigit;
  }

  /** Other digits keep a sentence in the GPGGA language. */
  lemma NewDigits(s: string, digits: string)
    requires Matches(GPGGA, s) && IsBasic(s) && |digits| == 2 && All(digits, HEX_CHARS)
    ensures var t := s[..|s| - 2] + digits;
            && Matches(GPGGA, t) && IsBasic(t)
            && var f, g := Fields(s, ','), Fields(t, ','); |g| == |f| && g[..|f| - 1] == f[..|f| - 1]
  {
    hide Matches, IsLayout, Fields, IsBasic;
    GrammarIsLayout(s);
    var f := Fields(s, ',');
    JoinFields(s, ',');
    LayoutSize(f);
    LastIsChecksum(f);
    BodyJoin(f);
    var g := f[..|f| - 1] + ["*" + digits];
    SealedLayout(f, digits);
    SeparatedLayout(g);
    FieldsJoin(g, ',');
    BodyJoin(g);
    var t := s[..|s| - 2] + digits;
    assert g[..|g| - 1] == f[..|f| - 1];
    assert |f[|f| - 1]| == 3 by { LastWidth(f); }
    assert s == "$" + BodyOf(f) + "*" + f[|f| - 1][1..];
    assert s[..|s| - 2] == "$" + BodyOf(f) + "*";
    assert t == Join(g, ',');
    GrammarIsLayout(t);
    GrammarsNest(t);
    BasicIsBasic(t);
  }

  /** `t` is `s` with its last two characters in another letter case. */
  predicate Respelled(s: string, t: string) {
    && |s| == |t| && |s| >= 2 && s[..|s| - 2] == t[..|s| - 2]
    && SameLetter(s[|s| - 2], t[|s| - 2]) && SameLetter(s[|s| - 1], t[|s| - 1])
  }

  /** The letter case of the checksum digits makes no difference, for any line. */
  lemma CaseBlind(s: string, t: string)
    requires Respelled(s, t)
    ensures Decoding(t) == Decoding(s)
  {
    hide Decoding, SameLetter;
    if Decoding(s) != Invalid {
      RespelledSame(s, t);
    } else if Decoding(t) != Invalid {
      RespelledBack(s, t);
      RespelledSame(t, s);
    }
  }

  lemma RespelledBack(s: string, t: string)
    requires Respelled(s, t)
    ensures Respelled(t, s)
  {
  }

  lemma RespelledSame(s: string, t: string)
    requires Respelled(s, t) && Decoding(s) != Invalid
    ensures Decoding(t) == Decoding(s)
  {
    hide Decoding, Matches, Fold, SameLetter, HexDigit, Fields, GpggaDecoding, Convert, IsLayout;
    GatesAreAccepted(s);
    GatesAreAccepted(t);
    RespelledDigits(s, t);
    NewDigits(s, Digits(t));
    assert Body(t) == Body(s);
    GpggaConverts(s);
    GpggaConverts(t);
    ConvertHead(Fields(s, ','), Fields(t, ','));
  }

  lemma RespelledDigits(s: string, t: string)
    requires Respelled(s, t) && IsBasic(s)
    ensures |t| >= 5 && All(Digits(t), HEX_CHARS) && Hex(Digits(t)) == Hex(Digits(s))
    ensures s[..|s| - 2] + Digits(t) == t
  {
    hide SameLetter, HexDigit;
    SameLetterValue(Digits(s)[0], Digits(t)[0]);
    SameLetterValue(Digits(s)[1], Digits(t)[1]);
  }

  lemma GpggaConverts(s: string)
    requires Matches(GPGGA, s)
    ensures IsLayout(Fields(s, ',')) && GpggaDecoding(s) == Convert(Fields(s, ','))
  {
    hide Matches, IsLayout, Convert, Fields;
    GrammarIsLayout(s);
  }

  /** The conversions do not look at the checksum. */
  lemma ConvertHead(f: seq<string>, g: seq<string>)
    requires IsLayout(f) && IsLayout(g) && |g| == |f| && g[..|f| - 1] == f[..|f| - 1]
    ensures Convert(g) == Convert(f)
  {
    hide Stof, Stoi, Degrees, FixedFields, IsChecksum, IsDecimal, IsInteger;
    assert forall k | 0 <= k < |f| - 1 :: g[k] == g[..|f| - 1][k] == f[k];
  }

  lemma LastWidth(f: seq<string>)
    requires IsLayout(f)
    ensures |f[|f| - 1]| == 3
  {
  }

  // ---------- What can throw ----------

  /** The angles are in degree-minute form and every integer fits `uint16_t`. */
  predicate Faithful(f: seq<string>)
    requires IsLayout(f)
  {
    FieldsKnown(f);
    && !IsBare(f[2], "90") && !IsBare(f[4], "180")
    && Value(f[7]) < 0x1_0000
    && (|f| == 16 ==> Value(f[14]) < 0x1_0000)
  }

  lemma IntegerConversions(f: seq<string>)
    requires IsLayout(f)
    ensures IsInteger(f[6]) && IsInteger(f[7])
    ensures Stoi(f[6]) == Some(Value(f[6])) && Value(f[6]) <= 2
    ensures Stoi(f[7]) == if Value(f[7]) <= INT_MAX then Some(Value(f[7])) else None
    ensures |f| == 16 ==> StationOf(f) == if Value(f[14]) <= INT_MAX then Some(Value(f[14])) else None
  {
    FieldsKnown(f);
    assert Value("0") == 0 && Value("1") == 1 && Value("2") == 2;
    StoiDigits(f[6]);
    StoiDigits(f[7]);
    if |f| == 16 {
      StoiDigits(f[14]);
    }
  }

  lemma RealConversions(f: seq<string>)
    requires IsLayout(f)
    ensures Stof(f[1]) == Some(RecordOf(f).clock.Real())
    ensures Stof(f[8]) == Some(RecordOf(f).precision.Real())
    ensures Stof(f[9]) == Some(RecordOf(f).altitude.Real())
    ensures Stof(f[11]) == Some(RecordOf(f).geoid.Real())
    ensures AgeOf(f) == Some(RecordOf(f).Data().dgpsLastUpdate)
  {
    hide Stof, FixedFields, Fixed.Real, Signed.Real, Clock.Real, ClockOf, FixedOf, SignedOf;
    hide IsDecimal, IsSigned, IsTimestamp;
    FieldsKnown(f);
    ClockValue(f[1]);
    DecimalValue(f[8]);
    SignedValue(f[9]);
    SignedValue(f[11]);
    if |f| >= 15 && f[13] != "" {
      DecimalValue(f[13]);
    }
  }

  lemma LatitudeConversion(f: seq<string>)
    requires IsLayout(f)
    ensures '.' in f[2]
    ensures Degrees(f[2]) == if IsBare(f[2], "90") then None else Some(RecordOf(f).latitude.Real())
  {
    hide Degrees, Stof, FixedFields, AngleOf, IsBare;
    FieldsKnown(f);
    if IsBare(f[2], "90") {
      BareAngleValue(f[2], 2, 89, "90");
    } else {
      WholeAngleValue(f[2], 2, 89, "90");
    }
  }

  lemma LongitudeConversion(f: seq<string>)
    requires IsLayout(f)
    ensures '.' in f[4]
    ensures Degrees(f[4]) == Some(if IsBare(f[4], "180") then 1.0 + 80.0 / 60.0 else RecordOf(f).longitude.Real())
    ensures IsBare(f[4], "180") ==> RecordOf(f).longitude.Real() == 180.0 && RecordOf(f).longitude.minutes == 0
  {
    hide Degrees, Stof, FixedFields;
    FieldsKnown(f);
    if IsBare(f[4], "180") {
      BareAngleValue(f[4], 3, 179, "180");
      OneEighty();
      DescaleOrder(0.0, 0.0, RecordOf(f).longitude.scale);
    } else {
      WholeAngleValue(f[4], 3, 179, "180");
    }
  }

  lemma OneEighty()
    ensures "180"[..1] == "1" && "180"[1..] == "80"
    ensures Value("1") == 1 && Value("80") == 80 && Value("180") == 180
  {
    TwoDigits("80");
    ThreeDigits("180");
    assert "1"[..0] == "";
  }

  /** What the conversions of a well-formed record give, throwing included. */
  function Outcome(r: Record, bareLatitude: bool, bareLongitude: bool): Decoded {
    if bareLatitude || r.satellites > INT_MAX || (r.dgps.AgeAndStation? && r.dgps.station > INT_MAX) then Terminates
    else
      var want := r.Data();
      var seven := 1.0 + 80.0 / 60.0;
      Gpgga(want.(
        longitude := if !bareLongitude then want.longitude else if r.east then seven else -seven,
        satellitesOnView := Uint16(want.satellitesOnView),
        dgpsReferenceStationId := Uint16(want.dgpsReferenceStationId)))
  }

  lemma ConvertOutcome(f: seq<string>, r: Record)
    requires IsLayout(f) && r == RecordOf(f)
    ensures Convert(f) == Outcome(r, IsBare(f[2], "90"), IsBare(f[4], "180"))
  {
    hide Stof, Stoi, Degrees, FixedFields, FixedOf, SignedOf, ClockOf, AngleOf, Value;
    hide Fixed.Real, Signed.Real, Clock.Real, Angle.Real;
    IntegerConversions(f);
    RealConversions(f);
    LatitudeConversion(f);
    LongitudeConversion(f);
    var lat := if IsBare(f[2], "90") then None else Some(r.latitude.Real());
    var lon := Some(if IsBare(f[4], "180") then 1.0 + 80.0 / 60.0 else r.longitude.Real());
    var sats := if r.satellites <= INT_MAX then Some(r.satellites) else None;
    assert Convert(f) == Assemble(
      Some(r.clock.Real()), lat, r.north, lon, r.east, Some(r.fix), sats, Some(r.precision.Real()),
      Some(r.altitude.Real()), Some(r.geoid.Real()), Some(r.Data().dgpsLastUpdate), StationOf(f));
  }

  lemma DecodedOutcome(s: string)
    requires Accepted(s)
    ensures IsLayout(Fields(s, ','))
    ensures var f := Fields(s, ',');
            Decoding(s) == Outcome(RecordOf(f), IsBare(f[2], "90"), IsBare(f[4], "180"))
  {
    hide Convert, Outcome, FieldIs, Matches, Value, IsBare, Fields;
    GatesAreAccepted(s);
    GrammarIsLayout(s);
    ConvertOutcome(Fields(s, ','), RecordOf(Fields(s, ',')));
  }

  /** Decoding an accepted sentence brings the process down exactly when the latitude is the bare
      "90" form or an integer field exceeds `int`. */
  lemma TerminatesExactly(s: string)
    requires Accepted(s)
    ensures IsLayout(Fields(s, ','))
    ensures var f := Fields(s, ',');
            Decoding(s) == Terminates <==>
            IsBare(f[2], "90") || RecordOf(f).satellites > 0x7fff_ffff
            || (RecordOf(f).dgps.AgeAndStation? && RecordOf(f).dgps.station > 0x7fff_ffff)
  {
    hide Convert, FieldIs, Matches, Value, IsBare, Record.Data, Fields, Decoding;
    DecodedOutcome(s);
  }

  // ---------- Main results ----------

  /** An accepted sentence decodes to exactly what its fields say if and only if its angles are in
      degree-minute form and its integers fit `uint16_t`. */
  lemma DecodingIsMeaning(s: string)
    requires Accepted(s)
    ensures IsLayout(Fields(s, ','))
    ensures Decoding(s) == Gpgga(RecordOf(Fields(s, ',')).Data()) <==> Faithful(Fields(s, ','))
  {
    hide Convert, Outcome, FieldIs, Matches, Value, IsBare, Record.Data, Fields;
    DecodedOutcome(s);
    var f := Fields(s, ',');
    LongitudeConversion(f);
    IntegerConversions(f);
    OutcomeExact(RecordOf(f), IsBare(f[2], "90"), IsBare(f[4], "180"));
  }

  /** A decoded integer lies below 65536 and differs from the written one by a multiple of 65536. */
  lemma DecodedIntegers(s: string) returns (a: nat, b: nat)
    requires Decoding(s).Gpgga?
    ensures IsLayout(Fields(s, ','))
    ensures var d, r := Decoding(s).data, RecordOf(Fields(s, ','));
            && d.fix == r.fix <= 2
            && d.satellitesOnView < 65536 && r.satellites == d.satellitesOnView + 65536 * a
            && d.dgpsReferenceStationId < 65536
            && (if r.dgps.AgeAndStation? then r.dgps.station else 0) == d.dgpsReferenceStationId + 65536 * b
  {
    hide Decoding, Outcome, IsLayout, Fields, IsBare, Accepted, RecordOf;
    GatesAreAccepted(s);
    DecodedOutcome(s);
    var f := Fields(s, ',');
    LayoutSize(f);
    IntegerConversions(f);
    RecordFix(f);
    a, b := OutcomeIntegers(RecordOf(f), IsBare(f[2], "90"), IsBare(f[4], "180"));
  }

  lemma OutcomeIntegers(r: Record, bareLatitude: bool, bareLongitude: bool) returns (a: nat, b: nat)
    requires Outcome(r, bareLatitude, bareLongitude).Gpgga?
    ensures var d := Outcome(r, bareLatitude, bareLongitude).data;
            && d.fix == r.fix
            && d.satellitesOnView < 65536 && r.satellites == d.satellitesOnView + 65536 * a
            && d.dgpsReferenceStationId < 65536
            && (if r.dgps.AgeAndStation? then r.dgps.station else 0) == d.dgpsReferenceStationId + 65536 * b
  {
    a := r.satellites / 65536;
    b := if r.dgps.AgeAndStation? then r.dgps.station / 65536 else 0;
  }

  lemma OutcomeExact(r: Record, bareLatitude: bool, bareLongitude: bool)
    requires bareLongitude ==> r.longitude.Real() == 180.0
    requires r.fix <= 2
    ensures Outcome(r, bareLatitude, bareLongitude) == Gpgga(r.Data()) <==>
            && !bareLatitude && !bareLongitude
            && r.satellites < 0x1_0000
            && (r.dgps.AgeAndStation? ==> r.dgps.station < 0x1_0000)
  {
  }

  // ---------- Ranges ----------

  /** A decoded angle may exceed its limit only through minutes "60" with a non-zero fraction. */
  lemma AngleRange(x: Angle, top: nat)
    requires x.Valid(top)
    ensures 0.0 <= x.Real() < (top + 1) as real + 1.0 / 60.0
    ensures x.minutes < 60 ==> x.Real() < (top + 1) as real
    ensures x.Real() > (top + 1) as real <==> x.degrees == top && x.minutes == 60 && x.fraction > 0
  {
    var u := Descale(x.fraction as real, x.scale);
    DescaleOrder(0.0, x.fraction as real, x.scale);
    PowShift(x.scale);
    DescaleShift(1, x.scale);
    DescaleOrder(x.fraction as real, Shift(1, x.scale) as real, x.scale);
    assert 0.0 <= u < 1.0;
    assert u > 0.0 <==> x.fraction > 0;
  }

  /** A signed coordinate stays within one minute of its limit, its sign tells the bearing, and it
      exceeds the limit exactly for minutes "60" with a non-zero fraction on the last degree. */
  predicate WithinLimit(v: real, x: Angle, top: nat, positive: bool) {
    var limit := (top + 1) as real;
    && -(limit + 1.0 / 60.0) < v < limit + 1.0 / 60.0
    && (v > 0.0 ==> positive) && (v < 0.0 ==> !positive)
    && (-limit <= v <= limit <==> !(x.degrees == top && x.minutes == 60 && x.fraction > 0))
  }

  /** Every decoded sample lies within one minute of the earth's coordinates; north and east are
      positive. */
  lemma SampleRanges(s: string)
    requires Decoding(s).Gpgga?
    ensures IsLayout(Fields(s, ','))
    ensures var d, r := Decoding(s).data, RecordOf(Fields(s, ','));
            && WithinLimit(d.latitude, r.latitude, 89, r.north)
            && WithinLimit(d.longitude, r.longitude, 179, r.east)
            && d.fix <= 2
  {
    hide *;
    GatesAreAccepted(s);
    DecodedOutcome(s);
    var f := Fields(s, ',');
    var r := RecordOf(f);
    LayoutSize(f);
    LongitudeConversion(f);
    IntegerConversions(f);
    RecordAngles(f);
    RecordFix(f);
    OutcomeRanges(r, IsBare(f[2], "90"), IsBare(f[4], "180"));
  }

  lemma RecordFix(f: seq<string>)
    requires IsLayout(f) && IsInteger(f[6])
    ensures RecordOf(f).fix == Value(f[6])
  {
  }

  lemma OutcomeRanges(r: Record, bareLatitude: bool, bareLongitude: bool)
    requires Outcome(r, bareLatitude, bareLongitude).Gpgga?
    requires !bareLatitude ==> r.latitude.Valid(89)
    requires if bareLongitude then r.longitude.minutes == 0 else r.longitude.Valid(179)
    ensures var d := Outcome(r, bareLatitude, bareLongitude).data;
            && WithinLimit(d.latitude, r.latitude, 89, r.north)
            && WithinLimit(d.longitude, r.longitude, 179, r.east)
            && d.fix == r.fix
  {
    AngleRange(r.latitude, 89);
    if !bareLongitude {
      AngleRange(r.longitude, 179);
    }
    hide Angle.Real;
  }

  lemma RecordAngles(f: seq<string>)
    requires IsLayout(f)
    ensures !IsBare(f[2], "90") ==> RecordOf(f).latitude.Valid(89)
    ensures !IsBare(f[4], "180") ==> RecordOf(f).longitude.Valid(179)
  {
    hide FixedFields, AngleOf, IsBare;
    FieldsKnown(f);
    if !IsBare(f[2], "90") {
      WholeAngleValue(f[2], 2, 89, "90");
    }
    if !IsBare(f[4], "180") {
      WholeAngleValue(f[4], 3, 179, "180");
    }
  }

  // ---------- Round trip ----------

  /** What the checksum of a sentence with these fields covers. */
  function BodyOf(f: seq<string>): string
    requires IsLayout(f)
  {
    FirstFieldNotEmpty(f);
    Join(f[..|f| - 1], ',')[1..] + ","
  }

  lemma FirstFieldNotEmpty(f: seq<string>)
    requires IsLayout(f)
    ensures Join(f[..|f| - 1], ',') != "" && Join(f[..|f| - 1], ',')[0] == '$'
  {
    assert FieldIs(0, f[0]);
  }

  lemma BodyJoin(f: seq<string>)
    requires IsLayout(f)
    ensures Join(f, ',') == "$" + BodyOf(f) + f[|f| - 1]
  {
    LayoutSize(f);
    FirstFieldNotEmpty(f);
    JoinLast(f, ',');
    hide IsLayout, Join;
    var head := Join(f[..|f| - 1], ',');
    assert head == "$" + head[1..];
  }

  lemma BodyChars(f: seq<string>)
    requires IsLayout(f)
    ensures All(BodyOf(f), DATA_CHARS)
    ensures Join(f, ',') == "$" + BodyOf(f) + f[|f| - 1]
  {
    hide *;
    BodyJoin(f);
    LayoutSize(f);
    LastIsChecksum(f);
    var body, digits := LayoutParts(f);
    SameBody(body, BodyOf(f), digits, f[|f| - 1]);
  }

  lemma LayoutSize(f: seq<string>)
    requires IsLayout(f)
    ensures 14 <= |f| <= 16
  {
  }

  lemma LastIsChecksum(f: seq<string>)
    requires IsLayout(f)
    ensures |f[|f| - 1]| >= 1 && f[|f| - 1] == "*" + f[|f| - 1][1..]
  {
  }

  lemma SameBody(a: string, b: string, digits: string, last: string)
    requires |last| >= 1 && last == "*" + last[1..] && digits == last[1..]
    requires "$" + a + "*" + digits == "$" + b + last
    ensures a == b
  {
    var s := "$" + b + last;
    assert |a| == |b|;
    assert s[1..|a| + 1] == a && s[1..|b| + 1] == b;
  }

  /** The fields with the checksum computed from the rest. */
  function Sealed(f: seq<string>): (g: seq<string>)
    requires IsLayout(f)
    ensures |g| == |f| && g[..|f| - 1] == f[..|f| - 1]
  {
    BodyChars(f);
    FoldBound(BodyOf(f));
    f[..|f| - 1] + ["*" + HexText(Fold(BodyOf(f)))]
  }

  lemma LayoutKeepsHead(f: seq<string>, g: seq<string>)
    requires IsLayout(f) && |g| == |f| && g[..|f| - 1] == f[..|f| - 1] && IsChecksum(g[|f| - 1])
    ensures IsLayout(g) && BodyOf(g) == BodyOf(f)
  {
    hide IsDecimal, IsInteger, IsChecksum;
    assert forall k | 0 <= k < |f| - 1 :: g[k] == g[..|f| - 1][k] == f[k];
    forall k | 0 <= k < 13 ensures FieldIs(k, g[k]) {
      assert FieldIs(k, f[k]);
    }
  }

  lemma SeparatedLayout(f: seq<string>)
    requires IsLayout(f)
    ensures Separated(f, ',')
  {
    forall k | 0 <= k < |f| ensures ',' !in f[k] {
      if k < 13 {
        assert FieldIs(k, f[k]);
        FieldsAvoidCommas();
        FieldMatches(k, f[k]);
        MatchesAlphabet(FIELDS[k], f[k]);
      } else if k == |f| - 1 {
        ChecksumHasNoComma(f[k]);
        JoinFields(f[k], ',');
      } else if k == 13 && f[13] != "" {
        DecimalMatches(f[13]);
        MatchesAlphabet(DECIMAL, f[13]);
      }
    }
  }

  /** Any fields of the right layout, sealed and joined, make an accepted sentence. */
  lemma SealedAccepted(f: seq<string>)
    requires IsLayout(f)
    ensures IsLayout(Sealed(f))
    ensures Fields(Join(Sealed(f), ','), ',') == Sealed(f)
    ensures Accepted(Join(Sealed(f), ','))
  {
    hide IsLayout, Fold, HexText, Fields, Matches;
    var g := Sealed(f);
    var s := Join(g, ',');
    var body := BodyOf(f);
    BodyChars(f);
    FoldBound(body);
    var digits := HexText(Fold(body));
    SealedLayout(f, digits);
    SeparatedLayout(g);
    FieldsJoin(g, ',');
    GrammarIsLayout(s);
    BodyChars(g);
    assert s == "$" + body + "*" + digits;
    assert body[0] in ID_CHARS by { BodyStart(f); }
    BasicParts(body, digits);
  }

  lemma SealedLayout(f: seq<string>, digits: string)
    requires IsLayout(f) && |digits| == 2 && All(digits, HEX_CHARS)
    ensures var g := f[..|f| - 1] + ["*" + digits]; IsLayout(g) && BodyOf(g) == BodyOf(f)
  {
    hide IsDecimal, IsInteger, FixedFields;
    var g := f[..|f| - 1] + ["*" + digits];
    assert ("*" + digits)[1..] == digits;
    LayoutKeepsHead(f, g);
  }

  lemma BodyStart(f: seq<string>)
    requires IsLayout(f)
    ensures BodyOf(f) != "" && BodyOf(f)[0] in ID_CHARS
  {
    hide IsDecimal, IsInteger, IsChecksum;
    assert FieldIs(0, f[0]);
    assert f[..|f| - 1][0] == GPGGA_ID;
    assert Join(f[..|f| - 1], ',')[1] == 'G';
  }

  /** The sentence for a record, with its computed checksum. */
  function Render(r: Record): string
    requires r.Valid()
  {
    RecordFieldsRead(r, "00");
    Join(Sealed(RecordFields(r, "00")), ',')
  }

  /** A written record is accepted and reads back as itself. */
  lemma RenderFields(r: Record)
    requires r.Valid()
    ensures Accepted(Render(r)) && IsLayout(Fields(Render(r), ','))
    ensures RecordOf(Fields(Render(r), ',')) == r
    ensures !IsBare(Fields(Render(r), ',')[2], "90") && !IsBare(Fields(Render(r), ',')[4], "180")
  {
    hide IsLayout, Fold, HexText, Fields, Matches, IsBare, RecordOf, Accepted, BodyOf, FixedTexts, DgpsFields, Join;
    var f := RecordFields(r, "00");
    RecordFieldsRead(r, "00");
    SealedAccepted(f);
    BodyChars(f);
    FoldBound(BodyOf(f));
    var digits := HexText(Fold(BodyOf(f)));
    assert Sealed(f) == RecordFields(r, digits);
    RecordFieldsRead(r, digits);
  }

  /** Writing a record and decoding the sentence gives exactly that record's values, as long as its
      integers fit `uint16_t` and only then. */
  lemma RoundTrip(r: Record)
    requires r.Valid()
    ensures Decoding(Render(r)) == Gpgga(r.Data()) <==>
            r.satellites < 0x1_0000 && (r.dgps.AgeAndStation? ==> r.dgps.station < 0x1_0000)
  {
    hide Render, IsLayout, Fields, Accepted, Decoding, IsBare, Record.Data;
    RenderFields(r);
    DecodingIsMeaning(Render(r));
    RecordIntegers(Fields(Render(r), ','));
  }

  lemma RecordIntegers(f: seq<string>)
    requires IsLayout(f)
    ensures IsInteger(f[7]) && RecordOf(f).satellites == Value(f[7])
    ensures |f| == 16 <==> RecordOf(f).dgps.AgeAndStation?
    ensures |f| == 16 ==> RecordOf(f).dgps.station == Value(f[14])
  {
    FieldsKnown(f);
  }

  /** Different records are written differently. */
  lemma RenderInjective(r: Record, r': Record)
    requires r.Valid() && r'.Valid() && Render(r) == Render(r')
    ensures r == r'
  {
    hide *;
    RenderFields(r) by { assert r.Valid(); }
    RenderFields(r') by { assert r'.Valid(); }
  }

  // ---------- Witnesses ----------

  /** The fields of a plain sentence around two angles; the checksum is left to `Sealed`. */
  function Witness(latitude: string, longitude: string): seq<string> {
    [GPGGA_ID, "000000", latitude, "N", longitude, "E", "1", "8", "1.0", "1.0", "M", "1.0", "M", "*00"]
  }

  lemma SampleTexts()
    ensures IsDecimal("1.0") && IsTimestamp("000000") && Fields("000000", '.') == ["000000"]
    ensures Fields("90.0", '.') == ["90", "0"] && Fields("180.0", '.') == ["180", "0"]
    ensures Fields("0000.0", '.') == ["0000", "0"] && Fields("00000.0", '.') == ["00000", "0"]
  {
    hide Fields, Find, Value;
    PointFields("1", "0");
    PointFields("90", "0");
    PointFields("180", "0");
    PointFields("0000", "0");
    PointFields("00000", "0");
    FieldsOne("000000", '.');
    assert "90.0" == "90" + "." + "0" && "0000.0" == "0000" + "." + "0" && "00000.0" == "00000" + "." + "0";
    assert "180.0" == "180" + "." + "0" && "1.0" == "1" + "." + "0";
  }

  lemma SampleAngles()
    ensures IsLatitude("90.0") && IsBare("90.0", "90")
    ensures IsLatitude("0000.0") && !IsBare("0000.0", "90")
    ensures IsLongitude("180.0") && IsBare("180.0", "180")
    ensures IsLongitude("00000.0")
  {
    SampleTexts();
    hide Fields;
    ZerosValue("00");
    ZerosValue("000");
    assert "0000"[..2] == "00" == "0000"[2..] && "00000"[..3] == "000" && "00000"[3..] == "00";
  }

  lemma WitnessLayout(latitude: string, longitude: string)
    requires IsLatitude(latitude) && IsLongitude(longitude)
    ensures IsLayout(Witness(latitude, longitude))
  {
    SampleTexts();
    hide IsTimestamp, IsLatitude, IsLongitude, IsDecimal, Fields, Find, Value;
    var f := Witness(latitude, longitude);
    assert "*00"[1..] == "00";
    assert IsInteger("8");
    assert FieldIs(1, f[1]) && FieldIs(2, f[2]) && FieldIs(4, f[4]) && FieldIs(7, f[7]);
    assert FieldIs(8, f[8]) && FieldIs(9, f[9]) && FieldIs(11, f[11]);
  }

  lemma BareLatitude(latitude: string, longitude: string) returns (s: string)
    requires IsLatitude(latitude) && IsBare(latitude, "90") && IsLongitude(longitude)
    ensures Accepted(s) && Decoding(s) == Terminates
  {
    hide IsLayout, IsBare, Fields, Accepted, Decoding, IsLatitude, IsLongitude, Sealed, Join;
    var f := Witness(latitude, longitude);
    WitnessLayout(latitude, longitude);
    SealedAccepted(f);
    s := Join(Sealed(f), ',');
    assert Sealed(f)[2] == Sealed(f)[..|f| - 1][2] == f[2];
    TerminatesExactly(s);
  }

  lemma BareLongitude(latitude: string, longitude: string) returns (s: string)
    requires IsLatitude(latitude) && !IsBare(latitude, "90")
    requires IsLongitude(longitude) && IsBare(longitude, "180")
    ensures Accepted(s) && IsLayout(Fields(s, ','))
    ensures RecordOf(Fields(s, ',')).longitude.Real() == 180.0 && RecordOf(Fields(s, ',')).east
    ensures Decoding(s).Gpgga? && Decoding(s).data.longitude == 1.0 + 80.0 / 60.0
  {
    hide IsLayout, IsBare, Fields, Accepted, Decoding, IsLatitude, IsLongitude, RecordOf, Angle.Real, Sealed, Join;
    var f := Witness(latitude, longitude);
    WitnessLayout(latitude, longitude);
    SealedAccepted(f);
    s := Join(Sealed(f), ',');
    var g := Sealed(f);
    assert g[..13] == g[..|f| - 1] == f[..|f| - 1] == f[..13];
    assert forall k | 0 <= k < 13 :: g[k] == g[..13][k] == f[k];
    DecodedOutcome(s);
    WitnessRecord(g);
    LongitudeConversion(g);
  }

  lemma WitnessRecord(f: seq<string>)
    requires IsLayout(f) && |f| == 14 && f[5] == "E" && f[7] == "8"
    ensures RecordOf(f).satellites == 8 && RecordOf(f).dgps == NoSlots && RecordOf(f).east
  {
    hide FixedFields, AngleOf, ClockOf, FixedOf, SignedOf;
    assert "8"[..0] == "";
  }

  /** A well-formed sentence at the pole brings the process down. */
  lemma PoleTerminates() returns (s: string)
    ensures Accepted(s) && Decoding(s) == Terminates
  {
    SampleAngles();
    hide *;
    s := BareLatitude("90.0", "00000.0");
  }

  /** A well-formed sentence on the antimeridian says 180 degrees and is decoded to 1 + 80/60. */
  lemma AntimeridianMisread() returns (s: string)
    ensures Accepted(s) && IsLayout(Fields(s, ','))
    ensures RecordOf(Fields(s, ',')).longitude.Real() == 180.0 && RecordOf(Fields(s, ',')).east
    ensures Decoding(s).Gpgga? && Decoding(s).data.longitude == 1.0 + 80.0 / 60.0
  {
    SampleAngles();
    hide *;
    s := BareLongitude("0000.0", "180.0");
  }
}
