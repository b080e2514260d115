/** What membership in the GPGGA grammar forces: the layout of the comma-separated fields, and
    membership in the basic grammar. */
module Layout {
  import opened Checksum
  import opened Grammar
  import opened Numerals
  import opened Regex
  import opened Text

  // ---------- The sentence as a list of fields ----------

  ghost predicate PartsMatch(parts: seq<Regex>, fields: seq<string>) {
    |parts| <= |fields| && forall k :: 0 <= k < |parts| ==> Matches(parts[k], fields[k])
  }

  /** Separator-free parts match the leading fields; the tail matches what is left. */
  lemma {:induction false} TerminatedMatches(parts: seq<Regex>, sep: char, tail: Regex, s: string)
    requires forall k :: 0 <= k < |parts| ==> sep !in Alphabet(parts[k])
    ensures Matches(Terminated(parts, sep, tail), s) <==>
            var f := Fields(s, sep);
            |f| > |parts| && PartsMatch(parts, f) && Matches(tail, Join(f[|parts|..], sep))
    decreases |parts|
  {
    hide Matches;
    var f := Fields(s, sep);
    if parts == [] {
      JoinFields(s, sep);
      assert f[0..] == f;
    } else {
      CutMatches(parts[0], sep, Terminated(parts[1..], sep, tail), s);
      var n := Find(s, sep);
      if n < |s| {
        var rest := s[n + 1..];
        TerminatedMatches(parts[1..], sep, tail, rest);
        var g := Fields(rest, sep);
        assert f == [s[..n]] + g;
        if |f| > |parts| {
          assert f[|parts|..] == g[|parts| - 1..];
        }
        PartsCons(parts, s[..n], g);
      }
    }
  }

  lemma PartsCons(parts: seq<Regex>, head: string, rest: seq<string>)
    requires parts != []
    ensures PartsMatch(parts, [head] + rest) <==> Matches(parts[0], head) && PartsMatch(parts[1..], rest)
  {
    var f := [head] + rest;
    if PartsMatch(parts, f) {
      forall k | 0 <= k < |parts| - 1 ensures Matches(parts[1..][k], rest[k]) {
        assert Matches(parts[k + 1], f[k + 1]);
      }
    }
    if Matches(parts[0], head) && PartsMatch(parts[1..], rest) {
      forall k | 0 <= k < |parts| ensures Matches(parts[k], f[k]) {
        if k > 0 { assert Matches(parts[1..][k - 1], rest[k - 1]); }
      }
    }
  }

  lemma OneOfTwo(a: char, b: char, s: string)
    ensures Matches(Class({a, b}), s) <==> s in {[a], [b]}
  {
    assert |s| == 1 ==> s == [s[0]];
  }

  lemma OneOfThree(a: char, b: char, c: char, s: string)
    ensures Matches(Class({a, b, c}), s) <==> s in {[a], [b], [c]}
  {
    assert |s| == 1 ==> s == [s[0]];
  }

  lemma FieldMatches(k: nat, s: string)
    requires k < 13
    ensures Matches(FIELDS[k], s) <==> FieldIs(k, s)
  {
    match k
    case 0 => LiteralMatches(GPGGA_ID, s);
    case 1 => TimestampMatches(s);
    case 2 => LatitudeMatches(s);
    case 3 => OneOfTwo('N', 'S', s);
    case 4 => LongitudeMatches(s);
    case 5 => OneOfTwo('E', 'W', s);
    case 6 => OneOfThree('0', '1', '2', s);
    case 7 => IntegerMatches(s);
    case 8 => DecimalMatches(s);
    case 9 => SignedMatches(s);
    case 10 => OneOfTwo('M', 'M', s);
    case 11 => SignedMatches(s);
    case 12 => OneOfTwo('M', 'M', s);
  }

  lemma FixedMatches(f: seq<string>)
    requires |f| >= 13
    ensures PartsMatch(FIELDS, f) <==> FixedFields(f)
  {
    forall k | 0 <= k < 13 ensures Matches(FIELDS[k], f[k]) <==> FieldIs(k, f[k]) {
      FieldMatches(k, f[k]);
    }
  }

  lemma FieldsAvoidCommas()
    ensures forall k :: 0 <= k < |FIELDS| ==> ',' !in Alphabet(FIELDS[k])
  {
    forall k | 0 <= k < |FIELDS| ensures ',' !in Alphabet(FIELDS[k]) {
      FieldAvoidsCommas(k);
    }
  }

  lemma FieldAvoidsCommas(k: nat)
    requires k < 13
    ensures ',' !in Alphabet(FIELDS[k])
  {
    hide Matches, IsInteger, IsDecimal, IsSigned;
    if k in {3, 5, 6, 10, 12} {
      ClassAvoidsCommas(k);
    } else if k == 0 {
      LiteralAlphabet(GPGGA_ID, {'$', 'G', 'P', 'A'});
    } else {
      TimestampAlphabet();
      AngleAlphabets();
      IntegerMatches("");
      DecimalMatches("");
      SignedMatches("");
      hide Alphabet;
    }
  }

  lemma ClassAvoidsCommas(k: nat)
    requires k in {3, 5, 6, 10, 12}
    ensures ',' !in Alphabet(FIELDS[k])
  {
  }

  lemma TimestampAlphabet()
    ensures ',' !in Alphabet(TIMESTAMP)
  {
    TimesAlphabet(DIGIT, 6);
    IntegerMatches("");
    assert Alphabet(Cat(Char('.'), INTEGER)) == DIGITS + {'.'};
    assert Alphabet(Optional(Cat(Char('.'), INTEGER))) == DIGITS + {'.'};
  }

  lemma AngleAlphabets()
    ensures ',' !in Alphabet(LATITUDE) && ',' !in Alphabet(LONGITUDE)
  {
    LatDegreesMatches("");
    LonDegreesMatches("");
    MinutesMatches("");
    IntegerMatches("");
    var tail := Cat(Char('.'), INTEGER);
    assert Alphabet(tail) == DIGITS + {'.'};
    var zeros := Cat(Char('.'), Plus(Char('0')));
    assert Alphabet(Plus(Char('0'))) == {'0'};
    assert Alphabet(zeros) <= DIGITS + {'.'};
    LiteralAlphabet("90", DIGITS);
    LiteralAlphabet("180", DIGITS);
    assert Alphabet(Cat(Cat(LAT_DEGREES, MINUTES), tail)) <= DIGITS + {'.'};
    assert Alphabet(Cat(Cat(LON_DEGREES, MINUTES), tail)) <= DIGITS + {'.'};
    assert Alphabet(Cat(Literal("90"), zeros)) <= DIGITS + {'.'};
    assert Alphabet(Cat(Literal("180"), zeros)) <= DIGITS + {'.'};
  }

  // ---------- The optional fields ----------

  /** What follows the thirteenth comma. */
  predicate TailFields(f: seq<string>) {
    && 1 <= |f| <= 3
    && (|f| >= 2 ==> f[0] == "" || IsDecimal(f[0]))
    && (|f| == 3 ==> IsInteger(f[1]))
    && IsChecksum(f[|f| - 1])
  }

  lemma ChecksumHasNoComma(s: string)
    requires IsChecksum(s)
    ensures Fields(s, ',') == [s]
  {
    assert s[0] != ',' && s[1] == s[1..][0] && s[2] == s[1..][1];
    FieldsOne(s, ',');
  }

  lemma ChecksumAlone(s: string)
    ensures Matches(CHECKSUM, s) <==> var f := Fields(s, ','); |f| == 1 && IsChecksum(f[0])
  {
    ChecksumMatches(s);
    if IsChecksum(s) {
      ChecksumHasNoComma(s);
    }
    JoinFields(s, ',');
  }

  /** A cut seen through the fields. */
  lemma CutFields(a: Regex, tail: Regex, s: string)
    requires ',' !in Alphabet(a)
    ensures Matches(Cat(a, Cat(Char(','), tail)), s) <==>
            var f := Fields(s, ','); |f| >= 2 && Matches(a, f[0]) && Matches(tail, Join(f[1..], ','))
  {
    CutMatches(a, ',', tail, s);
    var n := Find(s, ',');
    if n < |s| {
      JoinFields(s[n + 1..], ',');
      assert Fields(s, ',')[1..] == Fields(s[n + 1..], ',');
    }
  }

  lemma RestOfFields(s: string)
    requires |Fields(s, ',')| >= 2
    ensures Fields(Join(Fields(s, ',')[1..], ','), ',') == Fields(s, ',')[1..]
  {
    JoinFields(s, ',');
    FieldsJoin(Fields(s, ',')[1..], ',');
  }

  /** The station slot and the checksum. */
  lemma StationMatches(s: string)
    ensures Matches(Cat(Optional(Cat(INTEGER, Char(','))), CHECKSUM), s) <==>
            var f := Fields(s, ',');
            (|f| == 1 && IsChecksum(f[0])) || (|f| == 2 && IsInteger(f[0]) && IsChecksum(f[1]))
  {
    var f := Fields(s, ',');
    CatAlternatives(Cat(INTEGER, Char(',')), Empty, CHECKSUM, s);
    CatEmpty(CHECKSUM, s);
    ChecksumAlone(s);
    CatAssoc(INTEGER, Char(','), CHECKSUM, s);
    IntegerMatches(f[0]);
    CutFields(INTEGER, CHECKSUM, s);
    if |f| >= 2 {
      ChecksumAlone(Join(f[1..], ','));
      RestOfFields(s);
    }
  }

  lemma TailMatches(s: string)
    ensures Matches(Cat(OPTIONALS, CHECKSUM), s) <==> TailFields(Fields(s, ','))
  {
    var f := Fields(s, ',');
    var station := Optional(Cat(INTEGER, Char(',')));
    var slots := Cat(Optional(DECIMAL), Cat(Char(','), station));
    CatAlternatives(slots, Empty, CHECKSUM, s);
    CatEmpty(CHECKSUM, s);
    ChecksumAlone(s);
    SlotsAssoc(station, s);
    DecimalMatches(f[0]);
    CutFields(Optional(DECIMAL), Cat(station, CHECKSUM), s);
    if |f| >= 2 {
      StationMatches(Join(f[1..], ','));
      RestOfFields(s);
    }
  }

  lemma SlotsAssoc(station: Regex, s: string)
    ensures Matches(Cat(Cat(Optional(DECIMAL), Cat(Char(','), station)), CHECKSUM), s) <==>
            Matches(Cat(Optional(DECIMAL), Cat(Char(','), Cat(station, CHECKSUM))), s)
  {
    var a, comma := Optional(DECIMAL), Char(',');
    CatAssoc(a, Cat(comma, station), CHECKSUM, s);
    if Matches(Cat(a, Cat(Cat(comma, station), CHECKSUM)), s) {
      var u, v := CatElim(a, Cat(Cat(comma, station), CHECKSUM), s);
      CatAssoc(comma, station, CHECKSUM, v);
      CatIntro(a, Cat(comma, Cat(station, CHECKSUM)), u, v);
    }
    if Matches(Cat(a, Cat(comma, Cat(station, CHECKSUM))), s) {
      var u, v := CatElim(a, Cat(comma, Cat(station, CHECKSUM)), s);
      CatAssoc(comma, station, CHECKSUM, v);
      CatIntro(a, Cat(Cat(comma, station), CHECKSUM), u, v);
    }
  }

  // ---------- Main results ----------

  /** A string is in the GPGGA language exactly when its comma-separated fields have the layout. */
  lemma GrammarIsLayout(s: string)
    ensures Matches(GPGGA, s) <==> IsLayout(Fields(s, ','))
  {
    var f := Fields(s, ',');
    FieldsAvoidCommas();
    TerminatedMatches(FIELDS, ',', Cat(OPTIONALS, CHECKSUM), s);
    if |f| > 13 {
      FixedMatches(f);
      var tail := f[13..];
      JoinFields(s, ',');
      FieldsJoin(tail, ',');
      TailMatches(Join(tail, ','));
      TailLayout(f);
    }
  }

  lemma TailLayout(f: seq<string>)
    requires |f| > 13
    ensures IsLayout(f) <==> FixedFields(f) && TailFields(f[13..])
  {
    var tail := f[13..];
    assert tail[|tail| - 1] == f[|f| - 1];
  }

  /** The basic grammar, spelled out. */
  lemma BasicIsBasic(s: string)
    ensures Matches(BASIC, s) <==> IsBasic(s)
  {
    if Matches(BASIC, s) {
      BasicElim(s);
    } else if IsBasic(s) {
      BasicIntro(s);
      assert false;
    }
  }

  lemma BasicElim(s: string)
    requires Matches(BASIC, s)
    ensures IsBasic(s)
  {
    var data := Cat(Star(Class(DATA_CHARS)), CHECKSUM);
    HeadClass({'$'}, Cat(Plus(Class(ID_CHARS)), data), s);
    var id, rest := CatElim(Plus(Class(ID_CHARS)), data, s[1..]);
    PlusClass(ID_CHARS, id);
    var body, check := CatElim(Star(Class(DATA_CHARS)), CHECKSUM, rest);
    StarClass(DATA_CHARS, body);
    ChecksumMatches(check);
    hide Matches;
    assert s == ['$'] + id + body + check;
    IdCharsAreData(id);
    BasicPieces(s, id, body, check);
  }

  lemma IdCharsAreData(id: string)
    requires All(id, ID_CHARS)
    ensures All(id, DATA_CHARS)
  {
  }

  lemma BasicPieces(s: string, id: string, body: string, check: string)
    requires s == ['$'] + id + body + check && id != "" && All(id, ID_CHARS) && All(id, DATA_CHARS)
    requires All(body, DATA_CHARS) && IsChecksum(check)
    ensures IsBasic(s)
  {
    AllConcat(id, body, DATA_CHARS);
    assert Body(s) == id + body;
    assert s[1] == id[0];
    assert Digits(s) == check[1..];
  }

  lemma BasicIntro(s: string)
    requires IsBasic(s)
    ensures Matches(BASIC, s)
  {
    var data := Cat(Star(Class(DATA_CHARS)), CHECKSUM);
    var id, body, check := s[1..2], s[2..|s| - 3], s[|s| - 3..];
    PlusClass(ID_CHARS, id);
    assert Body(s) == id + body;
    AllConcat(id, body, DATA_CHARS);
    StarClass(DATA_CHARS, body);
    assert check[1..] == Digits(s);
    ChecksumMatches(check);
    CatIntro(Star(Class(DATA_CHARS)), CHECKSUM, body, check);
    CatIntro(Plus(Class(ID_CHARS)), data, id, body + check);
    assert s[1..] == id + (body + check);
    HeadClass({'$'}, Cat(Plus(Class(ID_CHARS)), data), s);
  }

  // ---------- The GPGGA language lies in the basic language ----------

  lemma {:induction false} JoinAll(fields: seq<string>, sep: char, chars: set<char>)
    requires |fields| >= 1 && sep in chars
    requires forall k :: 0 <= k < |fields| ==> All(fields[k], chars)
    ensures All(Join(fields, sep), chars)
  {
    if |fields| == 1 {
    } else {
      JoinAll(fields[1..], sep, chars);
      AllConcat(fields[0] + [sep], Join(fields[1..], sep), chars);
      AllConcat(fields[0], [sep], chars);
    }
  }

  lemma {:induction false} JoinLast(fields: seq<string>, sep: char)
    requires |fields| >= 2
    ensures Join(fields, sep) == Join(fields[..|fields| - 1], sep) + [sep] + fields[|fields| - 1]
  {
    if |fields| == 2 {
    } else {
      JoinLast(fields[1..], sep);
      assert fields[..|fields| - 1][1..] == fields[1..][..|fields| - 2];
    }
  }

  lemma DecimalChars(s: string)
    requires IsDecimal(s)
    ensures All(s, DATA_CHARS)
  {
    PointChars(s);
  }

  lemma PointChars(s: string)
    requires forall k :: 0 <= k < |Fields(s, '.')| ==> All(Fields(s, '.')[k], DIGITS)
    ensures All(s, DATA_CHARS)
  {
    JoinFields(s, '.');
    JoinAll(Fields(s, '.'), '.', DATA_CHARS);
  }

  lemma SignedChars(s: string)
    requires IsSigned(s)
    ensures All(s, DATA_CHARS)
  {
    if IsDecimal(s) {
      DecimalChars(s);
    } else {
      DecimalChars(s[1..]);
      AllConcat(s[..1], s[1..], DATA_CHARS);
      assert s == s[..1] + s[1..];
    }
  }

  lemma AngleChars(s: string, width: nat, top: nat, limit: string)
    requires IsAngle(s, width, top, limit) && All(limit, DIGITS)
    ensures All(s, DATA_CHARS)
  {
    var p := Fields(s, '.');
    if IsWholeAngle(p[0], width, top) {
      AllConcat(p[0][..width], p[0][width..], DIGITS);
      assert p[0] == p[0][..width] + p[0][width..];
    }
    PointChars(s);
  }

  lemma LayoutChars(f: seq<string>, k: nat)
    requires IsLayout(f) && 1 <= k < |f| - 1
    ensures All(f[k], DATA_CHARS)
  {
    if k == 13 {
      if f[13] != "" { DecimalChars(f[13]); }
    } else if k < 13 {
      assert FieldIs(k, f[k]);
      FieldChars(k, f[k]);
    }
  }

  lemma FieldChars(k: nat, s: string)
    requires 1 <= k < 13 && FieldIs(k, s)
    ensures All(s, DATA_CHARS)
  {
    hide IsAngle, IsDecimal, IsSigned;
    match k
    case 1 => PointChars(s);
    case 2 => AngleChars(s, 2, 89, "90");
    case 4 => AngleChars(s, 3, 179, "180");
    case 8 => DecimalChars(s);
    case 9 => SignedChars(s);
    case 11 => SignedChars(s);
    case _ =>
  }

  /** Every GPGGA sentence is a basic sentence; its digits are those of its last field. */
  lemma LayoutIsBasic(s: string, f: seq<string>)
    requires f == Fields(s, ',') && IsLayout(f)
    ensures IsBasic(s)
    ensures Digits(s) == f[|f| - 1][1..]
  {
    var body, digits := LayoutParts(f);
    assert s == "$" + body + "*" + digits by {
      JoinFields(s, ',');
    }
    BasicParts(body, digits);
  }

  lemma LayoutParts(f: seq<string>) returns (body: string, digits: string)
    requires IsLayout(f)
    ensures Join(f, ',') == "$" + body + "*" + digits
    ensures body != "" && body[0] in ID_CHARS && All(body, DATA_CHARS)
    ensures |digits| == 2 && All(digits, HEX_CHARS) && digits == f[|f| - 1][1..]
  {
    hide IsDecimal, IsInteger, IsTimestamp, IsAngle, IsSigned;
    assert FieldIs(0, f[0]);
    var n := |f| - 1;
    var middle := ["GPGGA"] + f[1..n];
    forall k | 0 <= k < |middle| ensures All(middle[k], DATA_CHARS) {
      if k > 0 {
        assert middle[k] == f[k];
        LayoutChars(f, k);
      }
    }
    JoinAll(middle, ',', DATA_CHARS);
    var data := Join(middle, ',');
    AllConcat(data, ",", DATA_CHARS);
    body, digits := data + ",", f[n][1..];
    JoinLast(f, ',');
    assert f[n] == "*" + digits;
    JoinHead(f[..n], middle);
    assert middle[0] == "GPGGA" && data == "GPGGA" + [','] + Join(middle[1..], ',');
  }

  lemma JoinHead(f: seq<string>, middle: seq<string>)
    requires |f| >= 2 && f[0] == "$" + "GPGGA" && middle == ["GPGGA"] + f[1..]
    ensures Join(f, ',') == "$" + Join(middle, ',')
  {
    assert middle[1..] == f[1..];
  }
}
