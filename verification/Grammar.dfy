/** The two sentence grammars, and the field layout the GPGGA grammar forces. */
module Grammar {
  import opened Checksum
  import opened Numerals
  import opened Regex
  import opened Text

  const GPGGA_ID: string := "$GPGGA"

  // ---------- Grammars ----------

  const CHECKSUM: Regex := Cat(Char('*'), Times(Class(HEX_CHARS), 2))

  const BASIC: Regex :=
    Cat(Char('$'), Cat(Plus(Class(ID_CHARS)), Cat(Star(Class(DATA_CHARS)), CHECKSUM)))

  const TENS: set<char> := set c: char | '0' <= c <= '5'
  const LAT_TENS: set<char> := set c: char | '0' <= c <= '8'
  const LON_TENS: set<char> := set c: char | '0' <= c <= '7'

  const DIGIT: Regex := Class(DIGITS)
  const INTEGER: Regex := Plus(DIGIT)
  const DECIMAL: Regex := Cat(INTEGER, Cat(Char('.'), INTEGER))
  const SIGNED: Regex := Cat(Optional(Char('-')), DECIMAL)
  const TIMESTAMP: Regex := Cat(Times(DIGIT, 6), Optional(Cat(Char('.'), INTEGER)))
  const MINUTES: Regex := Alt(Cat(Class(TENS), DIGIT), Literal("60"))
  const LAT_DEGREES: Regex := Cat(Class(LAT_TENS), DIGIT)
  const LON_DEGREES: Regex :=
    Alt(Cat(Char('0'), Times(DIGIT, 2)), Cat(Char('1'), Cat(Class(LON_TENS), DIGIT)))
  const LATITUDE: Regex :=
    Alt(Cat(Cat(LAT_DEGREES, MINUTES), Cat(Char('.'), INTEGER)), Cat(Literal("90"), Cat(Char('.'), Plus(Char('0')))))
  const LONGITUDE: Regex :=
    Alt(Cat(Cat(LON_DEGREES, MINUTES), Cat(Char('.'), INTEGER)), Cat(Literal("180"), Cat(Char('.'), Plus(Char('0')))))

  /** The thirteen fields every sentence has, in order. */
  const FIELDS: seq<Regex> :=
    [ Literal(GPGGA_ID), TIMESTAMP, LATITUDE, Class({'N', 'S'}), LONGITUDE, Class({'E', 'W'}),
      Class({'0', '1', '2'}), INTEGER, DECIMAL, SIGNED, Char('M'), SIGNED, Char('M') ]

  const OPTIONALS: Regex :=
    Optional(Cat(Optional(DECIMAL), Cat(Char(','), Optional(Cat(INTEGER, Char(','))))))

  const GPGGA: Regex := Terminated(FIELDS, ',', Cat(OPTIONALS, CHECKSUM))

  /** Each part followed by the separator, then the tail. */
  function Terminated(parts: seq<Regex>, sep: char, tail: Regex): Regex {
    if parts == [] then tail else Cat(parts[0], Cat(Char(sep), Terminated(parts[1..], sep, tail)))
  }

  // ---------- What the fields are ----------

  predicate IsInteger(s: string) { s != "" && All(s, DIGITS) }

  predicate IsDecimal(s: string) {
    var p := Fields(s, '.');
    |p| == 2 && IsInteger(p[0]) && IsInteger(p[1])
  }

  predicate IsSigned(s: string) { IsDecimal(s) || (s != "" && s[0] == '-' && IsDecimal(s[1..])) }

  predicate IsTimestamp(s: string) {
    var p := Fields(s, '.');
    |p| <= 2 && |p[0]| == 6 && All(p[0], DIGITS) && (|p| == 2 ==> IsInteger(p[1]))
  }

  /** `width` degree digits up to `top`, then two minute digits up to 60. */
  predicate IsWholeAngle(s: string, width: nat, top: nat) {
    && |s| == width + 2
    && All(s[..width], DIGITS) && Value(s[..width]) <= top
    && All(s[width..], DIGITS) && Value(s[width..]) <= 60
  }

  /** Either the degree-minute form, or the bare limit with a zero fraction. */
  predicate IsAngle(s: string, width: nat, top: nat, limit: string) {
    var p := Fields(s, '.');
    |p| == 2 && IsInteger(p[1]) && (IsWholeAngle(p[0], width, top) || (p[0] == limit && All(p[1], {'0'})))
  }

  predicate IsLatitude(s: string) { IsAngle(s, 2, 89, "90") }

  predicate IsLongitude(s: string) { IsAngle(s, 3, 179, "180") }

  predicate IsChecksum(s: string) { |s| == 3 && s[0] == '*' && All(s[1..], HEX_CHARS) }

  /** What the `k`-th of the thirteen fixed fields holds. */
  predicate FieldIs(k: nat, s: string)
    requires k < 13
  {
    match k
    case 0 => s == GPGGA_ID
    case 1 => IsTimestamp(s)
    case 2 => IsLatitude(s)
    case 3 => s in {"N", "S"}
    case 4 => IsLongitude(s)
    case 5 => s in {"E", "W"}
    case 6 => s in {"0", "1", "2"}
    case 7 => IsInteger(s)
    case 8 => IsDecimal(s)
    case 9 => IsSigned(s)
    case 10 => s == "M"
    case 11 => IsSigned(s)
    case 12 => s == "M"
  }

  predicate FixedFields(f: seq<string>) {
    |f| >= 13 && forall k | 0 <= k < 13 :: FieldIs(k, f[k])
  }

  /** The fields of a GPGGA sentence: the fixed ones, none, one or two optional ones, and the
      checksum. */
  predicate IsLayout(f: seq<string>) {
    && 14 <= |f| <= 16
    && FixedFields(f)
    && (|f| >= 15 ==> f[13] == "" || IsDecimal(f[13]))
    && (|f| == 16 ==> IsInteger(f[14]))
    && IsChecksum(f[|f| - 1])
  }

  lemma FieldsKnown(f: seq<string>)
    requires IsLayout(f)
    ensures IsTimestamp(f[1]) && IsLatitude(f[2]) && IsLongitude(f[4]) && f[6] in {"0", "1", "2"}
    ensures IsInteger(f[7]) && IsDecimal(f[8]) && IsSigned(f[9]) && IsSigned(f[11])
  {
    hide IsTimestamp, IsLatitude, IsLongitude, IsInteger, IsDecimal, IsSigned;
    assert FieldIs(1, f[1]) && FieldIs(2, f[2]) && FieldIs(4, f[4]) && FieldIs(6, f[6]);
    assert FieldIs(7, f[7]) && FieldIs(8, f[8]) && FieldIs(9, f[9]) && FieldIs(11, f[11]);
  }

  // ---------- Field languages ----------

  /** `a` before the first separator, `tail` after it. */
  predicate CutHere(a: Regex, sep: char, tail: Regex, s: string) {
    var n := Find(s, sep);
    n < |s| && Matches(a, s[..n]) && Matches(tail, s[n + 1..])
  }

  /** A part that cannot contain the separator ends exactly at the first one. */
  lemma CutMatches(a: Regex, sep: char, tail: Regex, s: string)
    requires sep !in Alphabet(a)
    ensures Matches(Cat(a, Cat(Char(sep), tail)), s) <==> CutHere(a, sep, tail, s)
  {
    if Matches(Cat(a, Cat(Char(sep), tail)), s) {
      CutElim(a, sep, tail, s);
    } else if CutHere(a, sep, tail, s) {
      var n := Find(s, sep);
      assert s[..n] + [sep] + s[n + 1..] == s;
      CutIntro(a, sep, tail, s[..n], s[n + 1..]);
      assert false;
    }
  }

  lemma CutElim(a: Regex, sep: char, tail: Regex, s: string)
    requires sep !in Alphabet(a) && Matches(Cat(a, Cat(Char(sep), tail)), s)
    ensures CutHere(a, sep, tail, s)
  {
    var u, v := CatElim(a, Cat(Char(sep), tail), s);
    HeadClass({sep}, tail, v);
    MatchesAlphabet(a, u);
    var w := v[1..];
    assert v == [sep] + w;
    assert s == u + [sep] + w;
    FindCons(u, w, sep);
    assert s[..|u|] == u && s[|u| + 1..] == w;
  }

  lemma CutIntro(a: Regex, sep: char, tail: Regex, u: string, w: string)
    requires Matches(a, u) && Matches(tail, w)
    ensures Matches(Cat(a, Cat(Char(sep), tail)), u + [sep] + w)
  {
    var v := [sep] + w;
    assert v[1..] == w;
    HeadClass({sep}, tail, v);
    CatIntro(a, Cat(Char(sep), tail), u, v);
    assert u + v == u + [sep] + w;
  }

  /** Two parts around one separator. */
  lemma PairMatches(a: Regex, sep: char, b: Regex, s: string)
    requires sep !in Alphabet(a) && sep !in Alphabet(b)
    ensures Matches(Cat(a, Cat(Char(sep), b)), s) <==>
            var p := Fields(s, sep); |p| == 2 && Matches(a, p[0]) && Matches(b, p[1])
  {
    CutMatches(a, sep, b, s);
    var n := Find(s, sep);
    if n < |s| {
      var rest := s[n + 1..];
      if Matches(b, rest) {
        MatchesAlphabet(b, rest);
        FieldsOne(rest, sep);
      }
      if |Fields(rest, sep)| == 1 {
        JoinFields(rest, sep);
      }
    }
  }

  lemma IntegerMatches(s: string)
    ensures Matches(INTEGER, s) <==> IsInteger(s)
    ensures Alphabet(INTEGER) == DIGITS
  {
    PlusClass(DIGITS, s);
  }

  lemma DecimalMatches(s: string)
    ensures Matches(DECIMAL, s) <==> IsDecimal(s)
    ensures Alphabet(DECIMAL) == DIGITS + {'.'}
  {
    IntegerMatches(s);
    assert Alphabet(Cat(Char('.'), INTEGER)) == DIGITS + {'.'};
    PairMatches(INTEGER, '.', INTEGER, s);
    var p := Fields(s, '.');
    if |p| == 2 {
      IntegerMatches(p[0]);
      IntegerMatches(p[1]);
    }
  }

  lemma OptionalHead(c: char, r: Regex, s: string)
    ensures Matches(Cat(Optional(Char(c)), r), s) <==>
            Matches(r, s) || (s != [] && s[0] == c && Matches(r, s[1..]))
  {
    CatAlternatives(Char(c), Empty, r, s);
    CatEmpty(r, s);
    HeadClass({c}, r, s);
  }

  lemma SignedMatches(s: string)
    ensures Matches(SIGNED, s) <==> IsSigned(s)
    ensures Alphabet(SIGNED) == DIGITS + {'.', '-'}
  {
    OptionalHead('-', DECIMAL, s);
    DecimalMatches(s);
    if s != [] {
      DecimalMatches(s[1..]);
    }
  }

  lemma TimestampMatches(s: string)
    ensures Matches(TIMESTAMP, s) <==> IsTimestamp(s)
  {
    var head := Times(DIGIT, 6);
    var fraction := Cat(Char('.'), INTEGER);
    CatOptional(head, fraction, s);
    TimesClass(DIGITS, 6, s);
    TimesAlphabet(DIGIT, 6);
    IntegerMatches("");
    PairMatches(head, '.', INTEGER, s);
    var p := Fields(s, '.');
    if |p| == 2 {
      TimesClass(DIGITS, 6, p[0]);
      IntegerMatches(p[1]);
    }
    if '.' !in s {
      FieldsOne(s, '.');
    } else {
      var _, _ := FieldsUnfold(s, '.');
    }
  }

  lemma CatOptional(a: Regex, b: Regex, s: string)
    ensures Matches(Cat(a, Optional(b)), s) <==> Matches(a, s) || Matches(Cat(a, b), s)
  {
    if Matches(Cat(a, Optional(b)), s) {
      var u, v := CatElim(a, Optional(b), s);
      if Matches(b, v) { CatIntro(a, b, u, v); } else { assert s == u; }
    }
    if Matches(Cat(a, b), s) {
      var u, v := CatElim(a, b, s);
      CatIntro(a, Optional(b), u, v);
    }
    if Matches(a, s) {
      CatIntro(a, Optional(b), s, []);
      assert s + [] == s;
    }
  }

  lemma {:induction false} TimesAlphabet(r: Regex, n: nat)
    requires n > 0
    ensures Alphabet(Times(r, n)) == Alphabet(r)
  {
    if n > 1 {
      TimesAlphabet(r, n - 1);
    } else {
      assert Times(r, 1) == Cat(r, Empty);
    }
  }

  /** Two classes in a row. */
  lemma TwoClasses(a: set<char>, b: set<char>, s: string)
    ensures Matches(Cat(Class(a), Class(b)), s) <==> |s| == 2 && s[0] in a && s[1] in b
  {
    HeadClass(a, Class(b), s);
  }

  lemma TwoDigits(s: string)
    requires |s| == 2 && All(s, DIGITS)
    ensures Value(s) == 10 * DigitOf(s[0]) + DigitOf(s[1])
  {
    assert s[..1][..0] == [];
    assert Value(s[..1]) == DigitOf(s[0]);
  }

  lemma ThreeDigits(s: string)
    requires |s| == 3 && All(s, DIGITS)
    ensures Value(s) == 100 * DigitOf(s[0]) + 10 * DigitOf(s[1]) + DigitOf(s[2])
  {
    TwoDigits(s[..2]);
  }

  lemma MinutesMatches(s: string)
    ensures Matches(MINUTES, s) <==> |s| == 2 && All(s, DIGITS) && Value(s) <= 60
    ensures Alphabet(MINUTES) <= DIGITS
  {
    TwoClasses(TENS, DIGITS, s);
    LiteralMatches("60", s);
    if |s| == 2 && All(s, DIGITS) {
      TwoDigits(s);
    }
    LiteralAlphabet("60", DIGITS);
    assert Alphabet(Cat(Class(TENS), DIGIT)) <= DIGITS;
  }

  lemma {:induction false} LiteralAlphabet(t: string, chars: set<char>)
    requires All(t, chars)
    ensures Alphabet(Literal(t)) <= chars
  {
    if t == [] {
    } else {
      LiteralAlphabet(t[1..], chars);
    }
  }

  lemma LatDegreesMatches(s: string)
    ensures Matches(LAT_DEGREES, s) <==> |s| == 2 && All(s, DIGITS) && Value(s) <= 89
    ensures Alphabet(LAT_DEGREES) <= DIGITS
  {
    TwoClasses(LAT_TENS, DIGITS, s);
    if |s| == 2 && All(s, DIGITS) {
      TwoDigits(s);
    }
  }

  lemma LonDegreesMatches(s: string)
    ensures Matches(LON_DEGREES, s) <==> |s| == 3 && All(s, DIGITS) && Value(s) <= 179
    ensures Alphabet(LON_DEGREES) <= DIGITS
  {
    HeadClass({'0'}, Times(DIGIT, 2), s);
    HeadClass({'1'}, Cat(Class(LON_TENS), DIGIT), s);
    TimesAlphabet(DIGIT, 2);
    assert Alphabet(Cat(Char('0'), Times(DIGIT, 2))) <= DIGITS;
    assert Alphabet(Cat(Class(LON_TENS), DIGIT)) <= DIGITS;
    assert Alphabet(Cat(Char('1'), Cat(Class(LON_TENS), DIGIT))) <= DIGITS;
    if s != [] {
      TimesClass(DIGITS, 2, s[1..]);
      TwoClasses(LON_TENS, DIGITS, s[1..]);
      assert s == s[..1] + s[1..];
      AllConcat(s[..1], s[1..], DIGITS);
    }
    if |s| == 3 && All(s, DIGITS) {
      ThreeDigits(s);
    }
  }

  /** A part of known width in front. */
  lemma WidthMatches(a: Regex, b: Regex, width: nat, s: string)
    requires forall u :: Matches(a, u) ==> |u| == width
    ensures Matches(Cat(a, b), s) <==> |s| >= width && Matches(a, s[..width]) && Matches(b, s[width..])
  {
    if Matches(Cat(a, b), s) {
      var u, v := CatElim(a, b, s);
      assert s[..width] == u && s[width..] == v;
    }
    if |s| >= width && Matches(a, s[..width]) && Matches(b, s[width..]) {
      CatIntro(a, b, s[..width], s[width..]);
      assert s[..width] + s[width..] == s;
    }
  }

  lemma WholeAngleMatches(degrees: Regex, width: nat, top: nat, s: string)
    requires forall u :: Matches(degrees, u) <==> |u| == width && All(u, DIGITS) && Value(u) <= top
    ensures Matches(Cat(degrees, MINUTES), s) <==> IsWholeAngle(s, width, top)
  {
    WidthMatches(degrees, MINUTES, width, s);
    if |s| >= width {
      MinutesMatches(s[width..]);
    }
  }

  lemma AngleMatches(degrees: Regex, width: nat, top: nat, limit: string, s: string)
    requires forall u :: Matches(degrees, u) <==> |u| == width && All(u, DIGITS) && Value(u) <= top
    requires Alphabet(degrees) <= DIGITS && All(limit, DIGITS)
    ensures var whole := Cat(Cat(degrees, MINUTES), Cat(Char('.'), INTEGER));
            var bare := Cat(Literal(limit), Cat(Char('.'), Plus(Char('0'))));
            Matches(Alt(whole, bare), s) <==> IsAngle(s, width, top, limit)
  {
    MinutesMatches("");
    IntegerMatches("");
    PairMatches(Cat(degrees, MINUTES), '.', INTEGER, s);
    LiteralAlphabet(limit, DIGITS);
    assert Alphabet(Plus(Char('0'))) == {'0'};
    PairMatches(Literal(limit), '.', Plus(Char('0')), s);
    var p := Fields(s, '.');
    if |p| == 2 {
      WholeAngleMatches(degrees, width, top, p[0]);
      IntegerMatches(p[1]);
      LiteralMatches(limit, p[0]);
      PlusClass({'0'}, p[1]);
    }
  }

  lemma LatitudeMatches(s: string)
    ensures Matches(LATITUDE, s) <==> IsLatitude(s)
  {
    forall u ensures Matches(LAT_DEGREES, u) <==> |u| == 2 && All(u, DIGITS) && Value(u) <= 89 {
      LatDegreesMatches(u);
    }
    LatDegreesMatches("");
    AngleMatches(LAT_DEGREES, 2, 89, "90", s);
  }

  lemma LongitudeMatches(s: string)
    ensures Matches(LONGITUDE, s) <==> IsLongitude(s)
  {
    forall u ensures Matches(LON_DEGREES, u) <==> |u| == 3 && All(u, DIGITS) && Value(u) <= 179 {
      LonDegreesMatches(u);
    }
    LonDegreesMatches("");
    AngleMatches(LON_DEGREES, 3, 179, "180", s);
  }

  lemma ChecksumMatches(s: string)
    ensures Matches(CHECKSUM, s) <==> IsChecksum(s)
  {
    HeadClass({'*'}, Times(Class(HEX_CHARS), 2), s);
    if s != [] {
      TimesClass(HEX_CHARS, 2, s[1..]);
    }
  }
}
