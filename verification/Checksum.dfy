/** The NMEA 0183 checksum: exclusive or of the characters between '$' and '*'. */
module Checksum {
  import opened Numerals
  import opened Text

  const ID_CHARS: set<char> := DIGITS + set c: char | 'A' <= c <= 'Z'
  const DATA_CHARS: set<char> := ID_CHARS + (set c: char | 'a' <= c <= 'z') + {',', '.', '-'}
  const HEX_CHARS: set<char> := DIGITS + (set c: char | 'a' <= c <= 'f') + (set c: char | 'A' <= c <= 'F')

  /** Bitwise exclusive or of two non-negative ints. */
  function Xor(a: nat, b: nat): nat {
    if a == 0 && b == 0 then 0
    else (if a % 2 == b % 2 then 0 else 1) + 2 * Xor(a / 2, b / 2)
  }

  /** Exclusive or over a text. */
  function Fold(s: string): nat {
    if s == [] then 0 else Xor(Fold(s[..|s| - 1]), s[|s| - 1] as nat)
  }

  function HexDigit(c: char): (d: nat)
    requires c in HEX_CHARS
    ensures d < 16
  {
    if c in DIGITS then DigitOf(c)
    else if c <= 'F' then 10 + (c as int - 'A' as int)
    else 10 + (c as int - 'a' as int)
  }

  function Hex(digits: string): (n: nat)
    requires |digits| == 2 && All(digits, HEX_CHARS)
    ensures n < 256
  {
    16 * HexDigit(digits[0]) + HexDigit(digits[1])
  }

  /** '$', an identifier character, data characters, '*', two hexadecimal digits. */
  predicate IsBasic(s: string) {
    && |s| >= 5
    && s[0] == '$'
    && s[1] in ID_CHARS
    && All(Body(s), DATA_CHARS)
    && s[|s| - 3] == '*'
    && All(Digits(s), HEX_CHARS)
  }

  function Body(s: string): string
    requires |s| >= 5
  {
    s[1..|s| - 3]
  }

  function Digits(s: string): string
    requires |s| >= 5
  {
    s[|s| - 2..]
  }

  predicate ChecksumHolds(s: string)
    requires IsBasic(s)
  {
    Fold(Body(s)) == Hex(Digits(s))
  }

  /** The source's steps: cut at '*' twice, drop the '$', convert, accumulate, compare. */
  method ValidateChecksum(sentence: string) returns (valid: bool)
    requires IsBasic(sentence)
    ensures valid <==> ChecksumHolds(sentence)
  {
    CutAtStar(sentence);
    var body, pos, good := GetLine(sentence, 0, '*');
    assert sentence[0..] == sentence;
    var digits, _, _ := GetLine(sentence, pos, '*');
    body := body[1..];
    var checksum := Hex(digits);
    var check := 0;
    for i := 0 to |body|
      invariant check == Fold(body[..i])
    {
      assert body[..i + 1][..i] == body[..i];
      check := Xor(check, body[i] as nat);
    }
    assert body[..|body|] == body;
    valid := check == checksum;
  }

  /** The only '*' is the one in front of the digits. */
  lemma CutAtStar(s: string)
    requires IsBasic(s)
    ensures forall cut: string, rest: string ::
              '*' !in cut && s == cut + ['*'] + rest ==> cut == "$" + Body(s) && rest == Digits(s)
    ensures '*' in s && '*' !in Digits(s)
  {
    var n := |s| - 3;
    assert s[n] == '*';
    forall cut: string, rest: string | '*' !in cut && s == cut + ['*'] + rest
      ensures cut == "$" + Body(s) && rest == Digits(s)
    {
      if |cut| != n { NoOtherStar(s, |cut|); }
    }
  }

  lemma NoOtherStar(s: string, k: nat)
    requires IsBasic(s) && k < |s| && k != |s| - 3
    ensures s[k] != '*'
  {
    if 1 <= k < |s| - 3 {
      assert s[k] == Body(s)[k - 1];
    } else if k > |s| - 3 {
      assert s[k] == Digits(s)[k - (|s| - 2)];
    }
  }

  // ---------- Algebra of exclusive or ----------

  lemma {:induction false} XorAssoc(a: nat, b: nat, c: nat)
    ensures Xor(Xor(a, b), c) == Xor(a, Xor(b, c))
    decreases a + b + c
  {
    if a + b + c == 0 {
    } else {
      XorAssoc(a / 2, b / 2, c / 2);
      XorHalves(a, b);
      XorHalves(b, c);
    }
  }

  lemma XorHalves(a: nat, b: nat)
    ensures Xor(a, b) / 2 == Xor(a / 2, b / 2)
    ensures Xor(a, b) % 2 == if a % 2 == b % 2 then 0 else 1
  {
  }

  lemma {:induction false} XorSelf(a: nat)
    ensures Xor(a, a) == 0
  {
    if a == 0 {
    } else {
      XorSelf(a / 2);
    }
  }

  lemma {:induction false} XorZero(a: nat)
    ensures Xor(0, a) == a && Xor(a, 0) == a
  {
    if a == 0 {
    } else {
      XorZero(a / 2);
    }
  }

  lemma XorCancelLeft(x: nat, a: nat, b: nat)
    requires Xor(x, a) == Xor(x, b)
    ensures a == b
  {
    XorAssoc(x, x, a);
    XorAssoc(x, x, b);
    XorSelf(x);
    XorZero(a);
    XorZero(b);
  }

  lemma XorCancelRight(a: nat, b: nat, x: nat)
    requires Xor(a, x) == Xor(b, x)
    ensures a == b
  {
    XorAssoc(a, x, x);
    XorAssoc(b, x, x);
    XorSelf(x);
    XorZero(a);
    XorZero(b);
  }

  function Pow2(n: nat): nat { if n == 0 then 1 else 2 * Pow2(n - 1) }

  lemma {:induction false} XorBound(a: nat, b: nat, n: nat)
    requires a < Pow2(n) && b < Pow2(n)
    ensures Xor(a, b) < Pow2(n)
    decreases n
  {
    if n == 0 {
    } else {
      XorBound(a / 2, b / 2, n - 1);
      XorHalves(a, b);
    }
  }

  lemma {:induction false} FoldAppend(a: string, b: string)
    ensures Fold(a + b) == Xor(Fold(a), Fold(b))
    decreases |b|
  {
    if b == [] {
      assert a + b == a;
      XorZero(Fold(a));
    } else {
      var b' := b[..|b| - 1];
      FoldAppend(a, b');
      assert (a + b)[..|a + b| - 1] == a + b';
      XorAssoc(Fold(a), Fold(b'), b[|b| - 1] as nat);
    }
  }

  lemma {:induction false} FoldBound(s: string)
    requires All(s, DATA_CHARS)
    ensures Fold(s) < 0x80
  {
    if s == [] {
    } else {
      FoldBound(s[..|s| - 1]);
      assert Pow2(7) == 0x80;
      XorBound(Fold(s[..|s| - 1]), s[|s| - 1] as nat, 7);
    }
  }

  // ---------- Strength ----------

  const UPPER: string := "0123456789ABCDEF"
  const LOWER: string := "0123456789abcdef"

  /** `c` writes the digit `d`, in either letter case. */
  predicate Writes(c: char, d: nat)
    requires d < 16
  {
    c == UPPER[d] || c == LOWER[d]
  }

  /** Two spellings of one hexadecimal digit. */
  predicate SameLetter(a: char, b: char) { exists d | 0 <= d < 16 :: Writes(a, d) && Writes(b, d) }

  /** What a hexadecimal digit is worth, read off the two alphabets. */
  lemma HexDigitWritten(c: char, d: nat)
    requires d < 16
    ensures Writes(c, d) <==> c in HEX_CHARS && HexDigit(c) == d
  {
    if d < 10 {
      assert UPPER[d] == LOWER[d] == ('0' as int + d) as char;
    } else {
      assert UPPER[d] == ('A' as int + (d - 10)) as char;
      assert LOWER[d] == ('a' as int + (d - 10)) as char;
    }
  }

  lemma SameLetterValue(a: char, b: char)
    requires a in HEX_CHARS
    ensures SameLetter(a, b) <==> b in HEX_CHARS && HexDigit(b) == HexDigit(a)
  {
    HexDigitWritten(a, HexDigit(a));
    HexDigitWritten(b, HexDigit(a));
    forall d | 0 <= d < 16 ensures Writes(a, d) ==> d == HexDigit(a) {
      HexDigitWritten(a, d);
    }
  }

  /** The two upper-case digits of a value below 256. */
  function HexText(n: nat): (digits: string)
    requires n < 256
    ensures |digits| == 2 && All(digits, HEX_CHARS) && Hex(digits) == n
  {
    HexDigitWritten(UPPER[n / 16], n / 16);
    HexDigitWritten(UPPER[n % 16], n % 16);
    [UPPER[n / 16], UPPER[n % 16]]
  }

  /** Two digits in any letter case denote `n` exactly when they write its two hexadecimal places. */
  lemma HexWritten(digits: string, n: nat)
    requires |digits| == 2 && n < 256
    ensures Writes(digits[0], n / 16) && Writes(digits[1], n % 16) <==> All(digits, HEX_CHARS) && Hex(digits) == n
  {
    HexDigitWritten(digits[0], n / 16);
    HexDigitWritten(digits[1], n % 16);
    if All(digits, HEX_CHARS) {
      assert Hex(digits) / 16 == HexDigit(digits[0]) && Hex(digits) % 16 == HexDigit(digits[1]);
    }
  }

  // ---------- Exclusive or, bit by bit ----------

  function Bit(n: nat, k: nat): nat { if k == 0 then n % 2 else Bit(n / 2, k - 1) }

  lemma {:induction false} XorBits(a: nat, b: nat, k: nat)
    ensures Bit(Xor(a, b), k) == (Bit(a, k) + Bit(b, k)) % 2
  {
    XorHalves(a, b);
    if k == 0 {
    } else {
      XorBits(a / 2, b / 2, k - 1);
    }
  }

  /** How many characters have bit `k` set. */
  function BitCount(s: string, k: nat): nat {
    if s == [] then 0 else Bit(s[0] as nat, k) + BitCount(s[1..], k)
  }

  /** Each bit of the checksum is the parity of that bit over the characters. */
  lemma {:induction false} FoldParity(s: string, k: nat)
    ensures Bit(Fold(s), k) == BitCount(s, k) % 2
  {
    if s == [] {
      ZeroBits(k);
    } else {
      FoldParity(s[1..], k);
      FoldFirst(s);
      hide Fold, Xor, Bit;
      XorBits(s[0] as nat, Fold(s[1..]), k);
    }
  }

  lemma FoldFirst(s: string)
    requires s != []
    ensures Fold(s) == Xor(s[0] as nat, Fold(s[1..]))
  {
    hide Fold, Xor;
    assert s[..1] + s[1..] == s;
    FoldAppend(s[..1], s[1..]);
    FoldOne(s[..1]);
  }

  lemma FoldOne(s: string)
    requires |s| == 1
    ensures Fold(s) == s[0] as nat
  {
    assert s[..0] == [];
    XorZero(s[0] as nat);
  }

  lemma {:induction false} ZeroBits(k: nat)
    ensures Bit(0, k) == 0
  {
    if k == 0 {
    } else {
      ZeroBits(k - 1);
    }
  }

  /** The character classes of the grammars, one by one. */
  lemma CharacterClasses(c: char)
    ensures c in ID_CHARS <==> '0' <= c <= '9' || 'A' <= c <= 'Z'
    ensures c in DATA_CHARS <==>
            '0' <= c <= '9' || 'a' <= c <= 'z' || 'A' <= c <= 'Z' || c == ',' || c == '.' || c == '-'
    ensures c in HEX_CHARS <==> '0' <= c <= '9' || 'a' <= c <= 'f' || 'A' <= c <= 'F'
  {
  }

  /** Around a fixed body exactly one value is accepted, its digits written in either letter case, and
      it is below 0x80. */
  lemma OneChecksum(body: string, digits: string)
    requires body != "" && body[0] in ID_CHARS && All(body, DATA_CHARS)
    requires |digits| == 2 && All(digits, HEX_CHARS)
    ensures Fold(body) < 0x80
    ensures IsBasic("$" + body + "*" + digits)
    ensures ChecksumHolds("$" + body + "*" + digits) <==> Hex(digits) == Fold(body)
    ensures ChecksumHolds("$" + body + "*" + digits) <==>
            Writes(digits[0], Fold(body) / 16) && Writes(digits[1], Fold(body) % 16)
    ensures ChecksumHolds("$" + body + "*" + digits) ==> digits[0] in {'0', '1', '2', '3', '4', '5', '6', '7'}
  {
    FoldBound(body);
    BasicParts(body, digits);
    HexWritten(digits, Fold(body));
    LowDigit(digits);
  }

  lemma LowDigit(digits: string)
    requires |digits| == 2 && All(digits, HEX_CHARS)
    ensures Hex(digits) < 0x80 ==> digits[0] in {'0', '1', '2', '3', '4', '5', '6', '7'}
  {
    assert HexDigit(digits[0]) < 8 ==> digits[0] in DIGITS;
  }

  lemma BasicParts(body: string, digits: string)
    requires body != "" && body[0] in ID_CHARS && All(body, DATA_CHARS)
    requires |digits| == 2 && All(digits, HEX_CHARS)
    ensures var s := "$" + body + "*" + digits;
            IsBasic(s) && Body(s) == body && Digits(s) == digits
  {
    var s := "$" + body + "*" + digits;
    assert Body(s) == body && Digits(s) == digits;
  }

  /** Changing one body character of an accepted sentence makes the checksum wrong. */
  lemma SingleChangeDetected(s: string, k: nat, c: char)
    requires IsBasic(s) && ChecksumHolds(s)
    requires 1 <= k < |s| - 3 && c != s[k]
    requires IsBasic(s[k := c])
    ensures !ChecksumHolds(s[k := c])
  {
    var t := s[k := c];
    var before, after := s[1..k], s[k + 1..|s| - 3];
    assert Body(s) == before + [s[k]] + after && Body(t) == before + [c] + after;
    assert Digits(t) == Digits(s);
    FoldMiddle(before, s[k], after);
    FoldMiddle(before, c, after);
    if ChecksumHolds(t) {
      XorCancelRight(Xor(Fold(before), s[k] as nat), Xor(Fold(before), c as nat), Fold(after));
      XorCancelLeft(Fold(before), s[k] as nat, c as nat);
    }
  }

  lemma FoldMiddle(before: string, c: char, after: string)
    ensures Fold(before + [c] + after) == Xor(Xor(Fold(before), c as nat), Fold(after))
  {
    FoldAppend(before + [c], after);
    assert (before + [c])[..|before|] == before;
  }
}
