/** Regular expressions (the subset of section 15.10 of ECMA-262 5.1 the grammars need) and the
    language each denotes under a full match. */
module Regex {
  import opened Text

  datatype Regex =
    | Empty
    | Class(chars: set<char>)
    | Cat(first: Regex, second: Regex)
    | Alt(left: Regex, right: Regex)
    | Star(body: Regex)

  /** Membership of the whole string in the language. */
  predicate Matches(r: Regex, s: string)
    decreases r, |s|, 1
  {
    match r
    case Empty => s == []
    case Class(chars) => |s| == 1 && s[0] in chars
    case Cat(a, b) => exists i | 0 <= i <= |s| :: CatAt(a, b, s, i)
    case Alt(a, b) => Matches(a, s) || Matches(b, s)
    case Star(a) => s == [] || exists i | 0 < i <= |s| :: StarAt(a, s, i)
  }

  predicate CatAt(a: Regex, b: Regex, s: string, i: nat)
    requires i <= |s|
    decreases Cat(a, b), |s|, 0
  {
    Matches(a, s[..i]) && Matches(b, s[i..])
  }

  predicate StarAt(a: Regex, s: string, i: nat)
    requires 0 < i <= |s|
    decreases Star(a), |s|, 0
  {
    Matches(a, s[..i]) && Matches(Star(a), s[i..])
  }

  function Char(c: char): Regex { Class({c}) }

  function Optional(r: Regex): Regex { Alt(r, Empty) }

  function Plus(r: Regex): Regex { Cat(r, Star(r)) }

  /** Exactly `n` repetitions. */
  function Times(r: Regex, n: nat): Regex { if n == 0 then Empty else Cat(r, Times(r, n - 1)) }

  function Literal(t: string): Regex { if t == [] then Empty else Cat(Char(t[0]), Literal(t[1..])) }

  /** The characters a match may contain. */
  function Alphabet(r: Regex): set<char> {
    match r
    case Empty => {}
    case Class(chars) => chars
    case Cat(a, b) => Alphabet(a) + Alphabet(b)
    case Alt(a, b) => Alphabet(a) + Alphabet(b)
    case Star(a) => Alphabet(a)
  }

  lemma {:induction false} MatchesAlphabet(r: Regex, s: string)
    requires Matches(r, s)
    ensures All(s, Alphabet(r))
    decreases r, |s|
  {
    match r
    case Empty =>
    case Class(_) =>
    case Cat(a, b) =>
      var i :| 0 <= i <= |s| && CatAt(a, b, s, i);
      MatchesAlphabet(a, s[..i]);
      MatchesAlphabet(b, s[i..]);
      AllConcat(s[..i], s[i..], Alphabet(r));
      assert s == s[..i] + s[i..];
    case Alt(a, b) =>
      if Matches(a, s) { MatchesAlphabet(a, s); } else { MatchesAlphabet(b, s); }
    case Star(a) =>
      if s != [] {
        var i :| 0 < i <= |s| && StarAt(a, s, i);
        MatchesAlphabet(a, s[..i]);
        MatchesAlphabet(r, s[i..]);
        AllConcat(s[..i], s[i..], Alphabet(r));
        assert s == s[..i] + s[i..];
      }
  }

  lemma CatIntro(a: Regex, b: Regex, u: string, v: string)
    requires Matches(a, u) && Matches(b, v)
    ensures Matches(Cat(a, b), u + v)
  {
    var s := u + v;
    assert s[..|u|] == u && s[|u|..] == v;
    assert CatAt(a, b, s, |u|);
  }

  lemma CatElim(a: Regex, b: Regex, s: string) returns (u: string, v: string)
    requires Matches(Cat(a, b), s)
    ensures s == u + v && Matches(a, u) && Matches(b, v)
  {
    var i :| 0 <= i <= |s| && CatAt(a, b, s, i);
    u, v := s[..i], s[i..];
  }

  lemma StarIntro(a: Regex, u: string, v: string)
    requires u != [] && Matches(a, u) && Matches(Star(a), v)
    ensures Matches(Star(a), u + v)
  {
    var s := u + v;
    assert s[..|u|] == u && s[|u|..] == v;
    assert StarAt(a, s, |u|);
  }

  lemma {:induction false} StarClass(chars: set<char>, s: string)
    ensures Matches(Star(Class(chars)), s) <==> All(s, chars)
    decreases |s|
  {
    var r := Star(Class(chars));
    if Matches(r, s) {
      MatchesAlphabet(r, s);
      assert Alphabet(r) == chars;
    }
    if All(s, chars) && s != [] {
      StarClass(chars, s[1..]);
      StarIntro(Class(chars), s[..1], s[1..]);
      assert s == s[..1] + s[1..];
    }
  }

  lemma PlusClass(chars: set<char>, s: string)
    ensures Matches(Plus(Class(chars)), s) <==> s != [] && All(s, chars)
  {
    HeadClass(chars, Star(Class(chars)), s);
    if s != [] {
      StarClass(chars, s[1..]);
      AllConcat(s[..1], s[1..], chars);
      assert s == s[..1] + s[1..];
    }
  }

  /** A leading class consumes exactly one character. */
  lemma HeadClass(chars: set<char>, rest: Regex, s: string)
    ensures Matches(Cat(Class(chars), rest), s) <==> s != [] && s[0] in chars && Matches(rest, s[1..])
  {
    if Matches(Cat(Class(chars), rest), s) {
      var u, v := CatElim(Class(chars), rest, s);
      assert s[1..] == v;
    }
    if s != [] && s[0] in chars && Matches(rest, s[1..]) {
      assert CatAt(Class(chars), rest, s, 1);
    }
  }

  /** Concatenation is associative. */
  lemma CatAssoc(a: Regex, b: Regex, c: Regex, s: string)
    ensures Matches(Cat(Cat(a, b), c), s) <==> Matches(Cat(a, Cat(b, c)), s)
  {
    if Matches(Cat(Cat(a, b), c), s) {
      CatAssocLeft(a, b, c, s);
    }
    if Matches(Cat(a, Cat(b, c)), s) {
      CatAssocRight(a, b, c, s);
    }
  }

  lemma CatAssocLeft(a: Regex, b: Regex, c: Regex, s: string)
    requires Matches(Cat(Cat(a, b), c), s)
    ensures Matches(Cat(a, Cat(b, c)), s)
  {
    var u, w := CatElim(Cat(a, b), c, s);
    var x, y := CatElim(a, b, u);
    CatIntro(b, c, y, w);
    CatIntro(a, Cat(b, c), x, y + w);
    assert x + (y + w) == s;
  }

  lemma CatAssocRight(a: Regex, b: Regex, c: Regex, s: string)
    requires Matches(Cat(a, Cat(b, c)), s)
    ensures Matches(Cat(Cat(a, b), c), s)
  {
    var x, u := CatElim(a, Cat(b, c), s);
    var y, w := CatElim(b, c, u);
    CatIntro(a, b, x, y);
    CatIntro(Cat(a, b), c, x + y, w);
    assert (x + y) + w == s;
  }

  /** Alternatives distribute over what follows them. */
  lemma CatAlternatives(a: Regex, b: Regex, c: Regex, s: string)
    ensures Matches(Cat(Alt(a, b), c), s) <==> Matches(Cat(a, c), s) || Matches(Cat(b, c), s)
  {
    if Matches(Cat(Alt(a, b), c), s) {
      var u, v := CatElim(Alt(a, b), c, s);
      if Matches(a, u) { CatIntro(a, c, u, v); } else { CatIntro(b, c, u, v); }
    }
    if Matches(Cat(a, c), s) {
      var u, v := CatElim(a, c, s);
      CatIntro(Alt(a, b), c, u, v);
    }
    if Matches(Cat(b, c), s) {
      var u, v := CatElim(b, c, s);
      CatIntro(Alt(a, b), c, u, v);
    }
  }

  lemma CatEmpty(c: Regex, s: string)
    ensures Matches(Cat(Empty, c), s) <==> Matches(c, s)
  {
    if Matches(Cat(Empty, c), s) {
      var u, v := CatElim(Empty, c, s);
      assert s == v;
    }
    if Matches(c, s) {
      CatIntro(Empty, c, [], s);
      assert [] + s == s;
    }
  }

  lemma {:induction false} LiteralMatches(t: string, s: string)
    ensures Matches(Literal(t), s) <==> s == t
    decreases |t|
  {
    if t == [] {
    } else {
      HeadClass({t[0]}, Literal(t[1..]), s);
      if s != [] {
        LiteralMatches(t[1..], s[1..]);
        assert s == [s[0]] + s[1..];
      }
      assert t == [t[0]] + t[1..];
    }
  }

  lemma {:induction false} TimesClass(chars: set<char>, n: nat, s: string)
    ensures Matches(Times(Class(chars), n), s) <==> |s| == n && All(s, chars)
    decreases n
  {
    if n == 0 {
    } else {
      HeadClass(chars, Times(Class(chars), n - 1), s);
      if s != [] {
        TimesClass(chars, n - 1, s[1..]);
        AllConcat(s[..1], s[1..], chars);
        assert s == s[..1] + s[1..];
      }
    }
  }
}
