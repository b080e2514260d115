/** Cutting a string at a separator and gluing the pieces back. */
module Text {

  /** The offset of the first `sep` in `s`, or `|s|` when there is none. */
  function Find(s: string, sep: char): (n: nat)
    ensures n <= |s|
    ensures sep !in s[..n]
    ensures n < |s| ==> s[n] == sep
  {
    if s == [] || s[0] == sep then 0 else
      var n := 1 + Find(s[1..], sep);
      assert s[..n] == [s[0]] + s[1..][..n - 1];
      n
  }

  /** The fields of `s` between separators; leading, trailing and empty fields all count. */
  function Fields(s: string, sep: char): (fields: seq<string>)
    ensures |fields| >= 1
    decreases |s|
  {
    var n := Find(s, sep);
    if n == |s| then [s] else [s[..n]] + Fields(s[n + 1..], sep)
  }

  /** The fields glued together, one separator between neighbours. */
  function Join(fields: seq<string>, sep: char): string
    requires |fields| >= 1
  {
    if |fields| == 1 then fields[0] else fields[0] + [sep] + Join(fields[1..], sep)
  }

  function Count(s: string, c: char): nat {
    if s == [] then 0 else (if s[0] == c then 1 else 0) + Count(s[1..], c)
  }

  ghost predicate Separated(fields: seq<string>, sep: char) {
    forall k :: 0 <= k < |fields| ==> sep !in fields[k]
  }

  predicate All(s: string, chars: set<char>) {
    forall k | 0 <= k < |s| :: s[k] in chars
  }

  lemma AllConcat(a: string, b: string, chars: set<char>)
    ensures All(a + b, chars) <==> All(a, chars) && All(b, chars)
  {
    if All(a + b, chars) {
      forall k | 0 <= k < |a| ensures a[k] in chars { assert (a + b)[k] == a[k]; }
      forall k | 0 <= k < |b| ensures b[k] in chars { assert (a + b)[|a| + k] == b[k]; }
    }
  }

  /** `std::getline`: the text up to the next separator, the new position, and whether the stream
      is still good (it stays good only when a separator was consumed). */
  method GetLine(s: string, pos: nat, sep: char) returns (line: string, next: nat, good: bool)
    requires pos <= |s|
    ensures sep !in line
    ensures pos <= next <= |s|
    ensures good ==> pos < next && s[pos..] == line + [sep] + s[next..]
    ensures !good ==> next == |s| && line == s[pos..]
  {
    line, next := "", pos;
    while next < |s| && s[next] != sep
      invariant pos <= next <= |s|
      invariant line == s[pos..next]
      invariant sep !in line
    {
      line := line + [s[next]];
      next := next + 1;
    }
    good := next < |s|;
    if good {
      assert s[pos..] == s[pos..next] + [s[next]] + s[next + 1..];
      next := next + 1;
    }
  }

  /** The `split_` loop: read fields while the stream is good. */
  method Split(sentence: string, separator: char) returns (content: seq<string>)
    ensures content == Fields(sentence, separator)
  {
    content := [];
    var pos, good := 0, true;
    assert sentence[0..] == sentence;
    while good
      invariant pos <= |sentence|
      invariant good ==> Fields(sentence, separator) == content + Fields(sentence[pos..], separator)
      invariant !good ==> Fields(sentence, separator) == content
      decreases |sentence| - pos, good
    {
      ghost var rest := sentence[pos..];
      var result;
      result, pos, good := GetLine(sentence, pos, separator);
      if good {
        FieldsCons(result, sentence[pos..], separator);
      } else {
        FieldsOne(rest, separator);
      }
      content := content + [result];
    }
  }

  lemma FieldsOne(s: string, sep: char)
    requires sep !in s
    ensures Fields(s, sep) == [s]
  {
    assert Find(s, sep) == |s|;
  }

  lemma FieldsCons(head: string, tail: string, sep: char)
    requires sep !in head
    ensures Fields(head + [sep] + tail, sep) == [head] + Fields(tail, sep)
  {
    var s := head + [sep] + tail;
    FindCons(head, tail, sep);
    assert s[..|head|] == head && s[|head| + 1..] == tail;
  }

  lemma {:induction false} FindCons(head: string, tail: string, sep: char)
    requires sep !in head
    ensures Find(head + [sep] + tail, sep) == |head|
  {
    if head == [] {
    } else {
      FindCons(head[1..], tail, sep);
      assert (head + [sep] + tail)[1..] == head[1..] + [sep] + tail;
    }
  }

  lemma CountAppend(a: string, b: string, c: char)
    ensures Count(a + b, c) == Count(a, c) + Count(b, c)
  {
    if a == [] {
      assert a + b == b;
    } else {
      assert (a + b)[1..] == a[1..] + b;
      CountAppend(a[1..], b, c);
    }
  }

  lemma CountNone(s: string, c: char)
    requires c !in s
    ensures Count(s, c) == 0
  {
    if s == [] {
    } else {
      CountNone(s[1..], c);
    }
  }

  /** The first field and the rest, as strings. */
  lemma FieldsUnfold(s: string, sep: char) returns (head: string, rest: string)
    requires sep in s
    ensures s == head + [sep] + rest && sep !in head && |rest| < |s|
    ensures Fields(s, sep) == [head] + Fields(rest, sep)
  {
    var n := Find(s, sep);
    assert s[..|s|] == s;
    head, rest := s[..n], s[n + 1..];
  }

  /** Splitting loses nothing: one more field than separators, no separator inside a field, and
      joining restores the text. */
  lemma {:induction false} JoinFields(s: string, sep: char)
    ensures Join(Fields(s, sep), sep) == s
    ensures Separated(Fields(s, sep), sep)
    ensures |Fields(s, sep)| == Count(s, sep) + 1
    decreases |s|
  {
    if sep !in s {
      FieldsOne(s, sep);
      CountNone(s, sep);
    } else {
      var head, rest := FieldsUnfold(s, sep);
      JoinFields(rest, sep);
      assert Fields(s, sep)[1..] == Fields(rest, sep);
      CountCons(head, rest, sep);
    }
  }

  lemma CountCons(head: string, rest: string, sep: char)
    requires sep !in head
    ensures Count(head + [sep] + rest, sep) == 1 + Count(rest, sep)
  {
    CountNone(head, sep);
    CountAppend(head + [sep], rest, sep);
    CountAppend(head, [sep], sep);
  }

  /** Joining separator-free fields and splitting again gives the same fields. */
  lemma {:induction false} FieldsJoin(fields: seq<string>, sep: char)
    requires |fields| >= 1
    requires Separated(fields, sep)
    ensures Fields(Join(fields, sep), sep) == fields
  {
    if |fields| == 1 {
      FieldsOne(fields[0], sep);
    } else {
      FieldsJoin(fields[1..], sep);
      FieldsCons(fields[0], Join(fields[1..], sep), sep);
      assert fields == [fields[0]] + fields[1..];
    }
  }
}
