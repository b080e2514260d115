/** Cutting what a serial port delivers into lines. */
module Framing {
  import opened Text

  /** What one blocking read of a character ends with. */
  datatype PortEvent = Byte(c: char) | Aborted | Failed

  /** The lines completed so far and the characters of the line being read. */
  datatype Frame = Frame(lines: seq<string>, partial: string)

  /** Every '\r' is skipped, '\n' completes the line, an error abandons it. */
  function Feed(f: Frame, e: PortEvent): Frame {
    match e
    case Byte(c) =>
      if c == '\r' then f
      else if c == '\n' then Frame(f.lines + [f.partial], "")
      else Frame(f.lines, f.partial + [c])
    case Aborted => Frame(f.lines, "")
    case Failed => Frame(f.lines, "")
  }

  /** The whole history of a port, any number of sessions. */
  function Framed(log: seq<PortEvent>): Frame {
    if log == [] then Frame([], "") else Feed(Framed(log[..|log| - 1]), log[|log| - 1])
  }

  function Bytes(s: string): seq<PortEvent> { seq(|s|, i requires 0 <= i < |s| => Byte(s[i])) }

  function WithoutReturns(s: string): string {
    if s == "" then "" else
      WithoutReturns(s[..|s| - 1]) + if s[|s| - 1] == '\r' then "" else [s[|s| - 1]]
  }

  function EachWithoutReturns(lines: seq<string>): seq<string> {
    seq(|lines|, i requires 0 <= i < |lines| => WithoutReturns(lines[i]))
  }

  // ---------- Framing is splitting ----------

  /** Appending one character extends the last field, or opens a new one. */
  lemma {:induction false} FieldsSnoc(s: string, c: char, sep: char)
    ensures var f := Fields(s, sep);
            Fields(s + [c], sep) == if c == sep then f + [""] else f[..|f| - 1] + [f[|f| - 1] + [c]]
    decreases |s|
  {
    hide Fields, Find;
    if sep in s {
      var head, rest := FieldsUnfold(s, sep);
      FieldsSnoc(rest, c, sep);
      assert s + [c] == head + [sep] + (rest + [c]);
      FieldsCons(head, rest + [c], sep);
      ConsExtends(head, Fields(rest, sep), c);
    } else {
      FieldsOne(s, sep);
      if c == sep {
        assert s + [c] == s + [sep] + "";
        FieldsCons(s, "", sep);
        FieldsOne("", sep);
      } else {
        FieldsOne(s + [c], sep);
      }
    }
  }

  lemma ConsExtends(head: string, g: seq<string>, c: char)
    requires |g| >= 1
    ensures var f := [head] + g;
            && f + [""] == [head] + (g + [""])
            && f[..|f| - 1] + [f[|f| - 1] + [c]] == [head] + (g[..|g| - 1] + [g[|g| - 1] + [c]])
  {
    var f := [head] + g;
    assert f[..|f| - 1] == [head] + g[..|g| - 1];
  }

  /** Over any byte stream: the completed lines are the segments before each '\n' and the rest is the
      segment after the last one, all with their '\r' removed. */
  lemma {:induction false} FramingIsSplitting(s: string)
    ensures Framed(Bytes(s)) == Segments(Fields(s, '\n'))
  {
    hide Fields, Find, Bytes, WithoutReturns;
    if s == "" {
      FieldsOne("", '\n');
      NoBytes();
      NoReturns();
    } else {
      hide Framed, Segments, Feed;
      var s', c := s[..|s| - 1], s[|s| - 1];
      FramingIsSplitting(s');
      assert s == s' + [c];
      BytesSnoc(s', c);
      FramedSnoc(Bytes(s'), Byte(c));
      FieldsSnoc(s', c, '\n');
      SegmentsSnoc(Fields(s', '\n'), c);
    }
  }

  lemma NoReturns()
    ensures WithoutReturns("") == ""
  {
  }

  /** The split form of a frame. */
  function Segments(f: seq<string>): Frame
    requires |f| >= 1
  {
    Frame(EachWithoutReturns(f[..|f| - 1]), WithoutReturns(f[|f| - 1]))
  }

  lemma SegmentsSnoc(f: seq<string>, c: char)
    requires |f| >= 1
    ensures Feed(Segments(f), Byte(c)) ==
            Segments(if c == '\n' then f + [""] else f[..|f| - 1] + [f[|f| - 1] + [c]])
  {
    LastSegment(f, c);
    hide WithoutReturns;
    if c == '\n' {
      var g := f + [""];
      assert g[..|g| - 1] == f;
    } else {
      var g := f[..|f| - 1] + [f[|f| - 1] + [c]];
      assert g[..|g| - 1] == f[..|f| - 1];
    }
  }

  lemma LastSegment(f: seq<string>, c: char)
    requires |f| >= 1
    ensures var last := f[|f| - 1];
            WithoutReturns(last + [c]) == WithoutReturns(last) + if c == '\r' then "" else [c]
    ensures EachWithoutReturns(f) == EachWithoutReturns(f[..|f| - 1]) + [WithoutReturns(f[|f| - 1])]
    ensures WithoutReturns("") == ""
  {
    var last := f[|f| - 1];
    assert (last + [c])[..|last|] == last;
  }

  // ---------- Sending lines ----------

  /** The lines on the wire, each ended by "\r\n" or by "\n". */
  function Wire(lines: seq<string>, withReturn: seq<bool>): string
    requires |lines| == |withReturn|
  {
    if lines == [] then "" else
      Wire(lines[..|lines| - 1], withReturn[..|lines| - 1])
      + (lines[|lines| - 1] + Ending(withReturn[|lines| - 1]))
  }

  lemma {:induction false} FramedAppend(log: seq<PortEvent>, s: string)
    requires '\n' !in s
    ensures Framed(log + Bytes(s)) == Frame(Framed(log).lines, Framed(log).partial + WithoutReturns(s))
  {
    hide Framed, Bytes;
    if s == "" {
      NoBytes();
      assert log + [] == log && Framed(log).partial + "" == Framed(log).partial;
    } else {
      var s', c := s[..|s| - 1], s[|s| - 1];
      FramedAppend(log, s');
      FramedSnoc(log + Bytes(s'), Byte(c));
      BytesSnoc(s', c);
      assert s == s' + [c];
      assert log + (Bytes(s') + [Byte(c)]) == (log + Bytes(s')) + [Byte(c)];
      var p := Framed(log).partial;
      assert p + WithoutReturns(s') + [c] == p + (WithoutReturns(s') + [c]);
      assert p + WithoutReturns(s') == p + (WithoutReturns(s') + "");
    }
  }

  lemma {:induction false} ReturnsCount(s: string)
    ensures |WithoutReturns(s)| <= |s|
    ensures WithoutReturns(s) == s <==> '\r' !in s
  {
    if s == "" {
    } else {
      var s', c := s[..|s| - 1], s[|s| - 1];
      ReturnsCount(s');
      assert s == s' + [c];
      if c != '\r' && WithoutReturns(s) == s {
        assert WithoutReturns(s)[..|s| - 1] == WithoutReturns(s') == s';
      }
    }
  }

  lemma NoBytes()
    ensures Bytes("") == []
  {
  }

  lemma BytesSnoc(s: string, c: char)
    ensures Bytes(s + [c]) == Bytes(s) + [Byte(c)]
  {
  }

  lemma FramedSnoc(log: seq<PortEvent>, e: PortEvent)
    ensures Framed(log + [e]) == Feed(Framed(log), e)
  {
    assert (log + [e])[..|log|] == log;
  }

  /** Lines free of '\n', sent with any mix of endings, arrive one by one, less their '\r'. */
  lemma {:induction false} LinesArrive(lines: seq<string>, withReturn: seq<bool>)
    requires |lines| == |withReturn|
    requires forall k :: 0 <= k < |lines| ==> '\n' !in lines[k]
    ensures Framed(Bytes(Wire(lines, withReturn))) == Frame(EachWithoutReturns(lines), "")
  {
    if lines == [] {
      assert Bytes(Wire(lines, withReturn)) == [];
    } else {
      var n := |lines| - 1;
      var before, last := Wire(lines[..n], withReturn[..n]), lines[n] + Ending(withReturn[n]);
      assert Wire(lines, withReturn) == before + last;
      hide Framed, Bytes, Wire, Ending, WithoutReturns;
      LinesArrive(lines[..n], withReturn[..n]);
      FramedLine(Bytes(before), lines[n], withReturn[n]);
      assert EachWithoutReturns(lines) == EachWithoutReturns(lines[..n]) + [WithoutReturns(lines[n])];
      BytesAppend(before, last);
    }
  }

  /** Lines free of '\n', sent with any mix of endings, are read back exactly if and only if none of
      them contains a '\r'. */
  lemma LinesReadBack(lines: seq<string>, withReturn: seq<bool>)
    requires |lines| == |withReturn|
    requires forall k :: 0 <= k < |lines| ==> '\n' !in lines[k]
    ensures Framed(Bytes(Wire(lines, withReturn))) == Frame(lines, "") <==>
            forall k :: 0 <= k < |lines| ==> '\r' !in lines[k]
  {
    LinesArrive(lines, withReturn);
    hide Framed, Bytes, Wire, WithoutReturns;
    forall k | 0 <= k < |lines| ensures EachWithoutReturns(lines)[k] == lines[k] <==> '\r' !in lines[k] {
      ReturnsCount(lines[k]);
    }
  }

  lemma BytesAppend(a: string, b: string)
    ensures Bytes(a + b) == Bytes(a) + Bytes(b)
  {
  }

  function Ending(withReturn: bool): string { if withReturn then "\r\n" else "\n" }

  lemma EndingBytes(withReturn: bool)
    ensures Bytes(Ending(withReturn)) == (if withReturn then [Byte('\r')] else []) + [Byte('\n')]
  {
  }

  lemma FramedLine(log: seq<PortEvent>, line: string, withReturn: bool)
    requires '\n' !in line && Framed(log).partial == ""
    ensures Framed(log + Bytes(line + Ending(withReturn))) == Frame(Framed(log).lines + [WithoutReturns(line)], "")
  {
    EndingBytes(withReturn);
    BytesAppend(line, Ending(withReturn));
    hide Framed, Bytes, Ending;
    var text, end := log + Bytes(line), [Byte('\n')];
    FramedAppend(log, line);
    assert "" + WithoutReturns(line) == WithoutReturns(line);
    var before := if withReturn then text + [Byte('\r')] else text;
    FramedSnoc(text, Byte('\r'));
    FramedSnoc(before, Byte('\n'));
    assert log + Bytes(line + Ending(withReturn)) == before + end;
  }
}
