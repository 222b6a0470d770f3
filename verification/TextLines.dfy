/** Texts cut into lines: what the line readers compute, whatever the pieces the text arrives in. */
module TextLines {
  const LF := '\n'
  const CR := '\r'

  /** The lines ended by a newline, without it, and what comes after the last newline. */
  datatype Cut = Cut(lines: seq<string>, rest: string)

  /** `c` with more text after it. */
  function ReadOn(c: Cut, s: string): Cut {
    if s == [] then c
    else
      var d, last := ReadOn(c, s[..|s| - 1]), s[|s| - 1];
      if last == LF then Cut(d.lines + [d.rest], "") else Cut(d.lines, d.rest + [last])
  }

  function Read(s: string): Cut { ReadOn(Cut([], ""), s) }

  /** A line as it is handed on: without one carriage return at its end. */
  function Chomp(line: string): string {
    if line != [] && line[|line| - 1] == CR then line[..|line| - 1] else line
  }

  function ChompAll(lines: seq<string>): (r: seq<string>)
    ensures |r| == |lines| && forall i :: 0 <= i < |r| ==> r[i] == Chomp(lines[i])
  {
    seq(|lines|, i requires 0 <= i < |lines| => Chomp(lines[i]))
  }

  /** All lines of a text that has ended: an unfinished last line counts if it is not empty. */
  function AllLines(s: string): seq<string> {
    ChompAll(Read(s).lines + if Read(s).rest != "" then [Read(s).rest] else [])
  }

  lemma {:induction false} ReadMore(c: Cut, a: string, b: string)
    ensures ReadOn(c, a + b) == ReadOn(ReadOn(c, a), b)
  {
    if b == [] {
      assert a + b == a;
    } else {
      var init := b[..|b| - 1];
      ReadMore(c, a, init);
      assert (a + b)[..|a + b| - 1] == a + init;
      assert (a + b)[|a + b| - 1] == b[|b| - 1];
    }
  }

  lemma {:induction false} ReadPlain(c: Cut, s: string)
    requires LF !in s
    ensures ReadOn(c, s) == Cut(c.lines, c.rest + s)
  {
    if s == [] {
      assert c.rest + s == c.rest;
    } else {
      var init, last := s[..|s| - 1], s[|s| - 1];
      ReadPlain(c, init);
      assert s == init + [last];
      assert c.rest + s == c.rest + init + [last];
    }
  }

  /** Up to and with a newline: one line is complete. */
  lemma ReadLine(c: Cut, s: string)
    requires LF !in s
    ensures ReadOn(c, s + [LF]) == Cut(c.lines + [c.rest + s], "")
  {
    ReadPlain(c, s);
    var all := s + [LF];
    assert all[..|all| - 1] == s && all[|all| - 1] == LF;
  }

  // ----- the lines are the text's -----

  function Joined(lines: seq<string>, rest: string): string {
    if lines == [] then rest else lines[0] + [LF] + Joined(lines[1..], rest)
  }

  ghost predicate IsCut(s: string, c: Cut) {
    && Joined(c.lines, c.rest) == s
    && LF !in c.rest
    && forall i :: 0 <= i < |c.lines| ==> LF !in c.lines[i]
  }

  lemma ReadOneLine(c: Cut, line: string, tail: string) returns (d: Cut)
    requires LF !in line && c.rest == ""
    ensures d == Cut(c.lines + [line], "") && ReadOn(c, line + [LF] + tail) == ReadOn(d, tail)
  {
    d := Cut(c.lines + [line], "");
    ReadMore(c, line + [LF], tail);
    ReadLine(c, line);
    assert c.rest + line == line;
  }

  lemma {:induction false} ReadJoined(c: Cut, lines: seq<string>, rest: string)
    requires LF !in rest && c.rest == "" && forall i :: 0 <= i < |lines| ==> LF !in lines[i]
    ensures ReadOn(c, Joined(lines, rest)) == Cut(c.lines + lines, rest)
    decreases |lines|
  {
    if lines == [] {
      ReadPlain(c, rest);
      assert c.rest + rest == rest && c.lines + lines == c.lines;
    } else {
      var d := ReadOneLine(c, lines[0], Joined(lines[1..], rest));
      ReadJoined(d, lines[1..], rest);
      assert d.lines + lines[1..] == c.lines + lines;
    }
  }

  lemma {:induction false} ReadIsCut(s: string)
    ensures IsCut(s, Read(s))
  {
    if s != [] {
      var init, last := s[..|s| - 1], s[|s| - 1];
      ReadIsCut(init);
      var c := Read(init);
      assert s == init + [last];
      if last == LF {
        JoinedSnoc(c.lines, c.rest, "");
      } else {
        JoinedRest(c.lines, c.rest, [last]);
      }
    }
  }

  lemma {:induction false} JoinedRest(lines: seq<string>, rest: string, more: string)
    ensures Joined(lines, rest + more) == Joined(lines, rest) + more
  {
    if lines != [] {
      JoinedRest(lines[1..], rest, more);
    }
  }

  lemma {:induction false} JoinedSnoc(lines: seq<string>, line: string, rest: string)
    ensures Joined(lines + [line], rest) == Joined(lines, line) + [LF] + rest
  {
    if lines == [] {
      assert lines + [line] == [line];
      assert [line][1..] == [];
    } else {
      JoinedSnoc(lines[1..], line, rest);
      assert (lines + [line])[1..] == lines[1..] + [line];
    }
  }

  /** The reading is the only way to write the text as newline-free lines, each ended by a newline, and a rest. */
  lemma CutIsUnique(s: string, c: Cut)
    ensures IsCut(s, c) <==> c == Read(s)
  {
    ReadIsCut(s);
    if IsCut(s, c) {
      ReadJoined(Cut([], ""), c.lines, c.rest);
      assert [] + c.lines == c.lines;
    }
  }
}
