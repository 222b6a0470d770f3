/** The two line readers: the runner's splitLines, and the reader of a model's event stream. Texts arrive decoded. */
module LineReaders {
  import opened TextLines

  /** The position of the next newline, or -1. */
  function IndexOf(s: string, start: nat): (i: int)
    requires start <= |s|
    ensures i == -1 || start <= i < |s|
    ensures i >= 0 ==> s[i] == LF && LF !in s[start..i]
    ensures i < 0 ==> LF !in s[start..]
    decreases |s| - start
  {
    if start == |s| then -1
    else if s[start] == LF then start
    else
      var i := IndexOf(s, start + 1);
      assert i >= 0 ==> s[start..i] == [s[start]] + s[start + 1..i];
      assert s[start..] == [s[start]] + s[start + 1..];
      i
  }

  /** splitLines: `emitted` are the lines handed to onLine so far, `received` the text so far. */
  class LineSplitter {
    var buffer: string
    var emitted: seq<string>
    ghost var received: string

    ghost predicate Valid()
      reads this
    {
      buffer == Read(received).rest && emitted == ChompAll(Read(received).lines)
    }

    constructor ()
      ensures Valid() && received == ""
    {
      buffer, emitted, received := "", [], "";
    }

    /** After any pieces of a text, the lines emitted are those of the whole text. */
    method OnData(text: string)
      requires Valid()
      modifies this
      ensures Valid() && received == old(received) + text
    {
      ghost var c := Read(received);
      ReadMore(Cut([], ""), received, text);
      received := received + text;
      var index := IndexOf(text, 0);
      if index < 0 {
        assert text[0..] == text;
        ReadPlain(c, text);
        buffer := buffer + text;
      } else {
        var start := EmitLines(text, index, c);
        Remainder(c, text, start);
        buffer := text[start..];
      }
    }

    /** The loop over the newlines of a text, from its first at `first`: returns the position after the last. */
    method EmitLines(text: string, first: nat, ghost c: Cut) returns (start: nat)
      requires first < |text| && first == IndexOf(text, 0) && buffer == c.rest && emitted == ChompAll(c.lines)
      modifies this`buffer, this`emitted
      ensures start <= |text| && LF !in text[start..]
      ensures ReadOn(c, text[..start]).rest == "" && emitted == ChompAll(ReadOn(c, text[..start]).lines)
    {
      start := 0;
      var index: int := first;
      assert text[..0] == "";
      while index >= 0
        invariant 0 <= start <= |text| && index == IndexOf(text, start)
        invariant buffer == ReadOn(c, text[..start]).rest && emitted == ChompAll(ReadOn(c, text[..start]).lines)
        invariant index >= 0 || buffer == ""
        decreases |text| - start
      {
        ghost var d := ReadOn(c, text[..start]);
        NextLine(c, text, start, index);
        ChompSnoc(d.lines, d.rest + text[start..index]);
        emitted := emitted + [Chomp(buffer + text[start..index])];
        buffer := "";
        start := index + 1;
        index := IndexOf(text, start);
      }
    }

    /** The stream's end: an unfinished last line is emitted too. `tail` is what the decoder still held. */
    method OnEnd(tail: string)
      requires Valid() && LF !in tail
      modifies this
      ensures emitted == AllLines(old(received) + tail) && buffer == ""
    {
      ghost var c := Read(received);
      ReadMore(Cut([], ""), received, tail);
      ReadPlain(c, tail);
      buffer := buffer + tail;
      ChompSnoc(c.lines, buffer);
      assert c.lines + [] == c.lines;
      if buffer != "" {
        emitted := emitted + [Chomp(buffer)];
      }
      buffer := "";
    }
  }

  lemma ChompSnoc(lines: seq<string>, line: string)
    ensures ChompAll(lines + [line]) == ChompAll(lines) + [Chomp(line)]
  {
  }

  lemma NextLine(c: Cut, text: string, start: nat, index: nat)
    requires start <= index < |text| && text[index] == LF && LF !in text[start..index]
    ensures var d := ReadOn(c, text[..start]);
            ReadOn(c, text[..index + 1]) == Cut(d.lines + [d.rest + text[start..index]], "")
  {
    var line := text[start..index];
    assert text[..index + 1] == text[..start] + (line + [LF]);
    ReadMore(c, text[..start], line + [LF]);
    ReadLine(ReadOn(c, text[..start]), line);
  }

  lemma Remainder(c: Cut, text: string, start: nat)
    requires start <= |text| && LF !in text[start..]
    ensures var d := ReadOn(c, text[..start]); ReadOn(c, text) == Cut(d.lines, d.rest + text[start..])
  {
    assert text == text[..start] + text[start..];
    ReadMore(c, text[..start], text[start..]);
    ReadPlain(ReadOn(c, text[..start]), text[start..]);
  }
}
