/**
 The diagnostics of a model's event stream: lines make frames, frames are counted. JSON.parse is a parameter: it gives
 the fields the reader looks at.
 */
module StreamReaders {
  import opened Basics
  import opened TextLines
  import opened LineReaders

  /** An element of `choices`: null, or something with or without a finish reason. */
  datatype Choice = Null | Choice(finished: bool)

  datatype Choices = Missing | NotAList | List(choices: seq<Choice>)

  /** A parsed frame: its type, empty if it has none, and its choices. */
  datatype Fields = Fields(kind: string, choices: Choices)

  type Parser = string -> Option<Fields>

  /** What looking for a finish reason in the choices gives: it throws at a null, or if there is no list to look in. */
  datatype Search = Throws | Found | NotFound

  function Look(choices: seq<Choice>): Search {
    if choices == [] then NotFound
    else if choices[0].Null? then Throws
    else if choices[0].finished then Found
    else Look(choices[1..])
  }

  function LookIn(choices: Choices): Search {
    match choices
    case Missing => NotFound
    case NotAList => Throws
    case List(list) => Look(list)
  }

  /** What a frame says: no known fields, not readable to the end, the stream is finished. */
  datatype Verdict = Verdict(unknown: bool, unreadable: bool, finishes: bool)

  const FINAL_TYPES := ["response.completed", "response.incomplete", "message_stop"]

  function Judge(frame: string, parse: Parser): Verdict {
    if frame == "[DONE]" then Verdict(false, false, true)
    else if parse(frame).None? then Verdict(false, true, false)
    else
      var f := parse(frame).value;
      var search := LookIn(f.choices);
      var finishes := search.Found? || (search.NotFound? && f.kind in FINAL_TYPES);
      Verdict(f.kind == "" && !f.choices.List?, search.Throws?, finishes)
  }

  /** A frame without a type whose choices are no list counts twice: as unknown, and as unreadable. */
  lemma CountedTwice(frame: string, parse: Parser)
    requires frame != "[DONE]"
    ensures Judge(frame, parse).unknown && Judge(frame, parse).unreadable <==>
        parse(frame) == Some(Fields("", NotAList))
    ensures Judge(frame, parse).unreadable ==> !Judge(frame, parse).finishes
  {
  }

  datatype Diag = Diag(events: nat, finished: bool, unknown: nat, unreadable: nat)

  /** The data lines of the frame being read, and the diagnostics so far. */
  datatype Reader = Reader(data: seq<string>, diag: Diag)

  const NOTHING := Diag(0, false, 0, 0)

  predicate IsData(line: string) { "data:" <= line }

  /** A data line's value: after the colon, without one leading space. */
  function Value(line: string): string
    requires IsData(line)
  {
    if |line| > 5 && line[5] == ' ' then line[6..] else line[5..]
  }

  function More(n: nat, holds: bool): nat { if holds then n + 1 else n }

  function Counted(d: Diag, frame: string, parse: Parser): Diag {
    var v := Judge(frame, parse);
    Diag(d.events + 1, d.finished || v.finishes, More(d.unknown, v.unknown), More(d.unreadable, v.unreadable))
  }

  function Frame(r: Reader, parse: Parser): Reader {
    if r.data == [] then r else Reader([], Counted(r.diag, Join(r.data, LF), parse))
  }

  function OnLine(r: Reader, line: string, parse: Parser): Reader {
    if line == "" then Frame(r, parse)
    else if IsData(line) then r.(data := r.data + [Value(line)])
    else r
  }

  function OnLines(r: Reader, lines: seq<string>, parse: Parser): Reader {
    if lines == [] then r else OnLine(OnLines(r, lines[..|lines| - 1], parse), lines[|lines| - 1], parse)
  }

  /** The reader inside the response's transform stream. */
  class StreamReader {
    const parse: Parser
    var pending: string
    var data: seq<string>
    var diag: Diag
    ghost var received: string

    ghost function Model(): Reader
      reads this
    {
      Reader(data, diag)
    }

    ghost predicate Valid()
      reads this
    {
      pending == Read(received).rest && Model() == OnLines(Reader([], NOTHING), ChompAll(Read(received).lines), parse)
    }

    constructor (parse: Parser)
      ensures Valid() && received == "" && this.parse == parse
    {
      this.parse := parse;
      pending, data, diag, received := "", [], NOTHING, "";
    }

    method EndFrame()
      modifies this`data, this`diag
      ensures Model() == Frame(old(Model()), parse)
    {
      if data == [] { return; }
      var value := Join(data, LF);
      data := [];
      diag := diag.(events := diag.events + 1);
      if value == "[DONE]" {
        diag := diag.(finished := true);
        return;
      }
      var fields := parse(value);
      if fields.None? {
        diag := diag.(unreadable := diag.unreadable + 1);
        return;
      }
      if fields.value.kind == "" && !fields.value.choices.List? {
        diag := diag.(unknown := diag.unknown + 1);
      }
      match LookIn(fields.value.choices) {
        case Throws => diag := diag.(unreadable := diag.unreadable + 1);
        case Found => diag := diag.(finished := true);
        case NotFound =>
          if fields.value.kind in FINAL_TYPES { diag := diag.(finished := true); }
      }
    }

    method TakeLine(line: string)
      modifies this`data, this`diag
      ensures Model() == OnLine(old(Model()), line, parse)
    {
      if line == "" {
        EndFrame();
      } else if "data:" <= line {
        data := data + [Value(line)];
      }
    }

    /** After any pieces of a text, the frames counted are those of the whole text. */
    method Transform(text: string)
      requires Valid()
      modifies this
      ensures Valid() && received == old(received) + text
    {
      ghost var c := Read(received);
      ReadMore(Cut([], ""), received, text);
      received := received + text;
      PendingFirst(old(received), text);
      pending := pending + text;
      ghost var lines := c.lines;
      var end := IndexOf(pending, 0);
      while end >= 0
        invariant end == IndexOf(pending, 0)
        invariant Model() == OnLines(Reader([], NOTHING), ChompAll(lines), parse)
        invariant ReadOn(Cut(lines, ""), pending) == Read(received)
        invariant received == old(received) + text
        decreases |pending|
      {
        assert pending[0..end] == pending[..end];
        FirstLine(lines, pending, end);
        ChompSnoc(lines, pending[..end]);
        LinesSnoc(Reader([], NOTHING), ChompAll(lines), Chomp(pending[..end]), parse);
        lines := lines + [pending[..end]];
        TakeLine(Chomp(pending[..end]));
        pending := pending[end + 1..];
        end := IndexOf(pending, 0);
      }
      assert pending[0..] == pending;
      ReadPlain(Cut(lines, ""), pending);
      assert "" + pending == pending;
    }

    /** The stream's end: an unfinished line and an unfinished frame count too. */
    method Flush(tail: string)
      requires Valid() && LF !in tail
      modifies this
      ensures Model() == Frame(OnLines(Reader([], NOTHING), AllLines(old(received) + tail), parse), parse)
    {
      ghost var c := Read(received);
      ReadMore(Cut([], ""), received, tail);
      ReadPlain(c, tail);
      pending := pending + tail;
      assert c.lines + [] == c.lines;
      if pending != "" {
        ChompSnoc(c.lines, pending);
        LinesSnoc(Reader([], NOTHING), ChompAll(c.lines), Chomp(pending), parse);
        TakeLine(Chomp(pending));
      }
      EndFrame();
    }
  }

  lemma PendingFirst(received: string, text: string)
    ensures var c := Read(received); ReadOn(Cut(c.lines, ""), c.rest + text) == ReadOn(c, text)
  {
    var c := Read(received);
    ReadIsCut(received);
    ReadPlain(Cut(c.lines, ""), c.rest);
    assert "" + c.rest == c.rest;
    ReadMore(Cut(c.lines, ""), c.rest, text);
  }

  lemma FirstLine(lines: seq<string>, pending: string, end: nat)
    requires end < |pending| && pending[end] == LF && LF !in pending[..end]
    ensures ReadOn(Cut(lines, ""), pending) == ReadOn(Cut(lines + [pending[..end]], ""), pending[end + 1..])
  {
    var line := pending[..end];
    assert pending == (line + [LF]) + pending[end + 1..];
    ReadMore(Cut(lines, ""), line + [LF], pending[end + 1..]);
    ReadLine(Cut(lines, ""), line);
    assert "" + line == line;
  }

  lemma LinesSnoc(r: Reader, lines: seq<string>, line: string, parse: Parser)
    ensures OnLines(r, lines + [line], parse) == OnLine(OnLines(r, lines, parse), line, parse)
  {
    var all := lines + [line];
    assert all[..|all| - 1] == lines && all[|all| - 1] == line;
  }

  // ----- what is counted -----

  function Blank(lines: seq<string>): (i: nat)
    ensures i <= |lines| && "" !in lines[..i] && (i < |lines| ==> lines[i] == "")
  {
    if lines == [] || lines[0] == "" then 0
    else
      var i := Blank(lines[1..]);
      assert lines[..i + 1] == [lines[0]] + lines[1..][..i];
      i + 1
  }

  /** The values of the data lines. */
  function DataOf(lines: seq<string>): seq<string> {
    if lines == [] then [] else (if IsData(lines[0]) then [Value(lines[0])] else []) + DataOf(lines[1..])
  }

  function EventOf(block: seq<string>): seq<string> {
    if DataOf(block) == [] then [] else [Join(DataOf(block), LF)]
  }

  /** The events of a stream's lines: blocks end at blank lines, and a block with data is an event. */
  function EventsOf(lines: seq<string>): seq<string> {
    var i := Blank(lines);
    if i == |lines| then EventOf(lines) else EventOf(lines[..i]) + EventsOf(lines[i + 1..])
  }

  function CountedAll(d: Diag, events: seq<string>, parse: Parser): Diag
    decreases |events|
  {
    if events == [] then d else CountedAll(Counted(d, events[0], parse), events[1..], parse)
  }

  lemma {:induction false} LinesConcat(r: Reader, a: seq<string>, b: seq<string>, parse: Parser)
    ensures OnLines(r, a + b, parse) == OnLines(OnLines(r, a, parse), b, parse)
  {
    if b == [] {
      assert a + b == a;
    } else {
      var init, last := b[..|b| - 1], b[|b| - 1];
      LinesConcat(r, a, init, parse);
      assert a + b == (a + init) + [last];
      LinesSnoc(r, a + init, last, parse);
    }
  }

  lemma {:induction false} BlockData(r: Reader, block: seq<string>, parse: Parser)
    requires "" !in block
    ensures OnLines(r, block, parse) == Reader(r.data + DataOf(block), r.diag)
    decreases |block|
  {
    if block != [] {
      var first := [block[0]];
      assert block == first + block[1..];
      LinesConcat(r, first, block[1..], parse);
      assert first[..0] == [];
      var next := OnLines(r, first, parse);
      assert next == OnLine(r, block[0], parse);
      BlockData(next, block[1..], parse);
    }
  }

  lemma EventCounted(d: Diag, block: seq<string>, parse: Parser)
    requires "" !in block
    ensures Frame(OnLines(Reader([], d), block, parse), parse) == Reader([], CountedAll(d, EventOf(block), parse))
  {
    BlockData(Reader([], d), block, parse);
    assert [] + DataOf(block) == DataOf(block);
  }

  lemma {:induction false} CountedConcat(d: Diag, a: seq<string>, b: seq<string>, parse: Parser)
    ensures CountedAll(d, a + b, parse) == CountedAll(CountedAll(d, a, parse), b, parse)
    decreases |a|
  {
    if a == [] {
      assert a + b == b;
    } else {
      CountedConcat(Counted(d, a[0], parse), a[1..], b, parse);
      assert (a + b)[1..] == a[1..] + b;
    }
  }

  /** The reader counts exactly the events of the lines. */
  lemma {:induction false} EventsCounted(d: Diag, lines: seq<string>, parse: Parser)
    ensures Frame(OnLines(Reader([], d), lines, parse), parse) == Reader([], CountedAll(d, EventsOf(lines), parse))
    decreases |lines|
  {
    var i := Blank(lines);
    var block := lines[..i];
    EventCounted(d, block, parse);
    if i == |lines| {
      assert block == lines;
    } else {
      var rest := lines[i + 1..];
      assert lines == (block + [""]) + rest;
      LinesConcat(Reader([], d), block + [""], rest, parse);
      LinesSnoc(Reader([], d), block, "", parse);
      var counted := CountedAll(d, EventOf(block), parse);
      EventsCounted(counted, rest, parse);
      CountedConcat(d, EventOf(block), EventsOf(rest), parse);
    }
  }

  function Tally(events: seq<string>, counts: string -> bool): nat {
    if events == [] then 0 else (if counts(events[0]) then 1 else 0) + Tally(events[1..], counts)
  }

  /** The counters: all events, the unreadable and the unknown ones; finished if some event says so. */
  lemma {:induction false} CountersMean(d: Diag, events: seq<string>, parse: Parser)
    ensures var c := CountedAll(d, events, parse);
            && c.events == d.events + |events|
            && (c.finished <==> d.finished || exists e :: e in events && Judge(e, parse).finishes)
            && c.unreadable == d.unreadable + Tally(events, e => Judge(e, parse).unreadable)
            && c.unknown == d.unknown + Tally(events, e => Judge(e, parse).unknown)
    decreases |events|
  {
    if events != [] {
      var first, rest := events[0], events[1..];
      CountersMean(Counted(d, first, parse), rest, parse);
      assert events == [first] + rest;
      assert Judge(first, parse).finishes || (exists e :: e in rest && Judge(e, parse).finishes) <==>
        exists e :: e in events && Judge(e, parse).finishes by {
        assert first in events;
        assert forall e :: e in events <==> e == first || e in rest;
      }
    }
  }

  /** For any text, the diagnostics at its end are the counts of its events; finished if an event says so. */
  lemma WholeStream(text: string, parse: Parser)
    ensures var r := Frame(OnLines(Reader([], NOTHING), AllLines(text), parse), parse);
            var events := EventsOf(AllLines(text));
            && r.data == []
            && r.diag.events == |events|
            && (r.diag.finished <==> exists e :: e in events && Judge(e, parse).finishes)
            && r.diag.unreadable == Tally(events, e => Judge(e, parse).unreadable)
            && r.diag.unknown == Tally(events, e => Judge(e, parse).unknown)
  {
    EventsCounted(NOTHING, AllLines(text), parse);
    CountersMean(NOTHING, EventsOf(AllLines(text)), parse);
  }
}
