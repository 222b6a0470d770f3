/**
 What the readers of lines and of event streams make of a text, told from what was written: lines come back whichever
 way they end, the events of a stream are the data of its blocks, and a frame counts as its fields say.
 */
module StreamTexts {
  import opened Basics
  import opened TextLines
  import opened StreamReaders

  // ----- lines -----

  /** A line, and whether it ends with a carriage return before its newline. */
  datatype Line = Line(text: string, cr: bool)

  /** A text of one line: no newline in it, and no carriage return at its end. */
  predicate OneLine(text: string) { LF !in text && (text == "" || text[|text| - 1] != CR) }

  function Raw(line: Line): string { if line.cr then line.text + [CR] else line.text }

  function Written(lines: seq<Line>, rest: string): string {
    if lines == [] then rest else Raw(lines[0]) + [LF] + Written(lines[1..], rest)
  }

  function Raws(lines: seq<Line>): (r: seq<string>)
    ensures |r| == |lines| && forall i :: 0 <= i < |r| ==> r[i] == Raw(lines[i])
  {
    seq(|lines|, i requires 0 <= i < |lines| => Raw(lines[i]))
  }

  function Texts(lines: seq<Line>): (r: seq<string>)
    ensures |r| == |lines| && forall i :: 0 <= i < |r| ==> r[i] == lines[i].text
  {
    seq(|lines|, i requires 0 <= i < |lines| => lines[i].text)
  }

  lemma {:induction false} WrittenIsJoined(lines: seq<Line>, rest: string)
    ensures Written(lines, rest) == Joined(Raws(lines), rest)
  {
    if lines != [] {
      WrittenIsJoined(lines[1..], rest);
      assert Raws(lines)[1..] == Raws(lines[1..]);
    }
  }

  lemma RawIsOneLine(line: Line)
    requires OneLine(line.text)
    ensures LF !in Raw(line) && Chomp(Raw(line)) == line.text
  {
    if line.cr {
      assert Raw(line)[..|Raw(line)| - 1] == line.text;
    }
  }

  /** Lines come back as they were written, each ended by a newline or a carriage return and a newline. */
  lemma LinesComeBack(lines: seq<Line>, rest: string)
    requires OneLine(rest) && forall i :: 0 <= i < |lines| ==> OneLine(lines[i].text)
    ensures AllLines(Written(lines, rest)) == Texts(lines) + if rest == "" then [] else [rest]
  {
    var raws := Raws(lines);
    forall i | 0 <= i < |lines| ensures LF !in raws[i] && Chomp(raws[i]) == lines[i].text {
      RawIsOneLine(lines[i]);
    }
    WrittenIsJoined(lines, rest);
    ReadJoined(Cut([], ""), raws, rest);
    assert [] + raws == raws;
    RawIsOneLine(Line(rest, false));
    var all := raws + if rest != "" then [rest] else [];
    assert ChompAll(all) == Texts(lines) + if rest == "" then [] else [rest];
  }

  // ----- events -----

  /** A line of a block: data, with or without a space after the colon, or something else. */
  datatype Field = Data(value: string, spaced: bool) | Note(text: string)

  predicate GoodField(f: Field) {
    match f
    case Data(value, spaced) => spaced || !(" " <= value)
    case Note(text) => text != "" && !("data:" <= text)
  }

  function FieldText(f: Field): string {
    match f
    case Data(value, spaced) => if spaced then "data: " + value else "data:" + value
    case Note(text) => text
  }

  function BlockLines(block: seq<Field>): (r: seq<string>)
    ensures |r| == |block| && forall i :: 0 <= i < |r| ==> r[i] == FieldText(block[i])
  {
    seq(|block|, i requires 0 <= i < |block| => FieldText(block[i]))
  }

  /** The lines of a stream: each block's, then an empty one. */
  function StreamLines(blocks: seq<seq<Field>>): seq<string> {
    if blocks == [] then [] else BlockLines(blocks[0]) + [""] + StreamLines(blocks[1..])
  }

  /** The data of a block, in order. */
  function DataIn(block: seq<Field>): seq<string> {
    if block == [] then [] else (if block[0].Data? then [block[0].value] else []) + DataIn(block[1..])
  }

  /** The events of the blocks: the data of each block that has some, joined by newlines. */
  function EventsIn(blocks: seq<seq<Field>>): seq<string> {
    if blocks == [] then []
    else (if DataIn(blocks[0]) == [] then [] else [Join(DataIn(blocks[0]), LF)]) + EventsIn(blocks[1..])
  }

  ghost predicate GoodBlock(block: seq<Field>) { forall i :: 0 <= i < |block| ==> GoodField(block[i]) }

  lemma FieldRead(f: Field)
    requires GoodField(f)
    ensures FieldText(f) != "" && (IsData(FieldText(f)) <==> f.Data?)
    ensures f.Data? ==> Value(FieldText(f)) == f.value
  {
    if f.Data? {
      var t := FieldText(f);
      if f.spaced {
        assert t[..5] == "data:" && t[5] == ' ' && t[6..] == f.value;
      } else {
        assert t[..5] == "data:" && t[5..] == f.value;
      }
    }
  }

  lemma {:induction false} BlockRead(block: seq<Field>)
    requires GoodBlock(block)
    ensures DataOf(BlockLines(block)) == DataIn(block) && "" !in BlockLines(block)
  {
    if block != [] {
      var lines := BlockLines(block);
      FieldRead(block[0]);
      BlockRead(block[1..]);
      assert lines[1..] == BlockLines(block[1..]);
      assert lines == [lines[0]] + lines[1..];
    }
  }

  lemma BlankAfter(block: seq<string>, rest: seq<string>)
    requires "" !in block
    ensures Blank(block + [""] + rest) == |block|
  {
    var lines := block + [""] + rest;
    var i := Blank(lines);
    assert lines[|block|] == "";
    assert forall k :: 0 <= k < |block| ==> lines[k] == block[k];
    assert forall k :: 0 <= k < i ==> lines[..i][k] == lines[k];
  }

  /** The events of a stream are those of its blocks. */
  lemma {:induction false} EventsComeBack(blocks: seq<seq<Field>>)
    requires forall i :: 0 <= i < |blocks| ==> GoodBlock(blocks[i])
    ensures EventsOf(StreamLines(blocks)) == EventsIn(blocks)
  {
    if blocks == [] {
      assert Blank([]) == 0;
    } else {
      var block, rest := BlockLines(blocks[0]), StreamLines(blocks[1..]);
      var lines := StreamLines(blocks);
      BlockRead(blocks[0]);
      BlankAfter(block, rest);
      EventsComeBack(blocks[1..]);
      assert lines[..|block|] == block && lines[|block| + 1..] == rest;
    }
  }

  // ----- frames -----

  /** A choice with a finish reason comes before any null. */
  ghost predicate SaysFinished(choices: Choices) {
    && choices.List?
    && exists i :: 0 <= i < |choices.choices| && choices.choices[i] == Choice(true)
                   && forall j :: 0 <= j < i ==> !choices.choices[j].Null?
  }

  /** There are no choices, or none of them is null or has a finish reason. */
  ghost predicate SaysNothing(choices: Choices) {
    || choices.Missing?
    || (choices.List? && forall i :: 0 <= i < |choices.choices| ==> choices.choices[i] == Choice(false))
  }

  lemma {:induction false} LookFinds(choices: seq<Choice>)
    ensures Look(choices) == Found <==> SaysFinished(List(choices))
    ensures Look(choices) == NotFound <==> SaysNothing(List(choices))
  {
    if choices != [] {
      var rest := choices[1..];
      LookFinds(rest);
      assert forall i :: 0 < i < |choices| ==> choices[i] == rest[i - 1];
      if SaysFinished(List(rest)) && !choices[0].Null? {
        var i :| 0 <= i < |rest| && rest[i] == Choice(true) && forall j :: 0 <= j < i ==> !rest[j].Null?;
        assert choices[i + 1] == Choice(true);
      }
      if SaysFinished(List(choices)) && choices[0] != Choice(true) {
        var i :| 0 <= i < |choices| && choices[i] == Choice(true) && forall j :: 0 <= j < i ==> !choices[j].Null?;
        assert rest[i - 1] == Choice(true);
      }
    }
  }

  /**
   What a frame counts as. It ends the stream if it is [DONE], has a finish reason before any null choice, or is of a
   final type and its choices say nothing. It is unreadable if it is no JSON, or its choices are no list or have a null
   before any finish reason; unknown if it has neither a type nor a list of choices.
   */
  lemma FrameMeans(frame: string, parse: Parser)
    ensures var v, done := Judge(frame, parse), frame == "[DONE]";
            match parse(frame)
            case None => v == Verdict(false, !done, done)
            case Some(f) =>
              var final :=
                f.kind == "response.completed" || f.kind == "response.incomplete" || f.kind == "message_stop";
              && (v.finishes <==> done || SaysFinished(f.choices) || (final && SaysNothing(f.choices)))
              && (v.unreadable <==> !done && !SaysFinished(f.choices) && !SaysNothing(f.choices))
              && (v.unknown <==> !done && f.kind == "" && !f.choices.List?)
  {
    if parse(frame).Some? && parse(frame).value.choices.List? {
      LookFinds(parse(frame).value.choices.choices);
    }
  }
}
