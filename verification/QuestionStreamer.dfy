/**
 The streamer around the decoder: it keeps the arguments of every call seen in the model's raw events and answers,
 for the watched tool, with the question so far whenever it changed.
 */
module QuestionStreaming {
  import opened JsText
  import opened QuestionStream
  import opened Basics

  datatype Call = Call(callId: Text, name: Text, args: Text, last: Text)

  type Calls = map<Text, Call>

  datatype Shown = Shown(callId: Text, text: Text)

  /** One entry of a Chat Completions delta; `arguments` is empty when it brings none. */
  datatype ChatCall = ChatCall(index: nat, id: Option<Text>, name: Option<Text>, arguments: Text)

  /** The raw events the streamer looks at: a call starts, a call's arguments go on, or a chat delta. */
  datatype RawEvent =
    | Started(key: Text, callId: Text, name: Text)
    | Delta(key: Text, delta: Option<Text>)
    | ChatDelta(calls: seq<ChatCall>)
    | Other

  function Digits(n: nat): Text {
    if n < 10 then [0x30 + n] else Digits(n / 10) + [0x30 + n % 10]
  }

  /** chat:<index> */
  function ChatKey(index: nat): Text {
    [0x63, 0x68, 0x61, 0x74, 0x3a] + Digits(index)
  }

  /** The number decimal digits stand for. */
  function NumberOf(digits: Text): int {
    if digits == [] then 0 else 10 * NumberOf(digits[..|digits| - 1]) + digits[|digits| - 1] - 0x30
  }

  lemma {:induction false} DigitsOf(n: nat)
    ensures NumberOf(Digits(n)) == n && Digits(n) != []
  {
    if n >= 10 {
      DigitsOf(n / 10);
      assert Digits(n)[..|Digits(n)| - 1] == Digits(n / 10);
    } else {
      assert Digits(n)[..0] == [];
    }
  }

  /** Every index has its own key: "chat:" and the index in decimal digits. */
  lemma KeysDiffer(i: nat, j: nat)
    ensures [0x63, 0x68, 0x61, 0x74, 0x3a] <= ChatKey(i) && NumberOf(ChatKey(i)[5..]) == i
    ensures ChatKey(i) == ChatKey(j) <==> i == j
  {
    DigitsOf(i);
    DigitsOf(j);
    assert ChatKey(i)[5..] == Digits(i) && ChatKey(j)[5..] == Digits(j);
  }

  // ----- what one event does -----

  function Question(args: Text): Text { PartialField(args, QUESTION) }

  function Appended(calls: Calls, tool: Text, key: Text, delta: Text): Calls {
    if key !in calls then calls
    else
      var call := calls[key].(args := calls[key].args + delta);
      var text := Question(call.args);
      calls[key := if call.name == tool && text != [] then call.(last := text) else call]
  }

  function Answer(calls: Calls, tool: Text, key: Text, delta: Text): Option<Shown> {
    if key !in calls || calls[key].name != tool then None
    else
      var text := Question(calls[key].args + delta);
      if text == [] || text == calls[key].last then None else Some(Shown(calls[key].callId, text))
  }

  function Or<T>(o: Option<T>, d: T): T {
    if o.Some? then o.value else d
  }

  /** A chat entry with an id or a name opens its call, or renames it and keeps what it has. */
  function Opened(calls: Calls, c: ChatCall): Calls {
    var key := ChatKey(c.index);
    if Or(c.id, []) == [] && Or(c.name, []) == [] then calls
    else
      var existing := if key in calls then calls[key] else Call(key, [], [], []);
      calls[key := existing.(callId := Or(c.id, existing.callId), name := Or(c.name, existing.name))]
  }

  function FedCall(calls: Calls, tool: Text, c: ChatCall): Calls {
    var calls := Opened(calls, c);
    if c.arguments == [] then calls else Appended(calls, tool, ChatKey(c.index), c.arguments)
  }

  function CallAnswer(calls: Calls, tool: Text, c: ChatCall): Option<Shown> {
    if c.arguments == [] then None else Answer(Opened(calls, c), tool, ChatKey(c.index), c.arguments)
  }

  function FedCalls(calls: Calls, tool: Text, cs: seq<ChatCall>): Calls {
    if cs == [] then calls else FedCall(FedCalls(calls, tool, cs[..|cs| - 1]), tool, cs[|cs| - 1])
  }

  /** The answer of the last entry that has one. */
  function LastAnswer(calls: Calls, tool: Text, cs: seq<ChatCall>): Option<Shown> {
    if cs == [] then None
    else
      var init := cs[..|cs| - 1];
      var answer := CallAnswer(FedCalls(calls, tool, init), tool, cs[|cs| - 1]);
      if answer.Some? then answer else LastAnswer(calls, tool, init)
  }

  function Fed(calls: Calls, tool: Text, raw: RawEvent): Calls {
    match raw
    case Started(key, callId, name) => calls[key := Call(callId, name, [], [])]
    case Delta(key, delta) => if delta.Some? then Appended(calls, tool, key, delta.value) else calls
    case ChatDelta(cs) => FedCalls(calls, tool, cs)
    case Other => calls
  }

  function Feed(calls: Calls, tool: Text, raw: RawEvent): Option<Shown> {
    match raw
    case Delta(key, delta) => if delta.Some? then Answer(calls, tool, key, delta.value) else None
    case ChatDelta(cs) => LastAnswer(calls, tool, cs)
    case _ => None
  }

  class QuestionStreamer {
    const tool: Text
    var calls: Calls

    constructor (tool: Text)
      ensures this.tool == tool && calls == map[]
    {
      this.tool := tool;
      calls := map[];
    }

    /** Feeds one raw model event; answers with the question so far when it changed. */
    method FeedRaw(raw: RawEvent) returns (shown: Option<Shown>)
      modifies this
      ensures calls == Fed(old(calls), tool, raw) && shown == Feed(old(calls), tool, raw)
    {
      shown := None;
      match raw
      case Started(key, callId, name) =>
        calls := calls[key := Call(callId, name, [], [])];
      case Delta(key, delta) =>
        if delta.Some? {
          shown := Append(key, delta.value);
        }
      case ChatDelta(cs) =>
        for i := 0 to |cs|
          invariant calls == FedCalls(old(calls), tool, cs[..i])
          invariant shown == LastAnswer(old(calls), tool, cs[..i])
        {
          assert cs[..i + 1][..i] == cs[..i];
          var answer := FeedEntry(cs[i]);
          if answer.Some? {
            shown := answer;
          }
        }
        assert cs[..|cs|] == cs;
      case Other =>
    }

    /** One entry of a chat delta. */
    method FeedEntry(c: ChatCall) returns (shown: Option<Shown>)
      modifies this
      ensures calls == FedCall(old(calls), tool, c) && shown == CallAnswer(old(calls), tool, c)
    {
      shown := None;
      var key := ChatKey(c.index);
      if (c.id.Some? && c.id.value != []) || (c.name.Some? && c.name.value != []) {
        var existing := if key in calls then calls[key] else Call(key, [], [], []);
        var callId := if c.id.Some? then c.id.value else existing.callId;
        var name := if c.name.Some? then c.name.value else existing.name;
        calls := calls[key := Call(callId, name, existing.args, existing.last)];
      }
      if c.arguments != [] {
        shown := Append(key, c.arguments);
      }
    }

    method Append(key: Text, delta: Text) returns (shown: Option<Shown>)
      modifies this
      ensures calls == Appended(old(calls), tool, key, delta) && shown == Answer(old(calls), tool, key, delta)
    {
      shown := None;
      if key !in calls {
        return;
      }
      var call := calls[key];
      call := call.(args := call.args + delta);
      calls := calls[key := call];
      if call.name != tool {
        return;
      }
      var text := PartialJSONStringField(call.args, QUESTION);
      if text == [] || text == call.last {
        return;
      }
      calls := calls[key := call.(last := text)];
      shown := Some(Shown(call.callId, text));
    }
  }

  // ----- what arrives for one call -----

  /**
   What the events say about one call: nothing yet, or its call id, its tool, its arguments so far, and the question in
   them when arguments last came while it was of the watched tool.
   */
  datatype View = Unknown | Known(callId: Text, name: Text, args: Text, asked: Text)

  function ViewArguments(v: View, tool: Text, delta: Text): View {
    if v.Unknown? then v
    else
      var args := v.args + delta;
      Known(v.callId, v.name, args, if v.name == tool then Question(args) else v.asked)
  }

  function ViewEntry(v: View, tool: Text, c: ChatCall, key: Text): View {
    if ChatKey(c.index) != key then v
    else
      var named := if Or(c.id, []) == [] && Or(c.name, []) == [] then v
                   else if v.Unknown? then Known(Or(c.id, key), Or(c.name, []), [], [])
                   else v.(callId := Or(c.id, v.callId), name := Or(c.name, v.name));
      if c.arguments == [] then named else ViewArguments(named, tool, c.arguments)
  }

  function ViewEntries(v: View, tool: Text, cs: seq<ChatCall>, key: Text): View {
    if cs == [] then v else ViewEntry(ViewEntries(v, tool, cs[..|cs| - 1], key), tool, cs[|cs| - 1], key)
  }

  function ViewEvent(v: View, tool: Text, raw: RawEvent, key: Text): View {
    match raw
    case Started(k, callId, name) => if k == key then Known(callId, name, [], []) else v
    case Delta(k, delta) => if k == key && delta.Some? then ViewArguments(v, tool, delta.value) else v
    case ChatDelta(cs) => ViewEntries(v, tool, cs, key)
    case Other => v
  }

  function ViewOf(tool: Text, raws: seq<RawEvent>, key: Text): View {
    if raws == [] then Unknown else ViewEvent(ViewOf(tool, raws[..|raws| - 1], key), tool, raws[|raws| - 1], key)
  }

  /** The id a chat entry gives the call: that of an entry that opens or renames it. */
  function GivenBy(c: ChatCall, key: Text): seq<Text> {
    if ChatKey(c.index) == key && c.id.Some? && (c.id.value != [] || Or(c.name, []) != []) then [c.id.value] else []
  }

  function EntryIds(cs: seq<ChatCall>, key: Text): seq<Text> {
    if cs == [] then [] else EntryIds(cs[..|cs| - 1], key) + GivenBy(cs[|cs| - 1], key)
  }

  /** The ids the events give the call: at a start, and in chat entries. */
  function GivenIds(raws: seq<RawEvent>, key: Text): seq<Text> {
    if raws == [] then []
    else
      GivenIds(raws[..|raws| - 1], key)
      + match raws[|raws| - 1] {
          case Started(k, callId, _) => if k == key then [callId] else []
          case ChatDelta(cs) => EntryIds(cs, key)
          case _ => []
        }
  }

  /** The id the call has by the ids given: the last of them, or its key if there is none. */
  function LastGiven(ids: seq<Text>, key: Text): Text {
    if ids == [] then key else ids[|ids| - 1]
  }

  function Asked(v: View): Text { if v.Known? then v.asked else [] }

  /** The question in all the arguments that arrived. */
  function WholeQuestion(v: View): Text { if v.Known? then Question(v.args) else [] }

  // ----- any sequence of events -----

  function RunCalls(calls: Calls, tool: Text, raws: seq<RawEvent>): Calls {
    if raws == [] then calls else Fed(RunCalls(calls, tool, raws[..|raws| - 1]), tool, raws[|raws| - 1])
  }

  predicate AnswersAt(calls: Calls, tool: Text, cs: seq<ChatCall>, i: nat)
    requires i < |cs|
  {
    CallAnswer(FedCalls(calls, tool, cs[..i]), tool, cs[i]).Some?
  }

  /** The call whose entry's answer is the delta's. */
  function LastKey(calls: Calls, tool: Text, cs: seq<ChatCall>): Option<Text> {
    if cs == [] then None
    else if AnswersAt(calls, tool, cs, |cs| - 1) then Some(ChatKey(cs[|cs| - 1].index))
    else LastKey(calls, tool, cs[..|cs| - 1])
  }

  /** The entries of the delta up to the last one that answers. */
  function ToAnswer(calls: Calls, tool: Text, cs: seq<ChatCall>): seq<ChatCall> {
    if cs == [] || AnswersAt(calls, tool, cs, |cs| - 1) then cs else ToAnswer(calls, tool, cs[..|cs| - 1])
  }

  /** The event as far as it had been read when it was answered. */
  function ReadSoFar(calls: Calls, tool: Text, raw: RawEvent): RawEvent {
    if raw.ChatDelta? then ChatDelta(ToAnswer(calls, tool, raw.calls)) else raw
  }

  /** The answer to an event, if it is this call's. */
  function AnswerFor(calls: Calls, tool: Text, raw: RawEvent, key: Text): Option<Shown> {
    match raw
    case Delta(k, _) => if k == key then Feed(calls, tool, raw) else None
    case ChatDelta(cs) => if LastKey(calls, tool, cs) == Some(key) then Feed(calls, tool, raw) else None
    case _ => None
  }

  /** The questions answered for the call since it last started, in order. */
  function ShownFor(calls: Calls, tool: Text, raws: seq<RawEvent>, key: Text): seq<Text> {
    if raws == [] then []
    else
      var before, raw := raws[..|raws| - 1], raws[|raws| - 1];
      var answer := AnswerFor(RunCalls(calls, tool, before), tool, raw, key);
      if raw.Started? && raw.key == key then []
      else ShownFor(calls, tool, before, key) + (if answer.Some? then [answer.value.text] else [])
  }

  /** In the delta an entry of another call answers, and no entry of this call answers after it. */
  predicate OvertakenIn(calls: Calls, tool: Text, cs: seq<ChatCall>, key: Text) {
    exists i :: 0 <= i < |cs| && AnswersAt(calls, tool, cs, i) && ChatKey(cs[i].index) != key
                && forall j :: i < j < |cs| && ChatKey(cs[j].index) == key ==> !AnswersAt(calls, tool, cs, j)
  }

  /** In the last event that changed the question asked, another call's entry answered after this call's. */
  predicate Overtaken(calls: Calls, tool: Text, raws: seq<RawEvent>, key: Text) {
    if raws == [] then false
    else
      var before, raw := raws[..|raws| - 1], raws[|raws| - 1];
      var v := ViewOf(tool, before, key);
      if raw.Started? && raw.key == key then false
      else if Asked(ViewEvent(v, tool, raw, key)) != Asked(v) then
        raw.ChatDelta? && OvertakenIn(RunCalls(calls, tool, before), tool, raw.calls, key)
      else Overtaken(calls, tool, before, key)
  }

  /** Non-empty, each text a proper beginning of the next. */
  ghost predicate StrictlyGrowing(texts: seq<Text>) {
    && (forall i :: 0 <= i < |texts| ==> texts[i] != [])
    && forall i, j :: 0 <= i < j < |texts| ==> texts[i] < texts[j]
  }

  /** The last of the texts, or empty. */
  function LastOf(texts: seq<Text>): Text {
    if texts == [] then [] else texts[|texts| - 1]
  }

  // ----- the tracked call is what arrived -----

  ghost predicate Sound(v: View) { v.Known? ==> v.asked <= Question(v.args) }

  /** The streamer knows of the call what arrived for it, and counts as shown what was asked. */
  ghost predicate Agrees(calls: Calls, key: Text, v: View) {
    && Sound(v)
    && (key in calls <==> v.Known?)
    && (v.Known? ==> calls[key] == Call(v.callId, v.name, v.args, v.asked))
  }

  /** There is an answer exactly when the question asked changed: the new question, which grew, under the call's id. */
  ghost predicate Answers(v: View, v': View, answer: Option<Shown>) {
    && Asked(v) <= Asked(v')
    && (answer.Some? <==> Asked(v') != Asked(v))
    && (answer.Some? ==> v'.Known? && answer.value == Shown(v'.callId, Asked(v')))
  }

  lemma QuestionGrows(args: Text, delta: Text)
    ensures Question(args) <= Question(args + delta)
  {
    PrefixMonotone(args, args + delta, QUESTION);
  }

  lemma NoQuestionYet()
    ensures Question([]) == []
  {
  }

  lemma AppendAgrees(calls: Calls, tool: Text, key: Text, delta: Text, v: View)
    requires Agrees(calls, key, v)
    ensures Agrees(Appended(calls, tool, key, delta), key, ViewArguments(v, tool, delta))
    ensures Answers(v, ViewArguments(v, tool, delta), Answer(calls, tool, key, delta))
  {
    if v.Known? {
      QuestionGrows(v.args, delta);
    }
  }

  lemma EntryAgrees(calls: Calls, tool: Text, c: ChatCall, key: Text, v: View)
    requires Agrees(calls, key, v)
    ensures Agrees(FedCall(calls, tool, c), key, ViewEntry(v, tool, c, key))
    ensures ChatKey(c.index) == key ==> Answers(v, ViewEntry(v, tool, c, key), CallAnswer(calls, tool, c))
    ensures ChatKey(c.index) != key ==> ViewEntry(v, tool, c, key) == v
  {
    NoQuestionYet();
    var named := ViewEntry(v, tool, c.(arguments := []), key);
    if ChatKey(c.index) == key {
      assert Agrees(Opened(calls, c), key, named) && Asked(named) == Asked(v);
      if c.arguments != [] {
        AppendAgrees(Opened(calls, c), tool, key, c.arguments, named);
      }
    }
  }

  /** A delta's entries: the call's question grows through them, and the last answer is its own unless overtaken. */
  lemma {:induction false} EntriesAgree(calls: Calls, tool: Text, cs: seq<ChatCall>, key: Text, v: View)
    requires Agrees(calls, key, v)
    ensures var v' := ViewEntries(v, tool, cs, key);
            && Agrees(FedCalls(calls, tool, cs), key, v')
            && Asked(v) <= Asked(v')
            && (LastKey(calls, tool, cs).Some? <==> LastAnswer(calls, tool, cs).Some?)
            && (LastKey(calls, tool, cs) == Some(key) ==>
                 && Asked(v') != Asked(v)
                 && var read := ViewEntries(v, tool, ToAnswer(calls, tool, cs), key);
                    read.Known? && LastAnswer(calls, tool, cs).value == Shown(read.callId, Asked(v')))
            && (Asked(v') != Asked(v) ==> LastKey(calls, tool, cs).Some?)
  {
    if cs != [] {
      var init, c := cs[..|cs| - 1], cs[|cs| - 1];
      EntriesAgree(calls, tool, init, key, v);
      EntryAgrees(FedCalls(calls, tool, init), tool, c, key, ViewEntries(v, tool, init, key));
    }
  }

  lemma AnswersInFront(calls: Calls, tool: Text, cs: seq<ChatCall>, i: nat)
    requires i < |cs| - 1
    ensures AnswersAt(calls, tool, cs[..|cs| - 1], i) == AnswersAt(calls, tool, cs, i)
  {
    assert cs[..|cs| - 1][..i] == cs[..i];
  }

  /** The entry at i answers and none after it does. */
  ghost predicate LastToAnswer(calls: Calls, tool: Text, cs: seq<ChatCall>, i: nat) {
    i < |cs| && AnswersAt(calls, tool, cs, i) && forall j :: i < j < |cs| ==> !AnswersAt(calls, tool, cs, j)
  }

  lemma {:induction false} LastKeyIs(calls: Calls, tool: Text, cs: seq<ChatCall>) returns (i: nat)
    requires LastKey(calls, tool, cs).Some?
    ensures LastToAnswer(calls, tool, cs, i) && LastKey(calls, tool, cs) == Some(ChatKey(cs[i].index))
  {
    if AnswersAt(calls, tool, cs, |cs| - 1) {
      i := |cs| - 1;
    } else {
      var init := cs[..|cs| - 1];
      i := LastKeyIs(calls, tool, init);
      LastStays(calls, tool, cs, i);
    }
  }

  lemma LastStays(calls: Calls, tool: Text, cs: seq<ChatCall>, i: nat)
    requires cs != [] && LastToAnswer(calls, tool, cs[..|cs| - 1], i) && !AnswersAt(calls, tool, cs, |cs| - 1)
    ensures LastToAnswer(calls, tool, cs, i)
  {
    AnswersInFront(calls, tool, cs, i);
    forall j | i < j < |cs| ensures !AnswersAt(calls, tool, cs, j) {
      if j < |cs| - 1 {
        AnswersInFront(calls, tool, cs, j);
      }
    }
  }

  /** Some entry answers: the delta's answer is another call's exactly when this call is overtaken. */
  lemma OvertakenIsOther(calls: Calls, tool: Text, cs: seq<ChatCall>, key: Text)
    requires LastKey(calls, tool, cs).Some?
    ensures OvertakenIn(calls, tool, cs, key) <==> LastKey(calls, tool, cs) != Some(key)
  {
    var i := LastKeyIs(calls, tool, cs);
  }

  /**
   One event: the call agrees again, and its answer is there exactly when its question changed and is not overtaken. The
   answer is the question under the id the call had when the event was answered.
   */
  lemma EventAgrees(calls: Calls, tool: Text, raw: RawEvent, key: Text, v: View)
    requires Agrees(calls, key, v) && !(raw.Started? && raw.key == key)
    ensures var v' := ViewEvent(v, tool, raw, key); var answer := AnswerFor(calls, tool, raw, key);
            && Agrees(Fed(calls, tool, raw), key, v')
            && Asked(v) <= Asked(v')
            && (answer.Some? <==>
                  Asked(v') != Asked(v) && !(raw.ChatDelta? && OvertakenIn(calls, tool, raw.calls, key)))
            && (answer.Some? ==>
                 var read := ViewEvent(v, tool, ReadSoFar(calls, tool, raw), key);
                 read.Known? && answer.value == Shown(read.callId, Asked(v')))
  {
    match raw
    case Delta(k, delta) =>
      if k == key && delta.Some? {
        AppendAgrees(calls, tool, key, delta.value, v);
      }
    case ChatDelta(cs) =>
      EntriesAgree(calls, tool, cs, key, v);
      if LastKey(calls, tool, cs).Some? {
        OvertakenIsOther(calls, tool, cs, key);
      }
    case _ =>
  }

  lemma GrowOne(texts: seq<Text>, text: Text)
    requires StrictlyGrowing(texts) && LastOf(texts) < text
    ensures StrictlyGrowing(texts + [text]) && LastOf(texts + [text]) == text
  {
    forall i | 0 <= i < |texts| ensures texts[i] < text {
      if i < |texts| - 1 { assert texts[i] < texts[|texts| - 1]; }
    }
  }

  /** What an event adds to the texts shown, in terms of the question asked before and after it. */
  lemma ShownGrows(shown: seq<Text>, asked: Text, asked': Text, behind: bool, answer: Option<Shown>)
    requires StrictlyGrowing(shown) && asked <= asked' && (answer.Some? ==> answer.value.text == asked' != asked)
    requires if behind then LastOf(shown) < asked else LastOf(shown) == asked
    ensures var now := shown + (if answer.Some? then [answer.value.text] else []);
            && StrictlyGrowing(now)
            && (if answer.None? && (behind || asked' != asked) then LastOf(now) < asked' else LastOf(now) == asked')
  {
    if answer.Some? {
      GrowOne(shown, asked');
    } else {
      assert shown + [] == shown;
    }
  }

  ghost predicate Streams(calls: Calls, tool: Text, raws: seq<RawEvent>, key: Text) {
    var v, shown := ViewOf(tool, raws, key), ShownFor(calls, tool, raws, key);
    && Agrees(RunCalls(calls, tool, raws), key, v)
    && StrictlyGrowing(shown)
    && (if Overtaken(calls, tool, raws, key) then LastOf(shown) < Asked(v) else LastOf(shown) == Asked(v))
  }

  lemma {:induction false} AllStream(calls: Calls, tool: Text, raws: seq<RawEvent>, key: Text)
    requires key !in calls
    ensures Streams(calls, tool, raws, key)
  {
    NoQuestionYet();
    if raws != [] {
      var before, raw := raws[..|raws| - 1], raws[|raws| - 1];
      AllStream(calls, tool, before, key);
      if !(raw.Started? && raw.key == key) {
        var mid, v := RunCalls(calls, tool, before), ViewOf(tool, before, key);
        var shown := ShownFor(calls, tool, before, key);
        EventAgrees(mid, tool, raw, key, v);
        ShownGrows(shown, Asked(v), Asked(ViewEvent(v, tool, raw, key)), Overtaken(calls, tool, before, key),
                   AnswerFor(mid, tool, raw, key));
      }
    }
  }

  // ----- the id of a call -----

  ghost predicate HasId(v: View, ids: seq<Text>, key: Text) {
    if v.Unknown? then ids == [] else v.callId == LastGiven(ids, key)
  }

  lemma {:induction false} EntriesGiveId(v: View, tool: Text, cs: seq<ChatCall>, key: Text, ids: seq<Text>)
    requires HasId(v, ids, key)
    ensures HasId(ViewEntries(v, tool, cs, key), ids + EntryIds(cs, key), key)
  {
    if cs == [] {
      assert ids + [] == ids;
    } else {
      var init := cs[..|cs| - 1];
      EntriesGiveId(v, tool, init, key, ids);
      EntryGivesId(ViewEntries(v, tool, init, key), tool, cs[|cs| - 1], key, ids + EntryIds(init, key));
      assert ids + EntryIds(cs, key) == ids + EntryIds(init, key) + GivenBy(cs[|cs| - 1], key);
    }
  }

  lemma EntryGivesId(v: View, tool: Text, c: ChatCall, key: Text, ids: seq<Text>)
    requires HasId(v, ids, key)
    ensures HasId(ViewEntry(v, tool, c, key), ids + GivenBy(c, key), key)
  {
    assert ids + [] == ids;
  }

  lemma {:induction false} EventsGiveId(tool: Text, raws: seq<RawEvent>, key: Text)
    ensures HasId(ViewOf(tool, raws, key), GivenIds(raws, key), key)
  {
    if raws != [] {
      var before, raw := raws[..|raws| - 1], raws[|raws| - 1];
      EventsGiveId(tool, before, key);
      if raw.ChatDelta? {
        EntriesGiveId(ViewOf(tool, before, key), tool, raw.calls, key, GivenIds(before, key));
      }
    }
  }

  /** The answer to event n, if it is the call's, carries the id the events last gave the call by then. */
  ghost predicate UnderItsId(calls: Calls, tool: Text, raws: seq<RawEvent>, n: nat, key: Text)
    requires n < |raws|
  {
    var mid := RunCalls(calls, tool, raws[..n]);
    var answer := AnswerFor(mid, tool, raws[n], key);
    answer.Some? ==>
      answer.value.callId == LastGiven(GivenIds(raws[..n] + [ReadSoFar(mid, tool, raws[n])], key), key)
  }

  lemma AnsweredUnderId(calls: Calls, tool: Text, raws: seq<RawEvent>, n: nat, key: Text)
    requires key !in calls && n < |raws|
    ensures UnderItsId(calls, tool, raws, n, key)
  {
    var before, raw := raws[..n], raws[n];
    var mid, v := RunCalls(calls, tool, before), ViewOf(tool, before, key);
    var read := ReadSoFar(mid, tool, raw);
    AllStream(calls, tool, before, key);
    if !(raw.Started? && raw.key == key) {
      EventAgrees(mid, tool, raw, key, v);
      EventsGiveId(tool, before + [read], key);
      assert (before + [read])[..n] == before;
      assert ViewOf(tool, before + [read], key) == ViewEvent(v, tool, read, key);
    }
  }

  /**
   For any events at all, seen from a call from before it is first heard of: the texts answered for it since it last
   started strictly grow and are beginnings of the question in the whole arguments. The last one is that question if
   and only if the arguments that brought it came while the call was of the watched tool, and in the event that last
   changed what was asked no entry of another call answered after this call's. Every answer carries the call id that the
   events last gave the call: at its start, in a chat entry, or else its key.
   */
  lemma ChunkIndependence(calls: Calls, tool: Text, raws: seq<RawEvent>, key: Text)
    requires key !in calls
    ensures var v, shown := ViewOf(tool, raws, key), ShownFor(calls, tool, raws, key);
            && StrictlyGrowing(shown)
            && LastOf(shown) <= WholeQuestion(v)
            && (LastOf(shown) == WholeQuestion(v) <==>
                 Asked(v) == WholeQuestion(v) && !Overtaken(calls, tool, raws, key))
            && forall n :: 0 <= n < |raws| ==> UnderItsId(calls, tool, raws, n, key)
  {
    AllStream(calls, tool, raws, key);
    forall n | 0 <= n < |raws| ensures UnderItsId(calls, tool, raws, n, key) {
      AnsweredUnderId(calls, tool, raws, n, key);
    }
  }

  // ----- calls that are of the watched tool all along -----

  /** The event names the call's tool, if at all, as the watched one; an entry that opens the call names it. */
  predicate NamesIt(v: View, raw: RawEvent, tool: Text, key: Text) {
    match raw
    case Started(k, _, name) => k == key ==> name == tool
    case ChatDelta(cs) =>
      forall i :: 0 <= i < |cs| && ChatKey(cs[i].index) == key ==>
        (cs[i].name.Some? ==> cs[i].name.value == tool) && (v.Unknown? && Or(cs[i].id, []) != [] ==> cs[i].name.Some?)
    case _ => true
  }

  ghost predicate Watched(v: View, tool: Text) {
    v.Known? ==> v.name == tool && v.asked == Question(v.args)
  }

  lemma EntryWatched(v: View, now: View, tool: Text, cs: seq<ChatCall>, i: nat, key: Text)
    requires i < |cs| && NamesIt(v, ChatDelta(cs), tool, key) && Watched(now, tool) && (v.Known? ==> now.Known?)
    ensures Watched(ViewEntry(now, tool, cs[i], key), tool)
    ensures v.Known? ==> ViewEntry(now, tool, cs[i], key).Known?
  {
    NoQuestionYet();
    assert ChatKey(cs[i].index) == key ==> (cs[i].name.Some? ==> cs[i].name.value == tool);
  }

  lemma {:induction false} EntriesWatched(v: View, tool: Text, cs: seq<ChatCall>, key: Text)
    requires Watched(v, tool) && NamesIt(v, ChatDelta(cs), tool, key)
    ensures Watched(ViewEntries(v, tool, cs, key), tool)
    ensures v.Known? ==> ViewEntries(v, tool, cs, key).Known?
  {
    if cs != [] {
      var init := cs[..|cs| - 1];
      assert forall i :: 0 <= i < |init| ==> init[i] == cs[i];
      EntriesWatched(v, tool, init, key);
      EntryWatched(v, ViewEntries(v, tool, init, key), tool, cs, |cs| - 1, key);
    }
  }

  lemma EventWatched(v: View, tool: Text, raw: RawEvent, key: Text)
    requires Watched(v, tool) && NamesIt(v, raw, tool, key)
    ensures Watched(ViewEvent(v, tool, raw, key), tool)
  {
    NoQuestionYet();
    if raw.ChatDelta? {
      EntriesWatched(v, tool, raw.calls, key);
    }
  }

  /** Every event names the call's tool, if at all, as the watched one. */
  ghost predicate AllNameIt(tool: Text, raws: seq<RawEvent>, key: Text) {
    raws == [] || (
      var before := raws[..|raws| - 1];
      AllNameIt(tool, before, key) && NamesIt(ViewOf(tool, before, key), raws[|raws| - 1], tool, key))
  }

  /** A call that is never named otherwise than as the watched tool: what was asked is the question in all arguments. */
  lemma {:induction false} WatchedAllAlong(tool: Text, raws: seq<RawEvent>, key: Text)
    requires AllNameIt(tool, raws, key)
    ensures var v := ViewOf(tool, raws, key); Watched(v, tool) && Asked(v) == WholeQuestion(v)
  {
    if raws != [] {
      var before := raws[..|raws| - 1];
      WatchedAllAlong(tool, before, key);
      EventWatched(ViewOf(tool, before, key), tool, raws[|raws| - 1], key);
    }
  }

  /** Every chat delta that brings the call something brings nothing for other calls. */
  predicate OwnDeltas(raws: seq<RawEvent>, key: Text) {
    forall i, j :: 0 <= i < |raws| && raws[i].ChatDelta? && 0 <= j < |raws[i].calls| ==>
      ChatKey(raws[i].calls[j].index) == key || Absent(raws[i].calls, key)
  }

  predicate Absent(cs: seq<ChatCall>, key: Text) {
    forall i :: 0 <= i < |cs| ==> ChatKey(cs[i].index) != key
  }

  lemma {:induction false} AbsentChangesNothing(v: View, tool: Text, cs: seq<ChatCall>, key: Text)
    requires Absent(cs, key)
    ensures ViewEntries(v, tool, cs, key) == v
  {
    if cs != [] {
      AbsentChangesNothing(v, tool, cs[..|cs| - 1], key);
    }
  }

  /** Without entries of other calls beside its own, a call is never overtaken: its last answer is what was asked. */
  lemma {:induction false} OwnNotOvertaken(calls: Calls, tool: Text, raws: seq<RawEvent>, key: Text)
    requires OwnDeltas(raws, key)
    ensures !Overtaken(calls, tool, raws, key)
  {
    if raws != [] {
      var before, raw := raws[..|raws| - 1], raws[|raws| - 1];
      assert forall i :: 0 <= i < |before| ==> before[i] == raws[i];
      OwnNotOvertaken(calls, tool, before, key);
      if raw.ChatDelta? && Absent(raw.calls, key) {
        AbsentChangesNothing(ViewOf(tool, before, key), tool, raw.calls, key);
      }
    }
  }

  // ----- a call that is overtaken -----

  function TwoCalls(tool: Text, args: Text): seq<ChatCall> {
    [ChatCall(0, None, Some(tool), args), ChatCall(1, None, Some(tool), args)]
  }

  /**
   One chat delta opens two calls of the watched tool, each with a question: only the second is answered, and nothing
   was ever shown for the first although its question counts as asked.
   */
  lemma TwoQuestions(tool: Text, args: Text)
    requires tool != [] && args != [] && Question(args) != []
    ensures var raw, key := ChatDelta(TwoCalls(tool, args)), ChatKey(0);
            && AnswerFor(map[], tool, raw, ChatKey(1)).Some?
            && Overtaken(map[], tool, [raw], key)
            && Asked(ViewOf(tool, [raw], key)) == WholeQuestion(ViewOf(tool, [raw], key)) == Question(args)
            && ShownFor(map[], tool, [raw], key) == []
  {
    var cs := TwoCalls(tool, args);
    assert ChatKey(0)[5] == 0x30 && ChatKey(1)[5] == 0x31;
    OpenedView(tool, cs[0]);
    OpenedView(tool, cs[1]);
    SecondAnswers(tool, cs[0], cs[1]);
    OneEvent(map[], tool, ChatDelta(cs), ChatKey(0));
  }

  lemma OneEvent(calls: Calls, tool: Text, raw: RawEvent, key: Text)
    requires !raw.Started?
    ensures ViewOf(tool, [raw], key) == ViewEvent(Unknown, tool, raw, key)
    ensures ShownFor(calls, tool, [raw], key) ==
            var answer := AnswerFor(calls, tool, raw, key); if answer.Some? then [answer.value.text] else []
    ensures raw.ChatDelta? && Asked(ViewEvent(Unknown, tool, raw, key)) != [] ==>
              Overtaken(calls, tool, [raw], key) == OvertakenIn(calls, tool, raw.calls, key)
  {
    assert [raw][..0] == [];
    assert ViewOf(tool, [], key) == Unknown && RunCalls(calls, tool, []) == calls;
  }

  const LETTER: Text := [0x61]

  /** Arguments with a question: {"question":"a" */
  lemma LetterAsked()
    ensures var args := OneField(QUESTION, LETTER, []); args != [] && Question(args) == LETTER
  {
    RoundTrip(QUESTION, LETTER, []);
    assert RoundTrips(LETTER) by { assert !High(LETTER[0]) && LETTER[1..] == []; }
  }

  /** Two calls opened by one delta with the arguments {"question":"a": the first question is never shown. */
  lemma HiddenQuestion(tool: Text)
    requires tool != []
    ensures var raws, key := [ChatDelta(TwoCalls(tool, OneField(QUESTION, LETTER, [])))], ChatKey(0);
            LastOf(ShownFor(map[], tool, raws, key)) == [] && WholeQuestion(ViewOf(tool, raws, key)) == LETTER
  {
    LetterAsked();
    TwoQuestions(tool, OneField(QUESTION, LETTER, []));
  }

  /** An entry that opens a call of the watched tool, with arguments. */
  lemma OpenedView(tool: Text, c: ChatCall)
    requires c.name == Some(tool) && tool != [] && c.arguments != []
    ensures var key := ChatKey(c.index);
            ViewEntry(Unknown, tool, c, key) == Known(Or(c.id, key), tool, c.arguments, Question(c.arguments))
  {
    assert [] + c.arguments == c.arguments;
  }

  /** Of two entries of different calls that both ask something, the second is answered. */
  lemma SecondAnswers(tool: Text, c: ChatCall, d: ChatCall)
    requires ChatKey(c.index) != ChatKey(d.index) && Asked(ViewEntry(Unknown, tool, d, ChatKey(d.index))) != []
    ensures var cs := [c, d];
            && LastKey(map[], tool, cs) == Some(ChatKey(d.index)) && LastAnswer(map[], tool, cs).Some?
            && OvertakenIn(map[], tool, cs, ChatKey(c.index))
            && ViewEntries(Unknown, tool, cs, ChatKey(c.index)) == ViewEntry(Unknown, tool, c, ChatKey(c.index))
  {
    var cs, key := [c, d], ChatKey(d.index);
    assert cs[..1] == [c] && [c][..0] == [];
    var calls := FedCall(map[], tool, c);
    assert FedCalls(map[], tool, cs[..1]) == calls by { assert FedCalls(map[], tool, []) == map[]; }
    EntryAgrees(map[], tool, c, key, Unknown);
    EntryAgrees(calls, tool, d, key, Unknown);
    assert AnswersAt(map[], tool, cs, 1);
    assert ViewEntries(Unknown, tool, [c], ChatKey(c.index)) == ViewEntry(Unknown, tool, c, ChatKey(c.index)) by {
      assert ViewEntries(Unknown, tool, [], ChatKey(c.index)) == Unknown;
    }
  }
}
