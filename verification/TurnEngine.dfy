/**
 One request of an agent session: `execute`, which runs the model and runs itself again when Flow sends the reply back
 (a nudge), when the provider refuses hosted search, and once when the stream broke before anything was written.

 The SDK's run, the tools and Flow's answers are an adversary: a function from the attempt's number to what happened in
 it. History and suspended-run storage are taken not to fail.
 */
module TurnEngine {
  import opened Basics
  import opened ToolCalls

  const MAX_NUDGES := 6

  datatype HeldCall = HeldCall(id: string, name: string, approved: bool)

  datatype Failure = Failure(message: string, transient: bool, searchRefused: bool, turnLimit: bool)

  /** How an attempt ends: stopped, failed, waiting for the person, or with a reply. */
  datatype End = Aborted | Failed(failure: Failure) | Interrupted | Replied(body: string)

  /** Flow's answer to the run's last word; empty strings are absent fields. */
  datatype Word = Unreachable | Word(error: string, nudge: string, reply: string)

  /**
   One attempt: how many held calls get replayed and which of them fail, whether the run starts at all, the calls it
   makes and how it ends, whether the guard is on then and cut the run's decision, and Flow's last word.
   */
  datatype Attempt = Attempt(replayed: nat, heldFails: nat -> bool, starts: bool, events: seq<CallEvent>, end: End,
                             guarded: bool, cut: bool, word: Word)

  type World = nat -> Attempt

  datatype Input = Prompt(text: string) | Resumed

  /** The activities that end a turn. */
  datatype Terminal = Elicitation | Response(body: string) | Canceled | Error(body: string)

  datatype Branch = Nudged | SearchRefused | Retried

  /** A re-entry: why, the input that ran, the input that runs next, the calls recorded and those made by then. */
  datatype Again = Again(branch: Branch, input: Input, next: Input, calls: seq<ToolCall>, made: set<(string, string)>)

  /**
   The session and the request so far: is hosted search offered, are the held calls replayed, the nudges followed, the
   guard's decision cut; the calls recorded, and what happened: model runs, held calls sent, calls made, re-entries,
   terminal activities.
   */
  datatype Engine = Engine(hosted: bool, heldDone: bool, nudges: seq<string>, decisionCut: bool, calls: seq<ToolCall>,
                           attempts: nat, runs: nat, sent: seq<string>, made: set<(string, string)>,
                           agains: seq<Again>, ended: seq<Terminal>)

  datatype Setup = Setup(held: seq<HeldCall>, repeatNudges: bool)

  // ----- one attempt -----

  function MadeBy(events: seq<CallEvent>): set<(string, string)> {
    set e | e in events && e.Called? :: (e.id, e.name)
  }

  /** The recorded calls of the first n held calls: only approved ones are sent. */
  function HeldCalls(held: seq<HeldCall>, fails: nat -> bool, n: nat): seq<ToolCall>
    requires n <= |held|
  {
    if n == 0 then []
    else
      HeldCalls(held, fails, n - 1)
      + (if held[n - 1].approved then [ToolCall(held[n - 1].id, held[n - 1].name, fails(n - 1))] else [])
  }

  function Ids(calls: seq<ToolCall>): seq<string> {
    seq(|calls|, i requires 0 <= i < |calls| => calls[i].id)
  }

  function Names(calls: seq<ToolCall>): set<(string, string)> {
    set c | c in calls :: (c.id, c.name)
  }

  /** The held calls are replayed in the first attempt that gets there, and never again. */
  function Replay(s: Engine, setup: Setup, a: Attempt): Engine {
    if s.heldDone || setup.held == [] then s
    else
      var added := HeldCalls(setup.held, a.heldFails, Min(a.replayed, |setup.held|));
      s.(heldDone := true, calls := s.calls + added, sent := s.sent + Ids(added), made := s.made + Names(added))
  }

  /** The run starts unless connecting or replaying failed or was stopped. */
  predicate Starts(s: Engine, setup: Setup, a: Attempt) {
    a.starts && (s.heldDone || a.replayed >= |setup.held|)
  }

  function Ran(s: Engine, setup: Setup, a: Attempt): Engine {
    var t := Replay(s, setup, a).(attempts := s.attempts + 1);
    if !Starts(s, setup, a) then t
    else t.(runs := t.runs + 1, calls := RecordedAll(t.calls, a.events), made := t.made + MadeBy(a.events),
            decisionCut := t.decisionCut || a.cut)
  }

  /** An attempt that never ran the model can only be stopped or fail. */
  function EndOf(s: Engine, setup: Setup, a: Attempt): End {
    if Starts(s, setup, a) || a.end.Aborted? || a.end.Failed? then a.end
    else Failed(Failure("not started", false, false, false))
  }

  // ----- Flow's last word -----

  datatype LastWord = Nudge(text: string) | Fail(error: string) | Say(reply: string)

  predicate Follows(s: Engine, setup: Setup, word: Word) {
    && word.Word? && word.nudge != "" && word.reply == ""
    && |s.nudges| < MAX_NUDGES && (setup.repeatNudges || word.nudge !in s.nudges)
  }

  /** RunGuard.finish for a reply (or the forced decision). */
  function Finish(s: Engine, setup: Setup, a: Attempt, body: string): LastWord {
    var text := if s.decisionCut then "" else body;
    if !a.guarded then Say(body)
    else if a.word.Unreachable? then Say(text)
    else if a.word.error != "" then Fail(a.word.error)
    else if !s.decisionCut && Follows(s, setup, a.word) then Nudge(a.word.nudge)
    else Say(if a.word.reply != "" then a.word.reply else text)
  }

  /** The end at the turn limit: Flow's reply or error if it has one, else the failure itself. */
  function TurnLimit(a: Attempt, f: Failure): Terminal {
    if !a.guarded || !f.turnLimit || a.word.Unreachable? then Error(f.message)
    else if a.word.error != "" then Error(a.word.error)
    else if a.word.reply != "" then Response(a.word.reply)
    else Error(f.message)
  }

  // ----- execute -----

  datatype Decision = Stop(terminal: Terminal) | Go(branch: Branch, next: Input, retries: nat)

  function Decide(s: Engine, setup: Setup, a: Attempt, end: End, input: Input, retries: nat): Decision {
    match end
    case Aborted => Stop(Canceled)
    case Interrupted => Stop(Elicitation)
    case Replied(body) => (
      match Finish(s, setup, a, body)
      case Nudge(text) => Go(Nudged, Prompt(text), retries)
      case Fail(error) => Stop(Error(error))
      case Say(reply) => Stop(Response(reply))
    )
    case Failed(f) =>
      if s.hosted && !Wrote(s.calls) && !input.Resumed? && f.searchRefused then Go(SearchRefused, input, retries)
      else if !input.Resumed? && retries > 0 && f.transient && !Wrote(s.calls) then Go(Retried, input, retries - 1)
      else Stop(TurnLimit(a, f))
  }

  /** The state a re-entry starts from. */
  function GoesOn(s: Engine, d: Decision, input: Input): Engine
    requires d.Go?
  {
    s.(nudges := if d.branch.Nudged? && d.next.Prompt? then s.nudges + [d.next.text] else s.nudges,
       hosted := s.hosted && !d.branch.SearchRefused?,
       agains := s.agains + [Again(d.branch, input, d.next, s.calls, s.made)])
  }

  /** Nudges that may still be followed, plus hosted search that may still be refused, plus retries left. */
  function Measure(s: Engine, retries: nat): int {
    MAX_NUDGES - |s.nudges| + (if s.hosted then 1 else 0) + retries
  }

  lemma MeasureDrops(s: Engine, setup: Setup, a: Attempt, end: End, input: Input, retries: nat)
    requires |s.nudges| <= MAX_NUDGES && Decide(s, setup, a, end, input, retries).Go?
    ensures var d := Decide(s, setup, a, end, input, retries);
            |GoesOn(s, d, input).nudges| <= MAX_NUDGES
              && Measure(GoesOn(s, d, input), d.retries) == Measure(s, retries) - 1
  {
  }

  function Execute(s: Engine, setup: Setup, world: World, input: Input, retries: nat): Engine
    requires |s.nudges| <= MAX_NUDGES
    decreases Measure(s, retries)
  {
    var a := world(s.attempts);
    var t := Ran(s, setup, a);
    var d := Decide(t, setup, a, EndOf(s, setup, a), input, retries);
    if d.Stop? then t.(ended := t.ended + [d.terminal])
    else
      MeasureDrops(t, setup, a, EndOf(s, setup, a), input, retries);
      Execute(GoesOn(t, d, input), setup, world, d.next, d.retries)
  }

  // ----- termination and the last word -----

  /** A request makes at most one model run more than its measure: nine for a new request. */
  lemma {:induction false} RunsBounded(s: Engine, setup: Setup, world: World, input: Input, retries: nat)
    requires |s.nudges| <= MAX_NUDGES
    ensures var t := Execute(s, setup, world, input, retries);
            && t.runs <= s.runs + Measure(s, retries) + 1
            && |t.nudges| <= MAX_NUDGES
            && |t.agains| - |s.agains| <= Measure(s, retries)
    decreases Measure(s, retries)
  {
    var a := world(s.attempts);
    var t := Ran(s, setup, a);
    var d := Decide(t, setup, a, EndOf(s, setup, a), input, retries);
    if d.Go? {
      MeasureDrops(t, setup, a, EndOf(s, setup, a), input, retries);
      RunsBounded(GoesOn(t, d, input), setup, world, d.next, d.retries);
    }
  }

  /** Exactly one terminal activity is emitted, by the attempt that does not run again. */
  lemma {:induction false} OneTerminal(s: Engine, setup: Setup, world: World, input: Input, retries: nat)
    requires |s.nudges| <= MAX_NUDGES
    ensures var t := Execute(s, setup, world, input, retries);
            |t.ended| == |s.ended| + 1 && t.ended[..|s.ended|] == s.ended
    decreases Measure(s, retries)
  {
    var a := world(s.attempts);
    var t := Ran(s, setup, a);
    var d := Decide(t, setup, a, EndOf(s, setup, a), input, retries);
    if d.Go? {
      MeasureDrops(t, setup, a, EndOf(s, setup, a), input, retries);
      OneTerminal(GoesOn(t, d, input), setup, world, d.next, d.retries);
    }
  }

  ghost predicate NoRepeats(nudges: seq<string>) {
    forall i, j :: 0 <= i < j < |nudges| ==> nudges[i] != nudges[j]
  }

  /** Outside a loop run each nudge is followed once. */
  lemma {:induction false} NudgesOnce(s: Engine, setup: Setup, world: World, input: Input, retries: nat)
    requires |s.nudges| <= MAX_NUDGES && !setup.repeatNudges && NoRepeats(s.nudges)
    ensures NoRepeats(Execute(s, setup, world, input, retries).nudges)
    decreases Measure(s, retries)
  {
    var a := world(s.attempts);
    var t := Ran(s, setup, a);
    var d := Decide(t, setup, a, EndOf(s, setup, a), input, retries);
    if d.Go? {
      MeasureDrops(t, setup, a, EndOf(s, setup, a), input, retries);
      NudgesOnce(GoesOn(t, d, input), setup, world, d.next, d.retries);
    }
  }

  // ----- held calls -----

  /** The ids of the approved ones among the first n held calls. */
  function ApprovedIds(held: seq<HeldCall>, n: nat): seq<string>
    requires n <= |held|
  {
    if n == 0 then [] else ApprovedIds(held, n - 1) + (if held[n - 1].approved then [held[n - 1].id] else [])
  }

  lemma {:induction false} SentAreApproved(held: seq<HeldCall>, fails: nat -> bool, n: nat)
    requires n <= |held|
    ensures Ids(HeldCalls(held, fails, n)) == ApprovedIds(held, n) && ApprovedIds(held, n) <= ApprovedIds(held, |held|)
    decreases n
  {
    ApprovedGrow(held, n);
    if n > 0 {
      SentAreApproved(held, fails, n - 1);
    }
  }

  lemma {:induction false} ApprovedGrow(held: seq<HeldCall>, n: nat)
    requires n <= |held|
    ensures ApprovedIds(held, n) <= ApprovedIds(held, |held|)
    decreases |held| - n
  {
    if n < |held| {
      ApprovedGrow(held, n + 1);
    }
  }

  /**
   Over all attempts of a request the held calls sent are the first of the approved ones, in order, each once; a
   rejected call is never sent, and once the replay happened nothing is sent again.
   */
  lemma {:induction false} HeldSentOnce(s: Engine, setup: Setup, world: World, input: Input, retries: nat)
    requires |s.nudges| <= MAX_NUDGES && (!s.heldDone ==> s.sent == [])
    ensures var t := Execute(s, setup, world, input, retries);
            if s.heldDone then t.sent == s.sent else t.sent <= ApprovedIds(setup.held, |setup.held|)
    decreases Measure(s, retries)
  {
    var a := world(s.attempts);
    var t := Ran(s, setup, a);
    if !s.heldDone && setup.held != [] {
      SentAreApproved(setup.held, a.heldFails, Min(a.replayed, |setup.held|));
    }
    var d := Decide(t, setup, a, EndOf(s, setup, a), input, retries);
    if d.Go? {
      MeasureDrops(t, setup, a, EndOf(s, setup, a), input, retries);
      HeldSentOnce(GoesOn(t, d, input), setup, world, d.next, d.retries);
    }
  }

  // ----- retries and writes -----

  /** Every call made is recorded. */
  ghost predicate AllRecorded(s: Engine) { s.made <= Names(s.calls) }

  /**
   A retry runs the same prompt again, with every call made so far recorded and no write among them that succeeded.
   */
  ghost predicate SafeAgain(again: Again) {
    && again.made <= Names(again.calls)
    && (!again.branch.Nudged? ==> again.input == again.next && again.input.Prompt? && !Wrote(again.calls))
  }

  lemma RecordedKeeps(calls: seq<ToolCall>, event: CallEvent)
    ensures Names(calls) <= Names(Recorded(calls, event))
    ensures event.Called? ==> (event.id, event.name) in Names(Recorded(calls, event))
  {
    var r := Recorded(calls, event);
    forall p | p in Names(calls) ensures p in Names(r) {
      var c :| c in calls && (c.id, c.name) == p;
      var i :| 0 <= i < |calls| && calls[i] == c;
      assert r[i].id == c.id && r[i].name == c.name && r[i] in r;
    }
    if event.Called? {
      assert r[|calls|] in r;
    }
  }

  lemma {:induction false} RecordedAllKeeps(calls: seq<ToolCall>, events: seq<CallEvent>)
    ensures Names(calls) + MadeBy(events) <= Names(RecordedAll(calls, events))
  {
    if events != [] {
      var init, last := events[..|events| - 1], events[|events| - 1];
      RecordedAllKeeps(calls, init);
      RecordedKeeps(RecordedAll(calls, init), last);
      forall p | p in MadeBy(events) ensures p in Names(RecordedAll(calls, events)) {
        var e :| e in events && e.Called? && (e.id, e.name) == p;
        assert e in init || e == last;
      }
    }
  }

  lemma RanRecords(s: Engine, setup: Setup, a: Attempt)
    requires AllRecorded(s)
    ensures AllRecorded(Ran(s, setup, a))
  {
    var r := Replay(s, setup, a);
    assert AllRecorded(r) by {
      if !s.heldDone && setup.held != [] {
        var added := HeldCalls(setup.held, a.heldFails, Min(a.replayed, |setup.held|));
        assert Names(s.calls + added) == Names(s.calls) + Names(added);
      }
    }
    RecordedAllKeeps(r.calls, a.events);
  }

  /** Every retry runs the same prompt again with all calls made so far recorded, none of them a write without error. */
  lemma {:induction false} RetriesWriteNothing(s: Engine, setup: Setup, world: World, input: Input, retries: nat)
    requires |s.nudges| <= MAX_NUDGES && AllRecorded(s) && forall i :: 0 <= i < |s.agains| ==> SafeAgain(s.agains[i])
    ensures var t := Execute(s, setup, world, input, retries);
            AllRecorded(t) && forall i :: 0 <= i < |t.agains| ==> SafeAgain(t.agains[i])
    decreases Measure(s, retries)
  {
    var a := world(s.attempts);
    var t := Ran(s, setup, a);
    RanRecords(s, setup, a);
    var d := Decide(t, setup, a, EndOf(s, setup, a), input, retries);
    if d.Go? {
      MeasureDrops(t, setup, a, EndOf(s, setup, a), input, retries);
      RetriesWriteNothing(GoesOn(t, d, input), setup, world, d.next, d.retries);
    }
  }

  // ----- a whole request -----

  /** A new request of a session: one retry, no nudges, nothing recorded. */
  function Fresh(hosted: bool, heldDone: bool): Engine {
    Engine(hosted, heldDone, [], false, [], 0, 0, [], {}, [], [])
  }
}
