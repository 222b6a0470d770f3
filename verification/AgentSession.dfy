/**
 The session object: `execute` and the methods it uses, updating the session's fields in place. Each is proved to do
 what TurnEngine says of it, so what holds there of every request holds of the object.
 */
module AgentSession {
  import opened Basics
  import Spec = TurnEngine
  import opened ToolCalls
  import opened TurnEngine

  /** The state after a decision: the re-entry is noted, or the terminal activity emitted. */
  ghost predicate Concluded(s: Engine, t: Engine, d: Decision, input: Input) {
    t == if d.Go? then GoesOn(s, d, input) else s.(ended := s.ended + [d.terminal])
  }

  class FlowAgentSession {
    const setup: Setup
    var hostedSearch: bool
    var heldCallsDone: bool
    var nudges: seq<string>
    var decisionCut: bool
    var toolCalls: seq<ToolCall>
    var attempts: nat
    var runs: nat
    var sent: seq<string>
    var made: set<(string, string)>
    var agains: seq<Again>
    var ended: seq<Terminal>

    ghost function State(): Engine
      reads this
    {
      Engine(hostedSearch, heldCallsDone, nudges, decisionCut, toolCalls, attempts, runs, sent, made, agains, ended)
    }

    constructor (setup: Setup, hosted: bool)
      ensures this.setup == setup && State() == Fresh(hosted, false)
    {
      this.setup := setup;
      hostedSearch, heldCallsDone, nudges, decisionCut, toolCalls := hosted, false, [], false, [];
      attempts, runs, sent, made, agains, ended := 0, 0, [], {}, [], [];
    }

    /** Sends the held calls the person approved, once per session. */
    method ReplayHeldCalls(a: Attempt)
      modifies this`heldCallsDone, this`toolCalls, this`sent, this`made
      ensures State() == Replay(old(State()), setup, a)
    {
      if heldCallsDone || setup.held == [] {
        return;
      }
      heldCallsDone := true;
      SendHeldCalls(a.heldFails, Min(a.replayed, |setup.held|));
    }

    method SendHeldCalls(fails: nat -> bool, count: nat)
      requires count <= |setup.held|
      modifies this`toolCalls, this`sent, this`made
      ensures var added := HeldCalls(setup.held, fails, count);
              toolCalls == old(toolCalls) + added && sent == old(sent) + Ids(added) && made == old(made) + Names(added)
    {
      for i := 0 to count
        invariant toolCalls == old(toolCalls) + HeldCalls(setup.held, fails, i)
        invariant sent == old(sent) + Ids(HeldCalls(setup.held, fails, i))
        invariant made == old(made) + Names(HeldCalls(setup.held, fails, i))
      {
        var call := setup.held[i];
        OneMore(HeldCalls(setup.held, fails, i), ToolCall(call.id, call.name, fails(i)));
        if call.approved {
          sent := sent + [call.id];
          made := made + {(call.id, call.name)};
          // Recorded before it is sent, settled when its result is in.
          var at := |toolCalls|;
          toolCalls := toolCalls + [ToolCall(call.id, call.name, false)];
          toolCalls := toolCalls[at := toolCalls[at].(isError := fails(i))];
        }
      }
    }

    static lemma OneMore(calls: seq<ToolCall>, call: ToolCall)
      ensures Names(calls + [call]) == Names(calls) + {(call.id, call.name)}
      ensures Ids(calls + [call]) == Ids(calls) + [call.id]
      ensures calls + [] == calls
    {
    }

    /** Follows the run's stream. */
    method Stream(events: seq<CallEvent>)
      modifies this`toolCalls, this`made
      ensures toolCalls == RecordedAll(old(toolCalls), events) && made == old(made) + MadeBy(events)
    {
      assert MadeBy([]) == {};
      for i := 0 to |events|
        invariant toolCalls == RecordedAll(old(toolCalls), events[..i])
        invariant made == old(made) + MadeBy(events[..i])
      {
        var event := events[i];
        assert events[..i + 1] == events[..i] + [event];
        assert MadeBy(events[..i + 1]) == MadeBy(events[..i])
          + (if event.Called? then {(event.id, event.name)} else {});
        match event
        case Called(id, name) =>
          toolCalls := toolCalls + [ToolCall(id, name, false)];
          made := made + {(id, name)};
        case Returned(id, name, isError) =>
          var call := LastCall(toolCalls, id);
          if call >= 0 {
            toolCalls := toolCalls[call := toolCalls[call].(isError := isError)];
          } else {
            toolCalls := toolCalls + [ToolCall(id, name, isError)];
          }
      }
      assert events[..|events|] == events;
    }

    /** The run's last word through the guard; a nudge that is followed is remembered. */
    method FinishRun(a: Attempt, body: string) returns (last: LastWord)
      modifies this`nudges
      ensures last == Finish(old(State()), setup, a, body)
      ensures nudges == if last.Nudge? then old(nudges) + [last.text] else old(nudges)
    {
      if !a.guarded {
        return Say(body);
      }
      var text := if decisionCut then "" else body;
      if a.word.Unreachable? {
        return Say(text);
      }
      if a.word.error != "" {
        return Fail(a.word.error);
      }
      if !decisionCut && a.word.nudge != "" && a.word.reply == "" && |nudges| < MAX_NUDGES
         && (setup.repeatNudges || a.word.nudge !in nudges) {
        nudges := nudges + [a.word.nudge];
        return Nudge(a.word.nudge);
      }
      return Say(if a.word.reply != "" then a.word.reply else text);
    }

    /** One attempt up to its end. */
    method Attempted(a: Attempt) returns (end: End)
      modifies this
      ensures State() == Ran(old(State()), setup, a) && end == EndOf(old(State()), setup, a)
    {
      var starts := a.starts && (heldCallsDone || a.replayed >= |setup.held|);
      ReplayHeldCalls(a);
      attempts := attempts + 1;
      if starts {
        runs := runs + 1;
        Stream(a.events);
        decisionCut := decisionCut || a.cut;
      }
      end := if starts || a.end.Aborted? || a.end.Failed? then a.end
        else Failed(Failure("not started", false, false, false));
    }

    method Emit(terminal: Terminal)
      modifies this`ended
      ensures ended == old(ended) + [terminal]
    {
      ended := ended + [terminal];
    }

    /** Notes that the request runs again, and with what. */
    method RunAgain(branch: Branch, input: Input, next: Input)
      modifies this`agains
      ensures agains == old(agains) + [Again(branch, input, next, toolCalls, made)]
    {
      agains := agains + [Again(branch, input, next, toolCalls, made)];
    }

    /** After a reply: Flow's last word is emitted, or sends the model back. */
    method ConcludeReply(a: Attempt, body: string, input: Input, retries: nat) returns (d: Decision)
      modifies this`nudges, this`agains, this`ended
      ensures d == Decide(old(State()), setup, a, Replied(body), input, retries)
      ensures Concluded(old(State()), State(), d, input)
    {
      var last := FinishRun(a, body);
      match last {
        case Nudge(text) =>
          RunAgain(Nudged, input, Prompt(text));
          d := Go(Nudged, Prompt(text), retries);
        case Fail(error) =>
          Emit(Error(error));
          d := Stop(Error(error));
        case Say(reply) =>
          Emit(Response(reply));
          d := Stop(Response(reply));
      }
    }

    /**
     After a failure: hosted search is given up, the request retried, or the end reported, Flow's at the turn limit.
     */
    method ConcludeFailure(a: Attempt, f: Failure, input: Input, retries: nat) returns (d: Decision)
      modifies this`hostedSearch, this`agains, this`ended
      ensures d == Decide(old(State()), setup, a, Failed(f), input, retries)
      ensures Concluded(old(State()), State(), d, input)
    {
      var wrote := Wrote(toolCalls);
      if hostedSearch && !wrote && !input.Resumed? && f.searchRefused {
        hostedSearch := false;
        RunAgain(SearchRefused, input, input);
        return Go(SearchRefused, input, retries);
      }
      if !input.Resumed? && retries > 0 && f.transient && !wrote {
        RunAgain(Retried, input, input);
        return Go(Retried, input, retries - 1);
      }
      if a.guarded && f.turnLimit && a.word.Word? {
        if a.word.error != "" {
          Emit(Error(a.word.error));
          return Stop(Error(a.word.error));
        }
        if a.word.reply != "" {
          Emit(Response(a.word.reply));
          return Stop(Response(a.word.reply));
        }
      }
      Emit(Error(f.message));
      return Stop(Error(f.message));
    }

    /** What follows an attempt: one terminal activity is emitted, or the request runs again. */
    method Conclude(a: Attempt, end: End, input: Input, retries: nat) returns (d: Decision)
      modifies this`nudges, this`hostedSearch, this`agains, this`ended
      ensures d == Decide(old(State()), setup, a, end, input, retries)
      ensures Concluded(old(State()), State(), d, input)
    {
      match end {
        case Aborted =>
          Emit(Canceled);
          d := Stop(Canceled);
        case Interrupted =>
          Emit(Elicitation);
          d := Stop(Elicitation);
        case Replied(body) =>
          d := ConcludeReply(a, body, input, retries);
        case Failed(f) =>
          d := ConcludeFailure(a, f, input, retries);
      }
    }

    /**
     Runs a request, itself again included; terminates because every re-entry uses up a nudge, the search or a retry.
     */
    method Execute(world: World, input: Input, retries: nat)
      requires |nudges| <= MAX_NUDGES
      modifies this
      ensures State() == Spec.Execute(old(State()), setup, world, input, retries)
      decreases Measure(State(), retries)
    {
      var a := world(attempts);
      var end := Attempted(a);
      ghost var t := State();
      var d := Conclude(a, end, input, retries);
      if d.Go? {
        MeasureDrops(t, setup, a, end, input, retries);
        Execute(world, d.next, d.retries);
      }
    }
  }
}
