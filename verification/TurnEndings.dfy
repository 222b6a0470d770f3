/**
 How a request ends, exactly: which attempts are followed by a nudge, what kind of retry follows a failure, and which
 activity ends the request with what text, told from the attempts' ends, Flow's last words and the guard.
 */
module TurnEndings {
  import opened Basics
  import opened ToolCalls
  import opened TurnEngine
  import opened TurnRetries

  /** The guard cut the run's decision in one of the first n attempts. */
  ghost predicate CutIn(r: Request, n: nat) { exists m: nat :: m < n && RunsAt(r, m) && r.world(m).cut }

  /** The texts of the nudges among the re-entries. */
  function NudgesIn(agains: seq<Again>): seq<string> {
    if agains == [] then []
    else
      var last := agains[|agains| - 1];
      NudgesIn(agains[..|agains| - 1]) + (if last.branch.Nudged? && last.next.Prompt? then [last.next.text] else [])
  }

  /**
   Attempt n is answered by a nudge that is followed: it ended with a reply, the guard was on and had cut nothing, Flow
   had no error and no reply of its own, fewer than six nudges were followed before and, outside a loop run, not this.
   */
  ghost predicate NudgeFollows(r: Request, agains: seq<Again>, n: nat)
    requires n <= |agains|
  {
    var a := r.world(n);
    && RunsAt(r, n) && a.end.Replied? && a.guarded && !CutIn(r, n + 1)
    && a.word.Word? && a.word.error == "" && a.word.reply == "" && a.word.nudge != ""
    && |NudgesIn(agains[..n])| < 6
    && (r.setup.repeatNudges || a.word.nudge !in NudgesIn(agains[..n]))
  }

  /** What runs after attempt n, if anything: the nudge, or the same input again, without hosted search if refused. */
  ghost predicate AgainExact(r: Request, agains: seq<Again>, n: nat)
    requires n <= |agains|
  {
    && (n < |agains| && agains[n].branch.Nudged? <==> NudgeFollows(r, agains, n))
    && (n < |agains| ==>
         && agains[n].input == InputAt(agains, r.input, n)
         && match agains[n].branch {
              case Nudged => r.world(n).word.Word? && agains[n].next == Prompt(r.world(n).word.nudge)
              case SearchRefused => agains[n].next == agains[n].input && Refused(r, agains, n)
              case Retried => agains[n].next == agains[n].input && !Refused(r, agains, n)
            })
  }

  /** Attempt n failed because hosted search, still offered, was refused. */
  ghost predicate Refused(r: Request, agains: seq<Again>, n: nat)
    requires n <= |agains|
  {
    r.hosted && Never(agains, n, SearchRefused) && r.world(n).end.Failed? && r.world(n).end.failure.searchRefused
  }

  /** The activity that ends a request whose last attempt is n. */
  ghost predicate EndsWith(r: Request, n: nat, terminal: Terminal) {
    var a := r.world(n);
    match a.end
    case Aborted => terminal == Canceled
    case Failed(f) => FailsWith(a, f, terminal)
    case Interrupted => if RunsAt(r, n) then terminal == Elicitation else terminal.Error?
    case Replied(body) =>
      if RunsAt(r, n) then RepliesWith(a, if CutIn(r, n + 1) then "" else body, body, terminal) else terminal.Error?
  }

  /** At the turn limit Flow's error or else its reply, if the guard is on and Flow has one; else the failure's own. */
  predicate FailsWith(a: Attempt, f: Failure, terminal: Terminal) {
    if a.guarded && f.turnLimit && a.word.Word? && (a.word.error != "" || a.word.reply != "") then
      terminal == if a.word.error != "" then Error(a.word.error) else Response(a.word.reply)
    else terminal == Error(f.message)
  }

  /** Without the guard the model's text; else Flow's error, Flow's reply, or the text that was not cut. */
  predicate RepliesWith(a: Attempt, left: string, body: string, terminal: Terminal) {
    && (!a.guarded ==> terminal == Response(body))
    && (a.guarded && a.word.Unreachable? ==> terminal == Response(left))
    && (a.guarded && a.word.Word? ==>
         && (a.word.error != "" ==> terminal == Error(a.word.error))
         && (a.word.error == "" && a.word.reply != "" ==> terminal == Response(a.word.reply))
         && (a.word.error == "" && a.word.reply == "" ==> terminal == Response(left)))
  }

  // ----- what the state knows -----

  ghost predicate Knows(r: Request, s: Engine) {
    && |s.agains| == s.attempts
    && (r.setup.held == [] || s.heldDone == HeldBefore(r, s.attempts))
    && (s.decisionCut <==> CutIn(r, s.attempts))
    && s.nudges == NudgesIn(s.agains)
  }

  lemma CutMore(r: Request, n: nat)
    ensures CutIn(r, n + 1) <==> CutIn(r, n) || (RunsAt(r, n) && r.world(n).cut)
  {
  }

  lemma NudgesMore(agains: seq<Again>, again: Again)
    ensures NudgesIn(agains + [again]) ==
            NudgesIn(agains) + if again.branch.Nudged? && again.next.Prompt? then [again.next.text] else []
  {
    assert (agains + [again])[..|agains|] == agains;
  }

  /** One attempt. */
  lemma RanKnows(r: Request, s: Engine)
    requires Knows(r, s)
    ensures var a := r.world(s.attempts); var t := Ran(s, r.setup, a);
            && (Starts(s, r.setup, a) <==> RunsAt(r, s.attempts))
            && (t.decisionCut <==> CutIn(r, s.attempts + 1))
            && (r.setup.held == [] || t.heldDone)
  {
    CutMore(r, s.attempts);
  }

  lemma GoesOnKnows(r: Request, s: Engine, d: Decision, input: Input)
    requires Knows(r, s) && d.Go? && (d.branch.Nudged? ==> d.next.Prompt?)
    ensures Knows(r, GoesOn(Ran(s, r.setup, r.world(s.attempts)), d, input))
  {
    var t := Ran(s, r.setup, r.world(s.attempts));
    RanKnows(r, s);
    RanKeeps(s, r.setup, r.world(s.attempts));
    NudgesMore(s.agains, Again(d.branch, input, d.next, t.calls, t.made));
  }

  // ----- the decision after an attempt -----

  lemma ReplyEnds(t: Engine, setup: Setup, a: Attempt, body: string, input: Input, retries: nat)
    ensures var d := Decide(t, setup, a, Replied(body), input, retries);
            && (d.Stop? ==> RepliesWith(a, if t.decisionCut then "" else body, body, d.terminal))
            && (d.Go? <==> a.guarded && !t.decisionCut && a.word.Word? && a.word.error == "" && a.word.reply == ""
                           && a.word.nudge != "" && |t.nudges| < 6
                           && (setup.repeatNudges || a.word.nudge !in t.nudges))
            && (d.Go? ==> d.branch.Nudged? && d.next == Prompt(a.word.nudge))
  {
  }

  lemma FailureEnds(t: Engine, setup: Setup, a: Attempt, f: Failure, input: Input, retries: nat)
    ensures var d := Decide(t, setup, a, Failed(f), input, retries);
            && (d.Stop? ==> FailsWith(a, f, d.terminal))
            && (d.Go? ==> !d.branch.Nudged? && d.next == input
                          && (d.branch.SearchRefused? <==> t.hosted && f.searchRefused))
  {
  }

  /** The decision after attempt n, told from the attempts. */
  ghost predicate DecidesExactly(r: Request, agains: seq<Again>, n: nat, d: Decision, input: Input)
    requires n <= |agains|
  {
    && (d.Stop? ==> EndsWith(r, n, d.terminal))
    && (d.Go? && d.branch.Nudged? <==> NudgeFollows(r, agains, n))
    && (d.Go? && d.branch.Nudged? ==> r.world(n).word.Word? && d.next == Prompt(r.world(n).word.nudge))
    && (d.Go? && !d.branch.Nudged? ==> d.next == input && (d.branch.SearchRefused? <==> Refused(r, agains, n)))
  }

  /** One attempt: how it ends the request, or what runs after it. */
  lemma AttemptEnds(r: Request, s: Engine, input: Input, retries: nat)
    requires Knows(r, s) && Counts(r, s, input, retries)
    ensures var a := r.world(s.attempts);
            var d := Decide(Ran(s, r.setup, a), r.setup, a, EndOf(s, r.setup, a), input, retries);
            DecidesExactly(r, s.agains, s.attempts, d, input)
  {
    var a := r.world(s.attempts);
    var t, end := Ran(s, r.setup, a), EndOf(s, r.setup, a);
    RanKnows(r, s);
    RanKeeps(s, r.setup, a);
    assert s.agains[..s.attempts] == s.agains;
    match end
    case Replied(body) => ReplyEnds(t, r.setup, a, body, input, retries);
    case Failed(f) => FailureEnds(t, r.setup, a, f, input, retries);
    case _ =>
  }

  /** What comes after attempt n changes nothing about it. */
  lemma ExactStays(r: Request, agains: seq<Again>, more: seq<Again>, n: nat)
    requires n <= |agains| && agains <= more
    ensures NudgeFollows(r, agains, n) <==> NudgeFollows(r, more, n)
    ensures Refused(r, agains, n) <==> Refused(r, more, n)
    ensures InputAt(agains, r.input, n) == InputAt(more, r.input, n)
  {
    assert more[..n] == agains[..n];
    assert forall m :: 0 <= m < n ==> more[m] == agains[m];
    assert Never(more, n, SearchRefused) == Never(agains, n, SearchRefused);
  }

  // ----- over all re-entries -----

  /** The request ends with attempt |agains|, by the activity that attempt gives. */
  lemma {:induction false} EndsExactly(r: Request, s: Engine, input: Input, retries: nat)
    requires |s.nudges| <= MAX_NUDGES && Knows(r, s) && Counts(r, s, input, retries)
    ensures var t := Execute(s, r.setup, r.world, input, retries);
            |t.ended| == |s.ended| + 1 && EndsWith(r, |t.agains|, t.ended[|s.ended|])
    decreases Measure(s, retries)
  {
    var a := r.world(s.attempts);
    var t, end := Ran(s, r.setup, a), EndOf(s, r.setup, a);
    var d := Decide(t, r.setup, a, end, input, retries);
    RanKeeps(s, r.setup, a);
    EndedStays(s, r.setup, a, d, input);
    AttemptEnds(r, s, input, retries);
    if d.Go? {
      MeasureDrops(t, r.setup, a, end, input, retries);
      DecideCounts(t, r.setup, a, end, input, retries);
      AgainCounts(r, s, t, d, input, retries);
      GoesOnKnows(r, s, d, input);
      EndsExactly(r, GoesOn(t, d, input), d.next, d.retries);
    }
  }

  lemma EndedStays(s: Engine, setup: Setup, a: Attempt, d: Decision, input: Input)
    ensures Ran(s, setup, a).ended == s.ended
    ensures d.Go? ==> GoesOn(Ran(s, setup, a), d, input).ended == s.ended
  {
  }

  /** What the re-entries say of the attempt the decision is about. */
  lemma HereExact(r: Request, before: seq<Again>, agains: seq<Again>, d: Decision, input: Input)
    requires DecidesExactly(r, before, |before|, d, input) && before <= agains && (|before| < |agains| <==> d.Go?)
    requires input == InputAt(before, r.input, |before|)
    requires d.Go? ==> var again := agains[|before|];
                       again.branch == d.branch && again.next == d.next && again.input == input
    ensures AgainExact(r, agains, |before|)
  {
    ExactStays(r, before, agains, |before|);
  }

  /** The re-entries of a request from some point on: none, or one for this attempt and then the rest. */
  lemma AgainsFrom(s: Engine, setup: Setup, world: World, input: Input, retries: nat)
    requires |s.nudges| <= MAX_NUDGES
    ensures var a := world(s.attempts); var t := Ran(s, setup, a);
            var d := Decide(t, setup, a, EndOf(s, setup, a), input, retries);
            var agains := Execute(s, setup, world, input, retries).agains;
            if d.Stop? then agains == s.agains
            else s.agains + [Again(d.branch, input, d.next, t.calls, t.made)] <= agains
  {
    var a := world(s.attempts);
    var t := Ran(s, setup, a);
    var d := Decide(t, setup, a, EndOf(s, setup, a), input, retries);
    RanKeeps(s, setup, a);
    if d.Go? {
      MeasureDrops(t, setup, a, EndOf(s, setup, a), input, retries);
      AgainsGrow(GoesOn(t, d, input), setup, world, d.next, d.retries);
    }
  }

  lemma FirstExact(r: Request, s: Engine, input: Input, retries: nat)
    requires |s.nudges| <= MAX_NUDGES && Knows(r, s) && Counts(r, s, input, retries)
    ensures var agains := Execute(s, r.setup, r.world, input, retries).agains;
            |s.agains| <= |agains| && AgainExact(r, agains, |s.agains|)
  {
    var a, agains := r.world(s.attempts), Execute(s, r.setup, r.world, input, retries).agains;
    var d := Decide(Ran(s, r.setup, a), r.setup, a, EndOf(s, r.setup, a), input, retries);
    AttemptEnds(r, s, input, retries);
    AgainsFrom(s, r.setup, r.world, input, retries);
    HereExact(r, s.agains, agains, d, input);
  }

  lemma {:induction false} AgainsExactly(r: Request, s: Engine, input: Input, retries: nat, n: nat)
    requires |s.nudges| <= MAX_NUDGES && Knows(r, s) && Counts(r, s, input, retries)
    requires |s.agains| <= n <= |Execute(s, r.setup, r.world, input, retries).agains|
    ensures AgainExact(r, Execute(s, r.setup, r.world, input, retries).agains, n)
    decreases Measure(s, retries)
  {
    if n == |s.agains| {
      FirstExact(r, s, input, retries);
    } else {
      var a := r.world(s.attempts);
      var t, end := Ran(s, r.setup, a), EndOf(s, r.setup, a);
      var d := Decide(t, r.setup, a, end, input, retries);
      AgainsFrom(s, r.setup, r.world, input, retries);
      RanKeeps(s, r.setup, a);
      MeasureDrops(t, r.setup, a, end, input, retries);
      DecideCounts(t, r.setup, a, end, input, retries);
      AgainCounts(r, s, t, d, input, retries);
      AttemptEnds(r, s, input, retries);
      GoesOnKnows(r, s, d, input);
      AgainsExactly(r, GoesOn(t, d, input), d.next, d.retries, n);
    }
  }

  // ----- a whole request -----

  lemma FreshKnows(r: Request)
    ensures var s := Fresh(r.hosted, r.heldDone); Knows(r, s) && Counts(r, s, r.input, 1)
  {
  }

  /**
   Whatever the SDK, the tools and Flow do, a request ends with one activity, and it is the one its last attempt gives:
   a stop cancels, a call to confirm asks, a reply is said as the model wrote it or as Flow has it, a failure is told
   in its own words or, at the turn limit, in Flow's.
   */
  lemma RequestEnds(r: Request)
    ensures var t := Whole(r); |t.ended| == 1 && EndsWith(r, |t.agains|, t.ended[0])
  {
    FreshKnows(r);
    EndsExactly(r, Fresh(r.hosted, r.heldDone), r.input, 1);
  }

  /**
   Over all attempts of a request: a nudge follows exactly when it should, with Flow's text as the next prompt; a retry
   runs the same input, as one without hosted search exactly when that, still offered, was refused.
   */
  lemma NextIsExact(r: Request, n: nat)
    requires n <= |Whole(r).agains|
    ensures AgainExact(r, Whole(r).agains, n)
  {
    FreshKnows(r);
    AgainsExactly(r, Fresh(r.hosted, r.heldDone), r.input, 1, n);
  }

  // ----- what a request does -----

  /** How many of the first n attempts run the model. */
  function RunsIn(r: Request, n: nat): nat {
    if n == 0 then 0 else RunsIn(r, n - 1) + if RunsAt(r, n - 1) then 1 else 0
  }

  /** The held calls sent in the first n attempts: in the first of them, those approved among the ones it got to. */
  function SentIn(r: Request, n: nat): seq<string> {
    if r.heldDone || n == 0 then [] else ApprovedIds(r.setup.held, Min(r.world(0).replayed, |r.setup.held|))
  }

  ghost predicate Does(r: Request, s: Engine) {
    && (r.setup.held == [] || s.heldDone == HeldBefore(r, s.attempts))
    && s.runs == RunsIn(r, s.attempts)
    && s.sent == SentIn(r, s.attempts)
    && s.made == MadeBy(Heard(r, s.attempts))
  }

  lemma MadeByMore(a: seq<CallEvent>, b: seq<CallEvent>)
    ensures MadeBy(a + b) == MadeBy(a) + MadeBy(b)
  {
  }

  lemma {:induction false} HeldMade(held: seq<HeldCall>, fails: nat -> bool, n: nat)
    requires n <= |held|
    ensures MadeBy(HeldEvents(held, fails, n)) == Names(HeldCalls(held, fails, n))
  {
    if n > 0 {
      var call := held[n - 1];
      HeldMade(held, fails, n - 1);
      if call.approved {
        MadeByMore(HeldEvents(held, fails, n - 1), HeldCallEvents(call, fails(n - 1)));
        CallMade(call, fails(n - 1));
        NamesMore(HeldCalls(held, fails, n - 1), ToolCall(call.id, call.name, fails(n - 1)));
      } else {
        assert HeldEvents(held, fails, n) == HeldEvents(held, fails, n - 1);
        assert HeldCalls(held, fails, n) == HeldCalls(held, fails, n - 1);
      }
    }
  }

  lemma CallMade(call: HeldCall, fails: bool)
    ensures MadeBy(HeldCallEvents(call, fails)) == {(call.id, call.name)}
  {
    var events := HeldCallEvents(call, fails);
    assert events[0] in events && events[0].Called?;
  }

  lemma NamesMore(calls: seq<ToolCall>, call: ToolCall)
    ensures Names(calls + [call]) == Names(calls) + {(call.id, call.name)}
  {
  }

  lemma ReplayDoes(r: Request, s: Engine)
    requires Does(r, s)
    ensures var t := Replay(s, r.setup, r.world(s.attempts));
            t.sent == SentIn(r, s.attempts + 1) && t.made == s.made + MadeBy(HeldAt(r, s.attempts))
  {
    var a, held := r.world(s.attempts), r.setup.held;
    var n := Min(a.replayed, |held|);
    HeldMade(held, a.heldFails, n);
    SentAreApproved(held, a.heldFails, n);
    if !HeldBefore(r, s.attempts) {
      assert s.sent + ApprovedIds(held, n) == ApprovedIds(held, n);
    }
  }

  lemma RanDoes(r: Request, s: Engine)
    requires Does(r, s)
    ensures Does(r, Ran(s, r.setup, r.world(s.attempts)))
  {
    ReplayDoes(r, s);
    HeardMade(r, s.attempts);
  }

  lemma HeardMade(r: Request, n: nat)
    ensures MadeBy(Heard(r, n + 1)) ==
            MadeBy(Heard(r, n)) + MadeBy(HeldAt(r, n)) + if RunsAt(r, n) then MadeBy(r.world(n).events) else {}
  {
    MadeByMore(Heard(r, n), HeldAt(r, n) + StreamAt(r, n));
    MadeByMore(HeldAt(r, n), StreamAt(r, n));
    assert MadeBy([]) == {};
  }

  lemma {:induction false} ExecuteDoes(r: Request, s: Engine, input: Input, retries: nat)
    requires |s.nudges| <= MAX_NUDGES && Does(r, s) && |s.agains| == s.attempts
    ensures var t := Execute(s, r.setup, r.world, input, retries); Does(r, t) && t.attempts == |t.agains| + 1
    decreases Measure(s, retries)
  {
    var a := r.world(s.attempts);
    var t, end := Ran(s, r.setup, a), EndOf(s, r.setup, a);
    var d := Decide(t, r.setup, a, end, input, retries);
    RanKeeps(s, r.setup, a);
    RanDoes(r, s);
    if d.Go? {
      MeasureDrops(t, r.setup, a, end, input, retries);
      ExecuteDoes(r, GoesOn(t, d, input), d.next, d.retries);
    }
  }

  /**
   A request runs the model once for each attempt that starts, sends the approved ones among the held calls its first
   attempt got to, and makes exactly the calls heard of in its attempts.
   */
  lemma RequestDoes(r: Request)
    ensures var t := Whole(r); var n := |t.agains| + 1;
            t.runs == RunsIn(r, n) && t.sent == SentIn(r, n) && t.made == MadeBy(Heard(r, n))
  {
    assert MadeBy([]) == {};
    ExecuteDoes(r, Fresh(r.hosted, r.heldDone), r.input, 1);
  }
}
