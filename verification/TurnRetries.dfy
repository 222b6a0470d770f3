/**
 When an attempt of a request is retried, exactly: told from what the attempts' streams and the replayed held calls said
 about tool calls, over all re-entries of a request.
 */
module TurnRetries {
  import opened Basics
  import opened ToolCalls
  import opened TurnEngine

  /** A request and everything that will happen to it. */
  datatype Request = Request(setup: Setup, world: World, input: Input, hosted: bool, heldDone: bool)

  // ----- what the record hears -----

  /** What the record hears of the first n held calls: each approved one is made and gives its output. */
  function HeldEvents(held: seq<HeldCall>, fails: nat -> bool, n: nat): seq<CallEvent>
    requires n <= |held|
  {
    if n == 0 then []
    else
      HeldEvents(held, fails, n - 1)
      + (if held[n - 1].approved then HeldCallEvents(held[n - 1], fails(n - 1)) else [])
  }

  function HeldCallEvents(call: HeldCall, fails: bool): seq<CallEvent> {
    [Called(call.id, call.name), Returned(call.id, call.name, fails)]
  }

  /** The held calls were replayed before attempt n. */
  predicate HeldBefore(r: Request, n: nat) { r.heldDone || n > 0 }

  function HeldAt(r: Request, n: nat): seq<CallEvent> {
    if HeldBefore(r, n) then []
    else HeldEvents(r.setup.held, r.world(n).heldFails, Min(r.world(n).replayed, |r.setup.held|))
  }

  /** Attempt n runs the model: nothing kept it from starting, and the held calls are all replayed. */
  predicate RunsAt(r: Request, n: nat) {
    r.world(n).starts && (HeldBefore(r, n) || r.world(n).replayed >= |r.setup.held|)
  }

  function StreamAt(r: Request, n: nat): seq<CallEvent> {
    if RunsAt(r, n) then r.world(n).events else []
  }

  /** What the record hears in the first n attempts: in each the held calls replayed there, then the run's stream. */
  function Heard(r: Request, n: nat): seq<CallEvent> {
    if n == 0 then [] else Heard(r, n - 1) + (HeldAt(r, n - 1) + StreamAt(r, n - 1))
  }

  // ----- when a retry follows -----

  /** Attempt n is followed by another of the same prompt. */
  predicate RunsAgain(agains: seq<Again>, n: nat) { n < |agains| && !agains[n].branch.Nudged? }

  /** None of the first n re-entries is of this kind. */
  ghost predicate Never(agains: seq<Again>, n: nat, branch: Branch)
    requires n <= |agains|
  {
    forall m :: 0 <= m < n ==> agains[m].branch != branch
  }

  function InputAt(agains: seq<Again>, input: Input, n: nat): Input
    requires n <= |agains|
  {
    if n == 0 then input else agains[n - 1].next
  }

  /** The end of an attempt allows a retry: hosted search, if offered, was refused, or a transient failure. */
  predicate MayRetry(end: End, hosted: bool, retry: bool) {
    end.Failed? && ((hosted && end.failure.searchRefused) || (retry && end.failure.transient))
  }

  /**
   Attempt n fails in a way that may be retried: it ran a prompt, and hosted search, still offered, was refused, or the
   failure is transient and the first of its kind.
   */
  ghost predicate Retryable(r: Request, agains: seq<Again>, n: nat)
    requires n <= |agains|
  {
    && InputAt(agains, r.input, n).Prompt?
    && MayRetry(r.world(n).end, r.hosted && Never(agains, n, SearchRefused), Never(agains, n, Retried))
  }

  /** A retryable failure is retried if and only if every write made so far has an error as its last output. */
  ghost predicate RetryExact(r: Request, agains: seq<Again>, n: nat)
    requires n <= |agains|
  {
    RunsAgain(agains, n) <==> Retryable(r, agains, n) && !WriteStands(Heard(r, n + 1))
  }

  // ----- the record of an attempt -----

  lemma CallAndOutput(calls: seq<ToolCall>, call: HeldCall, fails: bool)
    ensures RecordedAll(calls, HeldCallEvents(call, fails)) == calls + [ToolCall(call.id, call.name, fails)]
  {
    var events := HeldCallEvents(call, fails);
    assert events[..1] == [events[0]] && [events[0]][..0] == [];
    assert RecordedAll(calls, [events[0]]) == calls + [ToolCall(call.id, call.name, false)];
  }

  lemma {:induction false} HeldRecorded(calls: seq<ToolCall>, held: seq<HeldCall>, fails: nat -> bool, n: nat)
    requires n <= |held|
    ensures RecordedAll(calls, HeldEvents(held, fails, n)) == calls + HeldCalls(held, fails, n)
  {
    if n > 0 {
      var call, before := held[n - 1], HeldCalls(held, fails, n - 1);
      HeldRecorded(calls, held, fails, n - 1);
      if call.approved {
        RecordedAfter(calls, HeldEvents(held, fails, n - 1), HeldCallEvents(call, fails(n - 1)));
        CallAndOutput(calls + before, call, fails(n - 1));
        assert calls + before + [ToolCall(call.id, call.name, fails(n - 1))] == calls + HeldCalls(held, fails, n);
      } else {
        assert HeldEvents(held, fails, n) == HeldEvents(held, fails, n - 1);
        assert HeldCalls(held, fails, n) == before;
      }
    }
  }

  /** The state's record is that of what was heard. */
  ghost predicate Hears(r: Request, s: Engine) {
    && s.calls == RecordedAll([], Heard(r, s.attempts))
    && (r.setup.held == [] || s.heldDone == HeldBefore(r, s.attempts))
  }

  lemma AttemptHears(r: Request, s: Engine)
    requires Hears(r, s)
    ensures Hears(r, Ran(s, r.setup, r.world(s.attempts)))
  {
    var n := s.attempts;
    var a, held, stream := r.world(n), HeldAt(r, n), StreamAt(r, n);
    HeldRecorded(s.calls, r.setup.held, a.heldFails, Min(a.replayed, |r.setup.held|));
    RecordedAfter([], Heard(r, n), held + stream);
    RecordedAfter(s.calls, held, stream);
    assert Replay(s, r.setup, a).calls == RecordedAll(s.calls, held);
    assert Ran(s, r.setup, a).calls == RecordedAll(RecordedAll(s.calls, held), stream);
  }

  // ----- the decision after an attempt -----

  lemma DecideRetries(s: Engine, setup: Setup, a: Attempt, end: End, input: Input, retries: nat)
    ensures var d := Decide(s, setup, a, end, input, retries);
            d.Go? && !d.branch.Nudged? <==> input.Prompt? && MayRetry(end, s.hosted, retries > 0) && !Wrote(s.calls)
  {
  }

  lemma DecideCounts(s: Engine, setup: Setup, a: Attempt, end: End, input: Input, retries: nat)
    requires Decide(s, setup, a, end, input, retries).Go?
    ensures var d := Decide(s, setup, a, end, input, retries);
            && (d.branch.Retried? ==> retries > 0 && d.retries == retries - 1)
            && (!d.branch.Retried? ==> d.retries == retries)
  {
  }

  /** An attempt that did not start is not retried unless it failed so. */
  lemma EndAllows(s: Engine, setup: Setup, a: Attempt, hosted: bool, retry: bool)
    ensures MayRetry(EndOf(s, setup, a), hosted, retry) <==> MayRetry(a.end, hosted, retry)
  {
  }

  lemma RanKeeps(s: Engine, setup: Setup, a: Attempt)
    ensures var t := Ran(s, setup, a);
            t.agains == s.agains && t.hosted == s.hosted && t.attempts == s.attempts + 1 && t.nudges == s.nudges
  {
  }

  // ----- over all re-entries -----

  /** What the state knows of the re-entries so far. */
  ghost predicate Counts(r: Request, s: Engine, input: Input, retries: nat) {
    && |s.agains| == s.attempts
    && s.hosted == (r.hosted && Never(s.agains, s.attempts, SearchRefused))
    && retries <= 1 && (retries > 0 <==> Never(s.agains, s.attempts, Retried))
    && input == InputAt(s.agains, r.input, s.attempts)
  }

  /** Whether an attempt is retried is decided by what was heard. */
  lemma AttemptDecides(r: Request, s: Engine, input: Input, retries: nat)
    requires Hears(r, s) && Counts(r, s, input, retries)
    ensures var a := r.world(s.attempts);
            var d := Decide(Ran(s, r.setup, a), r.setup, a, EndOf(s, r.setup, a), input, retries);
            d.Go? && !d.branch.Nudged? <==> Retryable(r, s.agains, s.attempts) && !WriteStands(Heard(r, s.attempts + 1))
  {
    var a := r.world(s.attempts);
    var t := Ran(s, r.setup, a);
    AttemptHears(r, s);
    WroteExactly(Heard(r, s.attempts + 1));
    RanKeeps(s, r.setup, a);
    EndAllows(s, r.setup, a, s.hosted, retries > 0);
    DecideRetries(t, r.setup, a, EndOf(s, r.setup, a), input, retries);
  }

  /** A re-entry is counted. */
  lemma AgainCounts(r: Request, s: Engine, t: Engine, d: Decision, input: Input, retries: nat)
    requires Counts(r, s, input, retries) && d.Go?
    requires t.agains == s.agains && t.hosted == s.hosted && t.attempts == s.attempts + 1
    requires d.branch.Retried? ==> retries > 0 && d.retries == retries - 1
    requires !d.branch.Retried? ==> d.retries == retries
    ensures Counts(r, GoesOn(t, d, input), d.next, d.retries)
  {
    var u, n := GoesOn(t, d, input), s.attempts;
    assert forall m :: 0 <= m < n ==> u.agains[m] == s.agains[m];
    assert u.agains[n].branch == d.branch && u.agains[n].next == d.next;
    forall branch ensures Never(u.agains, n + 1, branch) <==> Never(s.agains, n, branch) && d.branch != branch {
      if Never(u.agains, n + 1, branch) {
        assert u.agains[n].branch != branch;
      }
    }
  }

  lemma {:induction false} AgainsGrow(s: Engine, setup: Setup, world: World, input: Input, retries: nat)
    requires |s.nudges| <= MAX_NUDGES
    ensures s.agains <= Execute(s, setup, world, input, retries).agains
    decreases Measure(s, retries)
  {
    var a := world(s.attempts);
    var t := Ran(s, setup, a);
    var d := Decide(t, setup, a, EndOf(s, setup, a), input, retries);
    RanKeeps(s, setup, a);
    if d.Go? {
      MeasureDrops(t, setup, a, EndOf(s, setup, a), input, retries);
      AgainsGrow(GoesOn(t, d, input), setup, world, d.next, d.retries);
    }
  }

  /** What comes after attempt n changes nothing about it. */
  lemma RetryableStays(r: Request, agains: seq<Again>, more: seq<Again>, n: nat)
    requires n <= |agains| && agains <= more
    ensures Retryable(r, agains, n) <==> Retryable(r, more, n)
  {
    assert forall m :: 0 <= m < n ==> more[m] == agains[m];
    assert Never(more, n, SearchRefused) == Never(agains, n, SearchRefused);
    assert Never(more, n, Retried) == Never(agains, n, Retried);
  }

  lemma {:induction false} RetriesExactly(r: Request, s: Engine, input: Input, retries: nat, n: nat)
    requires |s.nudges| <= MAX_NUDGES && Hears(r, s) && Counts(r, s, input, retries)
    requires |s.agains| <= n <= |Execute(s, r.setup, r.world, input, retries).agains|
    ensures RetryExact(r, Execute(s, r.setup, r.world, input, retries).agains, n)
    decreases Measure(s, retries)
  {
    var a, agains := r.world(s.attempts), Execute(s, r.setup, r.world, input, retries).agains;
    var t := Ran(s, r.setup, a);
    var end := EndOf(s, r.setup, a);
    var d := Decide(t, r.setup, a, end, input, retries);
    RanKeeps(s, r.setup, a);
    AttemptDecides(r, s, input, retries);
    if d.Go? {
      MeasureDrops(t, r.setup, a, end, input, retries);
      var next := GoesOn(t, d, input);
      AgainsGrow(next, r.setup, r.world, d.next, d.retries);
      if n > |s.agains| {
        AttemptHears(r, s);
        DecideCounts(t, r.setup, a, end, input, retries);
        AgainCounts(r, s, t, d, input, retries);
        RetriesExactly(r, next, d.next, d.retries, n);
      } else {
        RetryableStays(r, s.agains, agains, n);
        assert agains[n].branch == d.branch;
      }
    }
  }

  // ----- a whole request -----

  /** The request from its start: one retry, no nudges, nothing recorded. */
  function Whole(r: Request): Engine {
    Execute(Fresh(r.hosted, r.heldDone), r.setup, r.world, r.input, 1)
  }

  /**
   Over all attempts of a request: one that fails in a retryable way is retried if and only if every write made by then
   has an error as its last output.
   */
  lemma RetryAfterWrite(r: Request, n: nat)
    requires n <= |Whole(r).agains|
    ensures RetryExact(r, Whole(r).agains, n)
  {
    RetriesExactly(r, Fresh(r.hosted, r.heldDone), r.input, 1, n);
  }

  lemma {:induction false} HeardGrows(r: Request, i: nat, n: nat) returns (more: seq<CallEvent>)
    requires i <= n
    ensures Heard(r, n) == Heard(r, i) + more
  {
    if i == n {
      more := [];
    } else {
      more := HeardGrows(r, i, n - 1);
      more := more + (HeldAt(r, n - 1) + StreamAt(r, n - 1));
    }
  }

  /**
   A write that stands after attempt i stands after attempt n unless an error is the last output heard for it since.
   While it stands nothing is retried; if it is the only one, a retryable failure is retried exactly in that case.
   */
  lemma NoRetryAfterWrite(r: Request, i: nat, n: nat, p: nat)
    requires i <= n <= |Whole(r).agains| && Stands(Heard(r, i + 1), p)
    ensures var agains, heard := Whole(r).agains, Heard(r, n + 1);
            var undone := TurnsToError(heard, p, |Heard(r, i + 1)|);
            && (Stands(heard, p) <==> !undone)
            && (RunsAgain(agains, n) ==> undone)
            && (Retryable(r, agains, n) && (forall q: nat :: Stands(heard, q) ==> q == p) ==>
                  (RunsAgain(agains, n) <==> undone))
  {
    var more := HeardGrows(r, i + 1, n + 1);
    BecomesError(Heard(r, i + 1), more, p);
    RetryAfterWrite(r, n);
  }

  /**
   One request, whatever the SDK, the tools and Flow do: at most nine model runs, exactly one terminal activity, the
   approved held calls sent at most once each and in order. A failed attempt is retried only with every call made so far
   recorded, and exactly if the failure is retryable and every write made so far has an error as its last output.
   */
  lemma RequestIsSafe(r: Request)
    ensures var t := Whole(r);
            && t.runs <= 9
            && |t.ended| == 1
            && t.sent <= ApprovedIds(r.setup.held, |r.setup.held|)
            && t.made <= Names(t.calls)
            && (forall i :: 0 <= i < |t.agains| ==> SafeAgain(t.agains[i]))
            && (forall n :: 0 <= n <= |t.agains| ==> RetryExact(r, t.agains, n))
  {
    var s := Fresh(r.hosted, r.heldDone);
    RunsBounded(s, r.setup, r.world, r.input, 1);
    OneTerminal(s, r.setup, r.world, r.input, 1);
    HeldSentOnce(s, r.setup, r.world, r.input, 1);
    RetriesWriteNothing(s, r.setup, r.world, r.input, 1);
    forall n | 0 <= n <= |Whole(r).agains| ensures RetryExact(r, Whole(r).agains, n) {
      RetryAfterWrite(r, n);
    }
  }
}
