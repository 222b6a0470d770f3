/**
 The runner's requests to Flow: retries with jittered, capped, doubling delays until a reply settles it, the attempts
 are used up or the next delay would end after the deadline. Replies, times, chances and aborts are an adversary.
 Times are whole milliseconds.
 */
module Retry {
  import opened Basics

  type Chance = u: real | 0.0 <= u < 1.0 witness 0.0

  // ----- the delay -----

  function Doubled(n: nat): (r: nat)
    ensures r >= 1
  {
    if n == 0 then 1 else 2 * Doubled(n - 1)
  }

  /** The delay before jitter: doubling with each attempt, capped. */
  function Exp(attempt: nat, base: nat, max: nat): nat { Min(max, base * Doubled(Min(attempt, 30))) }

  function BackoffDelay(attempt: nat, base: nat, max: nat, chance: Chance): int {
    var exp := Exp(attempt, base, max) as real;
    (exp / 2.0 + chance * (exp / 2.0) + 0.5).Floor
  }

  /** The jitter takes off up to half: the delay is between half the capped delay, rounded up, and all of it. */
  lemma DelayRange(attempt: nat, base: nat, max: nat, chance: Chance)
    ensures var exp := Exp(attempt, base, max); (exp + 1) / 2 <= BackoffDelay(attempt, base, max, chance) <= exp
    ensures BackoffDelay(attempt, base, max, chance) == 0 <==> base == 0 || max == 0
  {
    var exp := Exp(attempt, base, max);
    var half := exp as real / 2.0;
    assert 0.0 <= chance * half <= half by { Scaled(chance, half); }
    assert exp == 0 <==> base == 0 || max == 0 by { Positive(base, Doubled(Min(attempt, 30))); }
    var x := half + chance * half + 0.5;
    assert half + 0.5 <= x <= exp as real + 0.5;
    if exp > 0 {
      assert chance * half < half by { Strict(chance, half); }
    }
    assert x < exp as real + 1.0;
    RoundedHalf(exp);
  }

  lemma RoundedHalf(n: nat)
    ensures ((n + 1) / 2) as real <= n as real / 2.0 + 0.5
  {
    assert 2 * ((n + 1) / 2) <= n + 1;
    assert (2 * ((n + 1) / 2)) as real == 2.0 * ((n + 1) / 2) as real;
  }

  lemma Scaled(u: real, h: real)
    requires 0.0 <= u <= 1.0 && 0.0 <= h
    ensures 0.0 <= u * h <= h
  {
  }

  lemma Strict(u: real, h: real)
    requires u < 1.0 && 0.0 < h
    ensures u * h < h
  {
    assert (1.0 - u) * h > 0.0;
  }

  lemma Positive(a: nat, b: nat)
    requires b >= 1
    ensures a * b == 0 <==> a == 0
  {
  }

  /**
   The first delay before jitter is the base, capped; until the cap every delay is twice the one before; from the
   thirtieth attempt on all are alike.
   */
  lemma {:induction false} DelaysDouble(attempt: nat, base: nat, max: nat)
    ensures Exp(0, base, max) == if base < max then base else max
    ensures Exp(attempt, base, max) <= Exp(attempt + 1, base, max) <= 2 * Exp(attempt, base, max)
    ensures attempt < 30 && Exp(attempt + 1, base, max) < max ==>
        Exp(attempt + 1, base, max) == 2 * Exp(attempt, base, max)
    ensures attempt >= 30 ==> Exp(attempt + 1, base, max) == Exp(attempt, base, max)
  {
    if attempt < 30 {
      var d := Doubled(attempt);
      assert Doubled(attempt + 1) == 2 * d;
      assert base * (2 * d) == 2 * (base * d);
    }
  }

  // ----- one attempt -----

  datatype Reply = NetworkError | Canceled | Http(status: nat)

  datatype Outcome = Accepted | Retryable | Final

  predicate IsRetryableStatus(status: nat) {
    status == 408 || status == 425 || status == 429 || (status >= 500 && status != 501)
  }

  function OutcomeOf(reply: Reply, accept: set<nat>): Outcome {
    match reply
    case NetworkError => Retryable
    case Canceled => Final
    case Http(status) =>
      if 200 <= status < 300 || status in accept then Accepted
      else if status == 401 || status == 403 then Final
      else if IsRetryableStatus(status) then Retryable
      else Final
  }

  /**
   What an attempt meets: an abort before it, the reply and how long it took, the chance of the jitter, an abort during
   the sleep after it, and how much longer than asked that sleep was.
   */
  datatype Attempt = Attempt(aborted: bool, reply: Reply, took: nat, chance: Chance, abortedAsleep: bool, late: nat)

  type World = nat -> Attempt

  /** `attempts` and `deadline` are None where there is no limit. */
  datatype Policy = Policy(attempts: Option<nat>, base: nat, max: nat, deadline: Option<nat>, accept: set<nat>)

  // ----- the loop -----

  datatype Result = Returned(attempt: nat) | Failed(attempt: nat) | GaveUp | Aborted

  datatype Sleep = Sleep(from: nat, till: nat)

  /** Trying attempt number `attempt` next, or ended; the time since the start, and the sleeps asked for. */
  datatype Loop =
    | Trying(attempt: nat, clock: nat, sleeps: seq<Sleep>)
    | Ended(result: Result, requests: nat, sleeps: seq<Sleep>)

  predicate Enough(p: Policy, attempt: nat) { p.attempts.Some? && attempt >= p.attempts.value }

  predicate TooLate(p: Policy, till: int) { p.deadline.Some? && till > p.deadline.value }

  function Step(p: Policy, world: World, s: Loop): Loop {
    if s.Ended? then s
    else
      var a := world(s.attempt);
      if Enough(p, s.attempt) then Ended(GaveUp, s.attempt, s.sleeps)
      else if a.aborted then Ended(Aborted, s.attempt, s.sleeps)
      else
        match OutcomeOf(a.reply, p.accept)
        case Accepted => Ended(Returned(s.attempt), s.attempt + 1, s.sleeps)
        case Final => Ended(Failed(s.attempt), s.attempt + 1, s.sleeps)
        case Retryable =>
          DelayRange(s.attempt, p.base, p.max, a.chance);
          var delay := BackoffDelay(s.attempt, p.base, p.max, a.chance);
          var now := s.clock + a.took;
          if Enough(p, s.attempt + 1) || TooLate(p, now + delay) then Ended(GaveUp, s.attempt + 1, s.sleeps)
          else
            var sleeps := s.sleeps + [Sleep(now, now + delay)];
            if a.abortedAsleep then Ended(Aborted, s.attempt + 1, sleeps)
            else Trying(s.attempt + 1, now + delay + a.late, sleeps)
  }

  function After(p: Policy, world: World, n: nat): Loop {
    if n == 0 then Trying(0, 0, []) else Step(p, world, After(p, world, n - 1))
  }

  ghost predicate Ends(p: Policy, world: World) {
    exists n :: After(p, world, n).Ended?
  }

  /** Limited attempts, or a deadline with delays that are not zero. */
  predicate Bounded(p: Policy) {
    p.attempts.Some? || (p.deadline.Some? && p.base >= 1 && p.max >= 1)
  }

  function Limit(p: Policy): nat
    requires Bounded(p)
  {
    if p.attempts.Some? then p.attempts.value else p.deadline.value + 1
  }

  // ----- what every run of the loop keeps -----

  ghost predicate Safe(p: Policy, world: World, s: Loop) {
    && (forall i :: 0 <= i < |s.sleeps| ==> s.sleeps[i].from <= s.sleeps[i].till && !TooLate(p, s.sleeps[i].till))
    && match s {
         case Trying(attempt, clock, sleeps) =>
           && |sleeps| == attempt
           && RetriedBefore(p, world, attempt)
           && (p.attempts.Some? && p.attempts.value > 0 ==> attempt < p.attempts.value)
           && (p.attempts == Some(0) ==> attempt == 0)
           && (attempt > 0 ==> clock >= sleeps[attempt - 1].till)
           && (p.base >= 1 && p.max >= 1 && attempt > 0 ==> sleeps[attempt - 1].till >= attempt)
         case Ended(result, requests, _) =>
           && (p.attempts.Some? ==> requests <= p.attempts.value)
           && (result.Returned? ==> requests == result.attempt + 1 && Settles(p, world, result.attempt, Accepted))
           && (result.Failed? ==> requests == result.attempt + 1 && Settles(p, world, result.attempt, Final))
           && (result.GaveUp? ==> RetriedBefore(p, world, requests))
       }
  }

  ghost predicate RetriedBefore(p: Policy, world: World, n: nat) {
    forall k: nat :: k < n ==> OutcomeOf(world(k).reply, p.accept) == Retryable
  }

  /** Attempt n has this outcome, and all attempts before it failed in a way that is retried. */
  ghost predicate Settles(p: Policy, world: World, n: nat, outcome: Outcome) {
    RetriedBefore(p, world, n) && OutcomeOf(world(n).reply, p.accept) == outcome
  }

  lemma StepSafe(p: Policy, world: World, s: Loop)
    requires Safe(p, world, s)
    ensures Safe(p, world, Step(p, world, s))
  {
    if s.Trying? {
      DelayRange(s.attempt, p.base, p.max, world(s.attempt).chance);
    }
  }

  lemma {:induction false} AfterSafe(p: Policy, world: World, n: nat)
    ensures Safe(p, world, After(p, world, n))
    ensures After(p, world, n).Trying? ==> After(p, world, n).attempt == n
  {
    if n > 0 {
      AfterSafe(p, world, n - 1);
      StepSafe(p, world, After(p, world, n - 1));
    }
  }

  // ----- the results -----

  /**
   However often and whatever happens: no sleep is asked for that ends after the deadline, no more requests are made
   than attempts are allowed, the reply returned (or the final error thrown) is the first that is not retried.
   */
  lemma RequestIsSafe(p: Policy, world: World, n: nat)
    ensures var s := After(p, world, n);
            && (forall i :: 0 <= i < |s.sleeps| ==> !TooLate(p, s.sleeps[i].till))
            && (s.Ended? && p.attempts.Some? ==> s.requests <= p.attempts.value)
            && (s.Ended? && s.result.Returned? ==> Settles(p, world, s.result.attempt, Accepted))
            && (s.Ended? && s.result.Failed? ==> Settles(p, world, s.result.attempt, Final))
  {
    AfterSafe(p, world, n);
  }

  /** A bounded request is not still trying after its limit. */
  lemma EndsInTime(p: Policy, world: World, n: nat)
    requires Bounded(p) && n > Limit(p)
    ensures After(p, world, n).Ended?
  {
    AfterSafe(p, world, n);
  }

  const QUICK := Attempt(false, NetworkError, 0, 0.0, false, 0)

  lemma {:induction false} RunsOn(p: Policy, n: nat)
    requires !Bounded(p)
    ensures var s := After(p, (k: nat) => QUICK, n); s.Trying? && s.attempt == n && (p.deadline.Some? ==> s.clock == 0)
  {
    if n > 0 {
      RunsOn(p, n - 1);
      DelayRange(n - 1, p.base, p.max, 0.0);
    }
  }

  /** A request ends whatever happens if and only if its attempts are limited, or it has a deadline and real delays. */
  lemma EndsAlways(p: Policy)
    ensures Bounded(p) <==> forall world :: Ends(p, world)
  {
    if Bounded(p) {
      forall world ensures Ends(p, world) {
        EndsInTime(p, world, Limit(p) + 1);
      }
    } else {
      var world: World := (k: nat) => QUICK;
      forall n: nat ensures !After(p, world, n).Ended? {
        RunsOn(p, n);
      }
      assert !Ends(p, world);
    }
  }

  lemma {:induction false} EndedStays(p: Policy, world: World, n: nat, m: nat)
    requires n <= m && After(p, world, n).Ended?
    ensures After(p, world, m) == After(p, world, n)
  {
    if n < m {
      EndedStays(p, world, n, m - 1);
    }
  }

  /** One turn of the loop: the abort check, the attempt, and giving up or sleeping after a failure. */
  method TryOnce(p: Policy, world: World, attempt: nat, clock: nat, sleeps: seq<Sleep>) returns (next: Loop)
    ensures next == Step(p, world, Trying(attempt, clock, sleeps))
  {
    if Enough(p, attempt) { return Ended(GaveUp, attempt, sleeps); }
    var a := world(attempt);
    if a.aborted { return Ended(Aborted, attempt, sleeps); }
    var outcome := OutcomeOf(a.reply, p.accept);
    if outcome.Accepted? { return Ended(Returned(attempt), attempt + 1, sleeps); }
    if outcome.Final? { return Ended(Failed(attempt), attempt + 1, sleeps); }
    DelayRange(attempt, p.base, p.max, a.chance);
    var delay := BackoffDelay(attempt, p.base, p.max, a.chance);
    var now := clock + a.took;
    if Enough(p, attempt + 1) || TooLate(p, now + delay) { return Ended(GaveUp, attempt + 1, sleeps); }
    var slept := sleeps + [Sleep(now, now + delay)];
    if a.abortedAsleep { return Ended(Aborted, attempt + 1, slept); }
    next := Trying(attempt + 1, now + delay + a.late, slept);
  }

  predicate IsResult(s: Loop, result: Result, requests: nat) {
    s.Ended? && s.result == result && s.requests == requests
  }

  /** RuntimeClient.request, whenever it ends: the result and the number of requests made. */
  method Request(p: Policy, world: World) returns (result: Result, requests: nat)
    requires Ends(p, world)
    ensures forall n: nat :: After(p, world, n).Ended? ==> IsResult(After(p, world, n), result, requests)
  {
    ghost var last: nat :| After(p, world, last).Ended?;
    var s: Loop := Trying(0, 0, []);
    ghost var turns: nat := 0;
    while s.Trying?
      invariant s == After(p, world, turns) && turns <= last
      decreases last - turns
    {
      s := TryOnce(p, world, s.attempt, s.clock, s.sleeps);
      turns := turns + 1;
    }
    forall n: nat | After(p, world, n).Ended? ensures After(p, world, n) == s {
      if n <= turns { EndedStays(p, world, n, turns); } else { EndedStays(p, world, turns, n); }
    }
    return s.result, s.requests;
  }
}
