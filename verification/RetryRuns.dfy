/**
 A request with retries, told from the replies: which replies settle it, after which it tries again, when each sleep
 starts and ends, and how the request ends.
 */
module RetryRuns {
  import opened Basics
  import opened Retry

  // ----- the replies -----

  /** A status from 200 to 299, or one the caller accepts. */
  predicate Succeeds(p: Policy, reply: Reply) {
    reply.Http? && (200 <= reply.status <= 299 || reply.status in p.accept)
  }

  /** The network failed, or a status that may pass: 408, 425, 429, and from 500 on all but 501. */
  predicate MayPass(p: Policy, reply: Reply) {
    || reply.NetworkError?
    || (reply.Http? && !Succeeds(p, reply)
        && (reply.status in {408, 425, 429, 500} || reply.status > 501))
  }

  // ----- the times -----

  /** The pause asked for after attempt k. */
  function Pause(p: Policy, world: World, k: nat): int { BackoffDelay(k, p.base, p.max, world(k).chance) }

  /** When attempt k fails, with all pauses before it taken, each as late as it was. */
  function FailsAt(p: Policy, world: World, k: nat): int {
    world(k).took + if k == 0 then 0 else FailsAt(p, world, k - 1) + Pause(p, world, k - 1) + world(k - 1).late
  }

  /** Another attempt is allowed after attempt k, and its pause ends in time. */
  predicate RoomAfter(p: Policy, world: World, k: nat) {
    && (p.attempts.Some? ==> k + 1 < p.attempts.value)
    && (p.deadline.Some? ==> FailsAt(p, world, k) + Pause(p, world, k) <= p.deadline.value)
  }

  /** Attempt k is made and followed by a full pause and another attempt. */
  predicate GoesOn(p: Policy, world: World, k: nat) {
    !world(k).aborted && MayPass(p, world(k).reply) && RoomAfter(p, world, k) && !world(k).abortedAsleep
  }

  // ----- the runs -----

  ghost predicate AllGoOn(p: Policy, world: World, n: nat) { forall k: nat :: k < n ==> GoesOn(p, world, k) }

  ghost predicate SleepsRight(p: Policy, world: World, sleeps: seq<Sleep>) {
    forall k :: 0 <= k < |sleeps| ==>
      sleeps[k].from == FailsAt(p, world, k) && sleeps[k].till == FailsAt(p, world, k) + Pause(p, world, k)
  }

  /** How a request ends that does not go on after k attempts that did. */
  ghost predicate EndsAs(p: Policy, world: World, k: nat, result: Result, requests: nat) {
    if p.attempts == Some(0) then result == GaveUp && requests == 0
    else if world(k).aborted then result == Aborted && requests == k
    else
      && requests == k + 1
      && (Succeeds(p, world(k).reply) ==> result == Returned(k))
      && (!Succeeds(p, world(k).reply) && !MayPass(p, world(k).reply) ==> result == Failed(k))
      && (MayPass(p, world(k).reply) ==> result == if RoomAfter(p, world, k) then Aborted else GaveUp)
  }

  lemma Outcomes(p: Policy, reply: Reply)
    ensures OutcomeOf(reply, p.accept) == Accepted <==> Succeeds(p, reply)
    ensures OutcomeOf(reply, p.accept) == Retryable <==> MayPass(p, reply)
  {
  }

  /** The loop after n turns that went on: it is at attempt n, at the time its pauses give. */
  ghost predicate StillTrying(p: Policy, world: World, s: Loop, n: nat) {
    && s.Trying? && s.attempt == n && |s.sleeps| == n && SleepsRight(p, world, s.sleeps)
    && s.clock + world(n).took == FailsAt(p, world, n)
  }

  lemma StepGoesOn(p: Policy, world: World, s: Loop, n: nat)
    requires StillTrying(p, world, s, n) && GoesOn(p, world, n)
    ensures StillTrying(p, world, Step(p, world, s), n + 1)
  {
    Outcomes(p, world(n).reply);
    DelayRange(n, p.base, p.max, world(n).chance);
  }

  lemma StepEnds(p: Policy, world: World, s: Loop, n: nat)
    requires StillTrying(p, world, s, n) && !GoesOn(p, world, n) && (p.attempts.Some? ==> n <= p.attempts.value)
    requires n > 0 ==> RoomAfter(p, world, n - 1)
    ensures var t := Step(p, world, s);
            t.Ended? && EndsAs(p, world, n, t.result, t.requests) && SleepsRight(p, world, t.sleeps)
  {
    Outcomes(p, world(n).reply);
    DelayRange(n, p.base, p.max, world(n).chance);
  }

  /** While all attempts go on, so does the loop. */
  lemma {:induction false} StillAt(p: Policy, world: World, n: nat)
    requires AllGoOn(p, world, n)
    ensures StillTrying(p, world, After(p, world, n), n)
  {
    if n > 0 {
      StillAt(p, world, n - 1);
      StepGoesOn(p, world, After(p, world, n - 1), n - 1);
    }
  }

  /**
   For any replies, times and aborts: the request tries again after attempt k if and only if the attempt failed in a
   way that may pass, another one is allowed, and the pause ends within the deadline and without an abort. The first
   attempt after which it does not decides: its reply is returned or thrown, or the request gives up or is aborted. The
   sleeps asked for are the pauses after the failed attempts, each starting when its attempt failed.
   */
  lemma RequestExactly(p: Policy, world: World, n: nat, m: nat)
    requires AllGoOn(p, world, n) && !GoesOn(p, world, n)
    ensures m <= n ==> After(p, world, m).Trying? && After(p, world, m).attempt == m
    ensures var s := After(p, world, m);
            m > n ==> s.Ended? && EndsAs(p, world, n, s.result, s.requests)
    ensures SleepsRight(p, world, After(p, world, m).sleeps)
  {
    if m <= n {
      StillAt(p, world, m);
    } else {
      StillAt(p, world, n);
      assert n > 0 ==> GoesOn(p, world, n - 1);
      StepEnds(p, world, After(p, world, n), n);
      EndedStays(p, world, n + 1, m);
    }
  }

  // ----- the jitter -----

  /** The pause is half the capped delay and the chance's share of the other half, rounded to the next millisecond. */
  lemma JitterExact(attempt: nat, base: nat, max: nat, chance: Chance)
    ensures var half := Exp(attempt, base, max) as real / 2.0;
            var delay := BackoffDelay(attempt, base, max, chance) as real;
            half + half * chance - 0.5 < delay <= half + half * chance + 0.5
  {
  }
}
