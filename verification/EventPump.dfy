/**
 When the event buffer accepts, posts and gives up, told from the steps of a run: which events it accepts, when the
 token counts as rejected, that a full batch never waits for the timer, how much a post takes and how often it was
 tried before.
 */
module EventPump {
  import opened Basics
  import opened EventQueue
  import opened EventShipping
  import opened EventDelivery

  ghost function After(c: Config, steps: seq<Step>): World { Run(c, START, steps) }

  lemma OneMore(c: Config, steps: seq<Step>, step: Step)
    ensures After(c, steps + [step]) == Next(c, After(c, steps), step)
  {
    var longer := steps + [step];
    assert longer[..|longer| - 1] == steps && longer[|longer| - 1] == step;
  }

  // ----- what is accepted -----

  /** A post of the run was answered that the token is rejected. */
  ghost predicate TokenRejected(c: Config, steps: seq<Step>) {
    exists n :: 0 <= n < |steps| && steps[n] == DoReply(Revoked) && After(c, steps[..n]).buf.pump.Posting?
  }

  ghost predicate WasClosed(steps: seq<Step>) { DoClose in steps }

  /** The events of all pushes that came before the buffer was closed and the token rejected. */
  ghost function AcceptedIn(c: Config, steps: seq<Step>): seq<Event> {
    if steps == [] then []
    else
      var init, last := steps[..|steps| - 1], steps[|steps| - 1];
      AcceptedIn(c, init)
      + (if last.DoPush? && !WasClosed(init) && !TokenRejected(c, init) then Events(last.parcels) else [])
  }

  lemma RejectedMore(c: Config, steps: seq<Step>, step: Step)
    ensures TokenRejected(c, steps + [step]) <==>
            TokenRejected(c, steps) || (step == DoReply(Revoked) && After(c, steps).buf.pump.Posting?)
  {
    var longer := steps + [step];
    assert longer[..|steps|] == steps;
    forall n | 0 <= n < |steps| ensures longer[n] == steps[n] && longer[..n] == steps[..n] {
    }
    if TokenRejected(c, steps) {
      var n :| 0 <= n < |steps| && steps[n] == DoReply(Revoked) && After(c, steps[..n]).buf.pump.Posting?;
      assert longer[n] == DoReply(Revoked) && longer[..n] == steps[..n];
    }
    if step == DoReply(Revoked) && After(c, steps).buf.pump.Posting? {
      assert longer[|steps|] == step;
    }
  }

  lemma FlagsOfStep(c: Config, b: Buffer, step: Step)
    ensures var b' := NextBuffer(c, b, step);
            && (b'.fatal <==> b.fatal || (step == DoReply(Revoked) && b.pump.Posting?))
            && (b'.closed <==> b.closed || step == DoClose)
  {
  }

  /**
   Over every run the buffer accepts exactly the events pushed while it was neither closed nor had its token rejected,
   in order, and it counts the token as rejected exactly when a post was answered so.
   */
  lemma {:induction false} AcceptedExactly(c: Config, steps: seq<Step>)
    ensures var w := After(c, steps);
            && (w.buf.fatal <==> TokenRejected(c, steps))
            && (w.buf.closed <==> WasClosed(steps))
            && w.accepted == AcceptedIn(c, steps)
    decreases |steps|
  {
    if steps != [] {
      var init, last := steps[..|steps| - 1], steps[|steps| - 1];
      AcceptedExactly(c, init);
      assert steps == init + [last];
      RejectedMore(c, init, last);
      FlagsOfStep(c, After(c, init).buf, last);
      AcceptedByStep(c, After(c, init), last);
    }
  }

  lemma AcceptedByStep(c: Config, w: World, step: Step)
    ensures Next(c, w, step).buf == NextBuffer(c, w.buf, step)
    ensures Next(c, w, step).accepted ==
            w.accepted + if step.DoPush? && !w.buf.closed && !w.buf.fatal then Events(step.parcels) else []
  {
  }

  // ----- when the pump works -----

  /**
   Events are queued and the pump does not run: they are fewer than a batch, and a timer is set. A timer is set only
   while the pump does not run.
   */
  ghost predicate WaitsForMore(c: Config, b: Buffer) {
    && (b.queue != [] && b.pump.Idle? && !b.fatal ==> |b.queue| < c.batchSize && b.timer)
    && (b.timer ==> b.pump.Idle?)
  }

  lemma StepPrompt(c: Config, b: Buffer, step: Step)
    requires WaitsForMore(c, b)
    ensures WaitsForMore(c, NextBuffer(c, b, step))
  {
  }

  /** In every run a full batch never waits: the pump rests only while fewer events are queued, with a timer set. */
  lemma {:induction false} FullBatchNeverWaits(c: Config, steps: seq<Step>)
    ensures WaitsForMore(c, After(c, steps).buf)
    decreases |steps|
  {
    if steps != [] {
      var init, last := steps[..|steps| - 1], steps[|steps| - 1];
      FullBatchNeverWaits(c, init);
      StepPrompt(c, After(c, init).buf, last);
    }
  }

  // ----- what a post takes -----

  /** A post that was not under way before takes all that is queued, up to a hundred events. */
  predicate TakesAll(b: Buffer, b': Buffer) {
    b'.pump.Posting? && !(b.pump.Posting? && b.pump.batch == b'.pump.batch) ==> |b'.pump.batch| == Min(|b'.queue|, 100)
  }

  /** So does every post of every run; that it takes the front of the queue is part of MemoryBound. */
  lemma PostTakesAll(c: Config, steps: seq<Step>, step: Step)
    ensures TakesAll(After(c, steps).buf, After(c, steps + [step]).buf)
  {
    OneMore(c, steps, step);
    StepTakesAll(c, After(c, steps).buf, step);
  }

  lemma StepTakesAll(c: Config, b: Buffer, step: Step)
    ensures TakesAll(b, NextBuffer(c, b, step))
  {
    match step
    case DoReply(reply) => ReplyTakesAll(b, reply);
    case _ =>
  }

  lemma ReplyTakesAll(b: Buffer, reply: Reply)
    ensures TakesAll(b, PostEnds(b, reply))
  {
  }

  // ----- how often it was tried -----

  /** One step more: a post stored or a pump not at work starts the count again, a post lost in transit adds to it. */
  function LostThen(pump: Pump, step: Step, lost: nat): nat {
    if !pump.Posting? && !pump.Sleeping? then 0
    else if !pump.Posting? || !step.DoReply? then lost
    else match step.reply
      case Stored => 0
      case RequestLost => lost + 1
      case ReplyLost => lost + 1
      case _ => lost
  }

  /** The posts lost in transit since the pump started or last had a batch stored. */
  ghost function LostInARow(c: Config, steps: seq<Step>): nat {
    if steps == [] then 0
    else
      var init := steps[..|steps| - 1];
      LostThen(After(c, init).buf.pump, steps[|steps| - 1], LostInARow(c, init))
  }

  ghost predicate Counts(p: Pump, n: nat) { p.Posting? || p.Sleeping? ==> p.attempt == n }

  /** Over every run the attempt number, which the pause before a retry grows with, counts exactly these. */
  lemma {:induction false} AttemptsCounted(c: Config, steps: seq<Step>)
    ensures Counts(After(c, steps).buf.pump, LostInARow(c, steps))
    decreases |steps|
  {
    if steps != [] {
      var init, last := steps[..|steps| - 1], steps[|steps| - 1];
      AttemptsCounted(c, init);
      StepCounts(c, After(c, init).buf, last, LostInARow(c, init));
    }
  }

  lemma StepCounts(c: Config, b: Buffer, step: Step, n: nat)
    requires Counts(b.pump, n)
    ensures Counts(NextBuffer(c, b, step).pump, LostThen(b.pump, step, n))
  {
    match step
    case DoReply(reply) => ReplyCounts(b, reply, n);
    case _ =>
  }

  lemma ReplyCounts(b: Buffer, reply: Reply, n: nat)
    requires Counts(b.pump, n)
    ensures Counts(PostEnds(b, reply).pump, LostThen(b.pump, DoReply(reply), n))
  {
  }
}
