/**
 Flushes that wait: which step answers them, and when nothing is left that would, so that they end by their timeout.
 */
module FlushWaiting {
  import opened EventQueue
  import opened EventShipping
  import opened EventDelivery

  // ----- answered flushes -----

  /** The step ends the pump's work with nothing left to post. */
  predicate Drains(before: Buffer, after: Buffer) {
    !before.pump.Settling? && after.pump.Settling? && after.queue == []
  }

  /** The flushes waiting before the step have all returned true after it, in order, and none waits any more. */
  ghost predicate AllAnswered(before: World, after: World) {
    after.buf.waiters == [] && after.resolved == before.resolved + before.buf.waiters
  }

  /** No flush has returned since, and those that waited still do. */
  ghost predicate NoneAnswered(before: World, after: World) {
    before.buf.waiters <= after.buf.waiters && after.resolved == before.resolved
  }

  ghost predicate Answers(b: Buffer, b': Buffer) {
    if Drains(b, b') then b'.waiters == [] else b.waiters <= b'.waiters
  }

  lemma PushAnswers(c: Config, b: Buffer, parcels: seq<Parcel>)
    requires Good(c, b)
    ensures var b' := Push(c, b, parcels); Answers(b, b') && (b.pump.Posting? ==> b'.queue != [])
  {
    PushGood(c, b, parcels);
  }

  lemma PostAnswers(b: Buffer, reply: Reply)
    ensures var b' := PostEnds(b, reply); Answers(b, b')
    ensures b.queue != [] && b.pump.Posting? && PostEnds(b, reply).queue == [] ==> Drains(b, PostEnds(b, reply))
  {
  }

  /** One step, for buffers as every run keeps them. */
  lemma StepAnswers(c: Config, b: Buffer, step: Step)
    requires Good(c, b)
    ensures var b' := NextBuffer(c, b, step);
            && Answers(b, b')
            && ((b.pump.Posting? || (b.pump.Sleeping? && step.DoWake?)) && b'.queue == [] ==> Drains(b, b'))
  {
    match step
    case DoPush(parcels) => PushAnswers(c, b, parcels);
    case DoReply(reply) => PostAnswers(b, reply);
    case _ =>
  }

  /**
   Over every run: a flush that waits is answered by the step that ends the pump's work with nothing queued, and by no
   other step. Whatever empties the queue while a post is under way ends the pump's work; if the queue is emptied in the
   pause before a retry, the end of the pause does.
   */
  lemma FlushAnswered(c: Config, steps: seq<Step>, step: Step)
    ensures var w, w' := Run(c, START, steps), Run(c, START, steps + [step]);
            && (Drains(w.buf, w'.buf) ==> AllAnswered(w, w'))
            && (!Drains(w.buf, w'.buf) ==> NoneAnswered(w, w'))
            && ((w.buf.pump.Posting? || (w.buf.pump.Sleeping? && step.DoWake?)) && w'.buf.queue == [] ==>
                 Drains(w.buf, w'.buf))
  {
    OneMore(c, steps, step);
    RunKeeps(c, steps);
    AnsweredByStep(c, Run(c, START, steps), step);
  }

  lemma OneMore(c: Config, steps: seq<Step>, step: Step)
    ensures Run(c, START, steps + [step]) == Next(c, Run(c, START, steps), step)
  {
    var longer := steps + [step];
    assert longer[..|longer| - 1] == steps && longer[|longer| - 1] == step;
  }

  /** What a step does to the buffer and to the flushes that returned. */
  lemma StepShows(c: Config, w: World, step: Step)
    ensures var w' := Next(c, w, step);
            && w'.buf == NextBuffer(c, w.buf, step)
            && w'.resolved == w.resolved + if w'.buf.waiters == [] then w.buf.waiters else []
  {
    assert w.resolved + [] == w.resolved;
  }

  lemma AnsweredByStep(c: Config, w: World, step: Step)
    requires Good(c, w.buf)
    ensures var w' := Next(c, w, step);
            && (Drains(w.buf, w'.buf) ==> AllAnswered(w, w'))
            && (!Drains(w.buf, w'.buf) ==> NoneAnswered(w, w'))
            && ((w.buf.pump.Posting? || (w.buf.pump.Sleeping? && step.DoWake?)) && w'.buf.queue == [] ==>
                 Drains(w.buf, w'.buf))
  {
    StepShows(c, w, step);
    StepAnswers(c, w.buf, step);
  }

  /**
   Over every run: a flush with events queued and the token accepted sets the pump to work and waits for the events
   accepted before it; any other flush changes nothing, and no other step adds a waiting flush.
   */
  lemma FlushWaits(c: Config, steps: seq<Step>, step: Step)
    ensures var w, w' := Run(c, START, steps), Run(c, START, steps + [step]);
            && (step.DoFlush? && w.buf.queue != [] && !w.buf.fatal ==>
                 w'.buf.waiters == w.buf.waiters + [|w.accepted|] && !w'.buf.pump.Idle?)
            && (step.DoFlush? && (w.buf.queue == [] || w.buf.fatal) ==> w' == w)
            && (!step.DoFlush? ==> w'.buf.waiters <= w.buf.waiters)
  {
    OneMore(c, steps, step);
    RunKeeps(c, steps);
    WaitsAfterStep(c, Run(c, START, steps), step);
  }

  lemma WaitsAfterStep(c: Config, w: World, step: Step)
    requires w.buf.next == |w.accepted|
    ensures var w' := Next(c, w, step);
            && (step.DoFlush? && w.buf.queue != [] && !w.buf.fatal ==>
                 w'.buf.waiters == w.buf.waiters + [|w.accepted|] && !w'.buf.pump.Idle?)
            && (step.DoFlush? && (w.buf.queue == [] || w.buf.fatal) ==> w' == w)
            && (!step.DoFlush? ==> w'.buf.waiters <= w.buf.waiters)
  {
    StepShows(c, w, step);
    StepWaits(c, w.buf, step);
  }

  lemma StepWaits(c: Config, b: Buffer, step: Step)
    ensures var b' := NextBuffer(c, b, step);
            && (step.DoFlush? && b.queue != [] && !b.fatal ==> b'.waiters == b.waiters + [b.next] && !b'.pump.Idle?)
            && (step.DoFlush? && (b.queue == [] || b.fatal) ==> b' == b)
            && (!step.DoFlush? ==> b'.waiters <= b.waiters)
  {
    match step
    case DoReply(reply) => ReplyWaits(b, reply);
    case _ =>
  }

  lemma ReplyWaits(b: Buffer, reply: Reply)
    ensures PostEnds(b, reply).waiters <= b.waiters
  {
  }

  /** A flush waits, no pump is at work and no timer will start one. */
  predicate Stranded(b: Buffer) {
    b.waiters != [] && b.pump.Idle? && !b.timer
  }

  /**
   A waiting flush is stranded exactly when the pump ends with nothing more to post: the queue was emptied by eviction
   between the pump's last look and its end, or the token was rejected.
   */
  lemma StrandedExactly(c: Config, b: Buffer, step: Step)
    ensures !Stranded(b) && Stranded(NextBuffer(c, b, step)) <==>
            step.DoSettle? && b.pump.Settling? && b.waiters != [] && !b.timer && (b.queue == [] || b.fatal)
  {
  }

  /** A push that is not turned away. */
  predicate Accepts(b: Buffer, step: Step) { step.DoPush? && !b.closed && !b.fatal }

  ghost function BufferAfter(c: Config, steps: seq<Step>): Buffer { Run(c, START, steps).buf }

  /** In every run a flush is stranded only with nothing queued or the token rejected. */
  lemma StrandedOnNothing(c: Config, steps: seq<Step>)
    requires Stranded(BufferAfter(c, steps))
    ensures BufferAfter(c, steps).queue == [] || BufferAfter(c, steps).fatal
  {
    RunKeeps(c, steps);
  }

  /** A flush is stranded after each of the further steps. */
  ghost predicate StaysStranded(c: Config, steps: seq<Step>, more: seq<Step>) {
    && Stranded(BufferAfter(c, steps + more))
    && (more == [] || StaysStranded(c, steps, more[..|more| - 1]))
  }

  /** None of the further steps is an accepted push. */
  ghost predicate NothingAccepted(c: Config, steps: seq<Step>, more: seq<Step>) {
    more == [] || (
      var init := more[..|more| - 1];
      NothingAccepted(c, steps, init) && !Accepts(BufferAfter(c, steps + init), more[|more| - 1]))
  }

  /** One step of a run with a stranded flush. */
  lemma StrandedStep(c: Config, steps: seq<Step>, step: Step)
    requires Stranded(BufferAfter(c, steps))
    ensures Stranded(BufferAfter(c, steps + [step])) <==> !Accepts(BufferAfter(c, steps), step)
  {
    OneMore(c, steps, step);
    StrandedOnNothing(c, steps);
  }

  /** A flush stranded in a run stays stranded exactly while no push is accepted, be it one of no events. */
  lemma {:induction false} StrandedUntilAccepted(c: Config, steps: seq<Step>, more: seq<Step>)
    requires Stranded(BufferAfter(c, steps))
    ensures StaysStranded(c, steps, more) <==> NothingAccepted(c, steps, more)
    decreases |more|
  {
    if more == [] {
      assert steps + more == steps;
    } else {
      var init, last := more[..|more| - 1], more[|more| - 1];
      StrandedUntilAccepted(c, steps, init);
      assert steps + more == steps + init + [last];
      if StaysStranded(c, steps, init) {
        StrandedStep(c, steps + init, last);
      }
    }
  }

  // ----- a run that strands a flush -----

  const SIX := Parcel(Event(0, false, false), 6)
  const NEXT := Parcel(Event(1, false, false), 6)
  const HUGE := Parcel(Event(2, false, false), 11)

  /** The queue with the six bytes of NEXT is settling; a flush waits for it. */
  const WAITING := Buffer([Entry(1, NEXT.event, 6, false)], 2, 0, false, Settling, false, false, [2])

  /** Among durable entries of which none is in flight the first goes. */
  lemma FirstGoes(q: seq<Entry>, max: nat)
    requires q != [] && forall i :: 0 <= i < |q| ==> !q[i].inflight && !q[i].event.thought && !q[i].event.ephemeral
    requires Bytes(q) > max
    ensures Evict(q, max) == Evict(q[1..], max)
  {
    assert FindEvictable(q, (e: Entry) => e.event.thought) < 0;
    assert FindEvictable(q, (e: Entry) => e.event.ephemeral) < 0;
    assert Victim(q) == 0;
    assert RemoveAt(q, 0) == q[1..];
  }

  /** An event over the limit pushes out the one before it, and then itself. */
  lemma BothGo(first: Entry, second: Entry)
    requires !first.inflight && !first.event.thought && !first.event.ephemeral && first.size == 6
    requires !second.inflight && !second.event.thought && !second.event.ephemeral && second.size == 11
    ensures Evict([first, second], 10) == []
  {
    var all := [first, second];
    assert all[1..] == [second] && [second][1..] == [];
    assert Bytes([second]) == 11;
    assert Bytes(all) == 17;
    FirstGoes(all, 10);
    FirstGoes([second], 10);
  }

  lemma HugeEmptiesQueue()
    ensures Evict(WAITING.queue + Entries([HUGE], 2), 10) == []
  {
    BothGo(Entry(1, NEXT.event, 6, false), Entry(2, HUGE.event, 11, false));
    assert WAITING.queue + Entries([HUGE], 2) == [Entry(1, NEXT.event, 6, false), Entry(2, HUGE.event, 11, false)];
  }

  const POSTED := Buffer([Entry(0, SIX.event, 6, true)], 1, 0, false, Posting([0], 0), false, false, [])
  const DRAINED := Buffer([], 1, 0, false, Settling, false, false, [])
  const REFILLED := Buffer([Entry(1, NEXT.event, 6, false)], 2, 0, false, Settling, false, false, [])
  const EMPTIED := Buffer([], 3, 2, false, Settling, false, false, [2])
  const LEFT := Buffer([], 3, 2, false, Idle, false, false, [2])

  lemma Posts()
    ensures Push(SMALL, EMPTY, [SIX]) == POSTED
  {
    var e := Entry(0, SIX.event, 6, false);
    assert [] + Entries([SIX], 0) == [e] && Bytes([e]) == 6;
    assert Evict([e], 10) == [e];
    assert TicketsOf([e][..1]) == [0] && SetInflight([e], [0], true) == [e.(inflight := true)];
  }

  lemma Delivers()
    ensures PostEnds(POSTED, Stored) == DRAINED
  {
    assert Remove(POSTED.queue, [0]) == [];
  }

  lemma Refills()
    ensures Push(SMALL, DRAINED, [NEXT]) == REFILLED && Flush(REFILLED) == WAITING
  {
    var e := Entry(1, NEXT.event, 6, false);
    assert [] + Entries([NEXT], 1) == [e] && Bytes([e]) == 6;
    assert Evict([e], 10) == [e];
    assert [] + [2] == [2];
  }

  /** A push that leaves nothing queued, while the pump is not idle. */
  lemma PushEmpties(c: Config, b: Buffer, parcels: seq<Parcel>)
    requires !b.closed && !b.fatal && !b.pump.Idle? && Evict(b.queue + Entries(parcels, b.next), c.maxBytes) == []
    ensures Push(c, b, parcels) ==
            b.(queue := [], next := b.next + |parcels|, dropped := b.dropped + |b.queue| + |parcels|)
  {
  }

  lemma Leaves()
    ensures Push(SMALL, WAITING, [HUGE]) == EMPTIED && Settles(SMALL, EMPTIED) == LEFT
  {
    HugeEmptiesQueue();
    PushEmpties(SMALL, WAITING, [HUGE]);
  }

  ghost predicate Reachable(c: Config, b: Buffer) {
    exists steps :: BufferAfter(c, steps) == b
  }

  lemma Reach(c: Config, b: Buffer, step: Step, b': Buffer)
    requires Reachable(c, b) && NextBuffer(c, b, step) == b'
    ensures Reachable(c, b')
  {
    var steps :| BufferAfter(c, steps) == b;
    var more := steps + [step];
    assert more[..|steps|] == steps && more[|steps|] == step;
    assert BufferAfter(c, more) == b';
  }

  lemma ReachPush(c: Config, b: Buffer, parcels: seq<Parcel>, b': Buffer)
    requires Reachable(c, b) && Push(c, b, parcels) == b'
    ensures Reachable(c, b')
  {
    Reach(c, b, DoPush(parcels), b');
  }

  lemma ReachRest(c: Config, b: Buffer, b': Buffer)
    requires Reachable(c, b) && (PostEnds(b, Stored) == b' || Flush(b) == b' || Settles(c, b) == b')
    ensures Reachable(c, b')
  {
    if PostEnds(b, Stored) == b' {
      Reach(c, b, DoReply(Stored), b');
    } else if Flush(b) == b' {
      Reach(c, b, DoFlush, b');
    } else {
      Reach(c, b, DoSettle, b');
    }
  }

  /** An event is delivered, and while the pump ends another one is accepted and a flush called. */
  lemma WaitingIsReached()
    ensures Reachable(SMALL, WAITING)
  {
    assert BufferAfter(SMALL, []) == EMPTY;
    assert Reachable(SMALL, POSTED) by { Posts(); ReachPush(SMALL, EMPTY, [SIX], POSTED); }
    assert Reachable(SMALL, DRAINED) by { Delivers(); ReachRest(SMALL, POSTED, DRAINED); }
    assert Reachable(SMALL, REFILLED) by { Refills(); ReachPush(SMALL, DRAINED, [NEXT], REFILLED); }
    Refills();
    ReachRest(SMALL, REFILLED, WAITING);
  }

  /** Then an event over the limit empties the queue, and the pump ends: the flush is stranded though all is gone. */
  lemma FlushStranded()
    ensures Reachable(SMALL, LEFT) && Stranded(LEFT) && LEFT.queue == [] && !LEFT.fatal
  {
    WaitingIsReached();
    Leaves();
    ReachPush(SMALL, WAITING, [HUGE], EMPTIED);
    ReachRest(SMALL, EMPTIED, LEFT);
  }

  // ----- a queue emptied in the pause before a retry -----

  const ASKED := POSTED.(waiters := [1])
  const PAUSED := Buffer([Entry(0, SIX.event, 6, false)], 1, 0, false, Sleeping(1), false, false, [1])
  const NOTHING_LEFT := Buffer([], 2, 2, false, Sleeping(1), false, false, [1])

  lemma Pauses()
    ensures Flush(POSTED) == ASKED && PostEnds(ASKED, RequestLost) == PAUSED
  {
    assert [] + [1] == [1];
    assert SetInflight(ASKED.queue, [0], false) == PAUSED.queue;
  }

  lemma EmptiesPaused()
    ensures Push(SMALL, PAUSED, [HUGE]) == NOTHING_LEFT
  {
    BothGo(Entry(0, SIX.event, 6, false), Entry(1, HUGE.event, 11, false));
    assert PAUSED.queue + Entries([HUGE], 1) == [Entry(0, SIX.event, 6, false), Entry(1, HUGE.event, 11, false)];
    PushEmpties(SMALL, PAUSED, [HUGE]);
  }

  /** Nothing is queued and the flush still waits, though not for its timeout: the end of the pause answers it. */
  lemma AnsweredAfterPause()
    ensures Reachable(SMALL, NOTHING_LEFT) && NOTHING_LEFT.queue == [] && NOTHING_LEFT.waiters != []
    ensures WakesUp(NOTHING_LEFT).waiters == []
  {
    assert BufferAfter(SMALL, []) == EMPTY;
    assert Reachable(SMALL, POSTED) by { Posts(); ReachPush(SMALL, EMPTY, [SIX], POSTED); }
    Pauses();
    ReachRest(SMALL, POSTED, ASKED);
    Reach(SMALL, ASKED, DoReply(RequestLost), PAUSED);
    EmptiesPaused();
    ReachPush(SMALL, PAUSED, [HUGE], NOTHING_LEFT);
  }
}
