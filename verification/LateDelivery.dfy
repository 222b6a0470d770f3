/**
 Event requests the client gave up and Flow gets nevertheless, at any later time and any number of times. The receiver's
 log stays in accept order exactly while no event that was evicted or refused meanwhile comes in behind a newer one.
 */
module LateDelivery {
  import opened EventQueue
  import opened EventShipping
  import opened EventDelivery

  datatype LateStep = Usual(step: Step) | Arrives(n: nat)

  /** `lost` are the batches of the requests that were given up. */
  datatype Late = Late(w: World, lost: seq<seq<nat>>)

  /** A batch comes in late: the receiver stores what it does not know, without an answer. */
  ghost function Arrived(w: World, batch: seq<nat>): World {
    w.(log := Receive(w.accepted, w.log, batch), unanswered := w.unanswered + Elements(batch))
  }

  ghost function NextLate(c: Config, s: Late, step: LateStep): Late {
    match step
    case Usual(step) =>
      Late(Next(c, s.w, step),
           if step == DoReply(RequestLost) && s.w.buf.pump.Posting? then s.lost + [s.w.buf.pump.batch] else s.lost)
    case Arrives(n) => if n < |s.lost| then s.(w := Arrived(s.w, s.lost[n])) else s
  }

  ghost function RunLate(c: Config, steps: seq<LateStep>): Late {
    if steps == [] then Late(START, [])
    else NextLate(c, RunLate(c, steps[..|steps| - 1]), steps[|steps| - 1])
  }

  /** The receiver does not know the event, and stored newer ones. */
  ghost predicate Behind(w: World, t: nat) {
    t < |w.accepted| && !KnownId(w.accepted, w.log, w.accepted[t].id) && exists i :: 0 <= i < |w.log| && w.log[i] >= t
  }

  /** No event of the batch that was evicted or refused comes in behind a newer one. */
  ghost predicate Harmless(w: World, batch: seq<nat>) {
    forall i :: 0 <= i < |batch| && (batch[i] in w.evicted || batch[i] in w.refused) ==> !Behind(w, batch[i])
  }

  // ----- what every step keeps -----

  /** A batch given up: accepted events in order, with everything queued that is not newer. */
  ghost predicate WasFront(w: World, batch: seq<nat>) {
    && Increasing(batch)
    && (forall i :: 0 <= i < |batch| ==> batch[i] < |w.accepted|)
    && forall q, i :: q in Tickets(w.buf.queue) && 0 <= i < |batch| && q <= batch[i] ==> q in batch
  }

  ghost predicate LateInv(c: Config, s: Late) {
    Inv(c, s.w) && forall n :: 0 <= n < |s.lost| ==> WasFront(s.w, s.lost[n])
  }

  lemma FatesGrow(c: Config, w: World, step: Step)
    ensures var w' := Next(c, w, step);
            w.acked <= w'.acked && w.evicted <= w'.evicted && w.refused <= w'.refused && w.accepted <= w'.accepted
  {
  }

  /** What is queued after a step was queued before, or is newly accepted. */
  lemma QueuedBefore(c: Config, w: World, step: Step, t: nat)
    requires Inv(c, w) && t in Tickets(Next(c, w, step).buf.queue) && t < |w.accepted|
    ensures t in Tickets(w.buf.queue)
  {
    NextKeeps(c, w, step);
    FatesGrow(c, w, step);
    assert Partition(w) && Partition(Next(c, w, step));
  }

  lemma FrontStays(c: Config, w: World, step: Step, batch: seq<nat>)
    requires Inv(c, w) && WasFront(w, batch)
    ensures WasFront(Next(c, w, step), batch)
  {
    FatesGrow(c, w, step);
    var w' := Next(c, w, step);
    forall q, i | q in Tickets(w'.buf.queue) && 0 <= i < |batch| && q <= batch[i] ensures q in batch {
      QueuedBefore(c, w, step, q);
    }
  }

  lemma TicketPlace(q: seq<Entry>, t: nat) returns (k: nat)
    requires t in Tickets(q)
    ensures k < |q| && q[k].ticket == t
  {
    k :| 0 <= k < |TicketsOf(q)| && TicketsOf(q)[k] == t;
  }

  /** The batch being posted is the front of the queue. */
  lemma PostedIsFront(c: Config, w: World)
    requires Inv(c, w) && w.buf.pump.Posting?
    ensures WasFront(w, w.buf.pump.batch)
  {
    var batch, queue := w.buf.pump.batch, w.buf.queue;
    forall q, i | q in Tickets(queue) && 0 <= i < |batch| && q <= batch[i] ensures q in batch {
      var k := TicketPlace(queue, q);
      assert k <= i;
      assert batch[k] == q;
    }
  }

  lemma UsualKeeps(c: Config, s: Late, step: Step)
    requires LateInv(c, s)
    ensures LateInv(c, NextLate(c, s, Usual(step)))
  {
    var s' := NextLate(c, s, Usual(step));
    NextKeeps(c, s.w, step);
    forall n | 0 <= n < |s'.lost| ensures WasFront(s'.w, s'.lost[n]) {
      if n == |s.lost| { PostedIsFront(c, s.w); }
      FrontStays(c, s.w, step, s'.lost[n]);
    }
  }

  /** Every event of a harmless batch is known to the receiver or newer than all it stored. */
  lemma HarmlessDeliverable(c: Config, w: World, batch: seq<nat>)
    requires Inv(c, w) && WasFront(w, batch) && Harmless(w, batch)
    ensures Deliverable(w.accepted, w.log, batch)
  {
    forall i | 0 <= i < |batch|
      ensures KnownId(w.accepted, w.log, w.accepted[batch[i]].id)
              || forall k :: 0 <= k < |w.log| ==> w.log[k] < batch[i]
    {
      var t := batch[i];
      assert Partition(w);
      if t in Tickets(w.buf.queue) {
        var k := TicketPlace(w.buf.queue, t);
        assert NewOrKnown(w.accepted, w.log, w.buf.queue[k]);
      } else if t in w.evicted || t in w.refused {
        assert !Behind(w, t);
      }
    }
  }

  lemma ArrivalLog(c: Config, w: World, batch: seq<nat>)
    requires Inv(c, w) && WasFront(w, batch) && Harmless(w, batch)
    ensures LogOk(Arrived(w, batch))
  {
    HarmlessDeliverable(c, w, batch);
    ReceiveKeepsOrder(w.accepted, w.log, batch);
    var w' := Arrived(w, batch);
    forall i | 0 <= i < |w'.log|
      ensures w'.log[i] < |w'.accepted| && (w'.log[i] in w'.acked || w'.log[i] in w'.unanswered) {
      assert w'.log[i] in w'.log;
    }
    forall t: nat | t in w'.acked + w'.unanswered
      ensures t < |w'.accepted| && KnownId(w'.accepted, w'.log, w'.accepted[t].id)
    {
      if t in w.acked + w.unanswered {
        KnownStays(w.accepted, w.log, w.accepted, w'.log, w.accepted[t].id);
      } else {
        var i :| 0 <= i < |batch| && batch[i] == t;
      }
    }
    forall i | 0 <= i < |w.buf.queue| ensures NewOrKnown(w'.accepted, w'.log, w.buf.queue[i]) {
      QueuedAfterArrival(c, w, batch, i);
    }
  }

  /** An entry still queued is known after the arrival, or newer than the log and the batch. */
  lemma QueuedAfterArrival(c: Config, w: World, batch: seq<nat>, i: nat)
    requires Inv(c, w) && WasFront(w, batch) && Deliverable(w.accepted, w.log, batch) && i < |w.buf.queue|
    ensures NewOrKnown(w.accepted, Receive(w.accepted, w.log, batch), w.buf.queue[i])
  {
    var log', e := Receive(w.accepted, w.log, batch), w.buf.queue[i];
    ReceiveKeepsOrder(w.accepted, w.log, batch);
    assert TicketsOf(w.buf.queue)[i] == e.ticket;
    assert NewOrKnown(w.accepted, w.log, e) && w.accepted[e.ticket] == e.event;
    if e.ticket in batch {
      var k :| 0 <= k < |batch| && batch[k] == e.ticket;
    } else if KnownId(w.accepted, w.log, e.event.id) {
      KnownStays(w.accepted, w.log, w.accepted, log', e.event.id);
    } else {
      forall k | 0 <= k < |log'| ensures log'[k] < e.ticket {
        assert log'[k] in log';
        if log'[k] in batch {
          var m :| 0 <= m < |batch| && batch[m] == log'[k];
        }
      }
    }
  }

  lemma ArrivalKeeps(c: Config, s: Late, n: nat)
    requires LateInv(c, s) && n < |s.lost| && Harmless(s.w, s.lost[n])
    ensures LateInv(c, NextLate(c, s, Arrives(n)))
  {
    ArrivalLog(c, s.w, s.lost[n]);
  }

  // ----- every run with late arrivals -----

  ghost predicate HarmlessStep(s: Late, step: LateStep) {
    step.Arrives? && step.n < |s.lost| ==> Harmless(s.w, s.lost[step.n])
  }

  ghost predicate AllHarmless(c: Config, steps: seq<LateStep>) {
    steps == [] || (
      var init := steps[..|steps| - 1];
      AllHarmless(c, init) && HarmlessStep(RunLate(c, init), steps[|steps| - 1]))
  }

  /**
   While every late arrival is harmless, all that holds of runs without late arrivals holds: the log is in accept order
   and without repeats, and the fates of the events and the log are as in Conservation.
   */
  lemma {:induction false} LateRunKeeps(c: Config, steps: seq<LateStep>)
    requires AllHarmless(c, steps)
    ensures LateInv(c, RunLate(c, steps))
  {
    if steps == [] {
      RunKeeps(c, []);
      assert Run(c, START, []) == START;
    } else {
      var init, last := steps[..|steps| - 1], steps[|steps| - 1];
      LateRunKeeps(c, init);
      var s := RunLate(c, init);
      match last
      case Usual(step) => UsualKeeps(c, s, step);
      case Arrives(n) => if n < |s.lost| { ArrivalKeeps(c, s, n); }
    }
  }

  /** The log only grows under a batch, and holds every event of it that was not known, when ids are distinct. */
  lemma {:induction false} ReceiveAppends(accepted: seq<Event>, log: seq<nat>, batch: seq<nat>, i: nat)
    requires DistinctIds(accepted) && i < |batch| && batch[i] < |accepted|
    requires !KnownId(accepted, log, accepted[batch[i]].id)
    ensures var log' := Receive(accepted, log, batch);
            log <= log' && exists k :: |log| <= k < |log'| && log'[k] == batch[i]
    decreases |batch|
  {
    var t := batch[0];
    var mid := Take(accepted, log, t);
    ReceiveGrows(accepted, mid, batch[1..]);
    if i == 0 {
      assert mid == log + [t];
      assert Receive(accepted, log, batch)[|log|] == t;
    } else if t == batch[i] {
      assert Receive(accepted, log, batch)[|log|] == t;
    } else {
      assert !KnownId(accepted, mid, accepted[batch[i]].id);
      ReceiveAppends(accepted, mid, batch[1..], i - 1);
    }
  }

  lemma {:induction false} ReceiveGrows(accepted: seq<Event>, log: seq<nat>, batch: seq<nat>)
    ensures log <= Receive(accepted, log, batch)
    decreases |batch|
  {
    if batch != [] {
      ReceiveGrows(accepted, Take(accepted, log, batch[0]), batch[1..]);
    }
  }

  /**
   When no two accepted events share an id, a late arrival keeps the log in order if and only if no evicted or refused
   event of it comes in behind a newer one.
   */
  lemma LateOrder(c: Config, s: Late, n: nat)
    requires LateInv(c, s) && n < |s.lost| && DistinctIds(s.w.accepted)
    ensures Increasing(NextLate(c, s, Arrives(n)).w.log) <==> Harmless(s.w, s.lost[n])
  {
    var w, batch := s.w, s.lost[n];
    if Harmless(w, batch) {
      ArrivalKeeps(c, s, n);
    } else {
      var i :| 0 <= i < |batch| && (batch[i] in w.evicted || batch[i] in w.refused) && Behind(w, batch[i]);
      BreaksOrder(w, batch, i);
    }
  }

  lemma BreaksOrder(w: World, batch: seq<nat>, i: nat)
    requires DistinctIds(w.accepted) && i < |batch| && Behind(w, batch[i])
    ensures !Increasing(Receive(w.accepted, w.log, batch))
  {
    ReceiveAppends(w.accepted, w.log, batch, i);
    var log' := Receive(w.accepted, w.log, batch);
    var j :| 0 <= j < |w.log| && w.log[j] >= batch[i];
    var k :| |w.log| <= k < |log'| && log'[k] == batch[i];
    assert log'[j] == w.log[j];
  }

  lemma StepGrows(c: Config, s: Late, step: LateStep)
    ensures var s' := NextLate(c, s, step); s.w.log <= s'.w.log && s.w.accepted <= s'.w.accepted
  {
    match step
    case Usual(step) =>
      if s.w.buf.pump.Posting? {
        ReceiveGrows(s.w.accepted, s.w.log, s.w.buf.pump.batch);
      }
    case Arrives(n) =>
      if n < |s.lost| {
        ReceiveGrows(s.w.accepted, s.w.log, s.lost[n]);
      }
  }

  /** An arrival that is not harmless leaves the log out of order for good, when ids are distinct. */
  lemma {:induction false} OrderMeansHarmless(c: Config, steps: seq<LateStep>)
    requires DistinctIds(RunLate(c, steps).w.accepted) && Increasing(RunLate(c, steps).w.log)
    ensures AllHarmless(c, steps)
  {
    if steps != [] {
      var init, last := steps[..|steps| - 1], steps[|steps| - 1];
      var s := RunLate(c, init);
      StepGrows(c, s, last);
      OrderMeansHarmless(c, init);
      LateRunKeeps(c, init);
      if last.Arrives? && last.n < |s.lost| {
        LateOrder(c, s, last.n);
      }
    }
  }

  /**
   In every run whose late arrivals are harmless the log is in accept order without repeats, and each event has one
   fate. When no two accepted events share an id, the log is in accept order in no other run.
   */
  lemma LateReceiverOrder(c: Config, steps: seq<LateStep>)
    ensures var w := RunLate(c, steps).w;
            && (DistinctIds(w.accepted) ==> (Increasing(w.log) <==> AllHarmless(c, steps)))
            && (AllHarmless(c, steps) ==>
                  && Increasing(w.log)
                  && Partition(w)
                  && forall i, j :: 0 <= i < j < |w.log| ==>
                       w.log[i] < |w.accepted| && w.log[j] < |w.accepted|
                         && w.accepted[w.log[i]].id != w.accepted[w.log[j]].id)
  {
    if AllHarmless(c, steps) {
      LateRunKeeps(c, steps);
    } else if DistinctIds(RunLate(c, steps).w.accepted) && Increasing(RunLate(c, steps).w.log) {
      OrderMeansHarmless(c, steps);
    }
  }

  // ----- an arrival that is not harmless -----

  const THOUGHT := Entry(0, HINT, 6, false)
  const NEWER := Entry(1, RESULT, 6, false)

  /** The thought is posted and given up; then it is evicted for a newer event. */
  const GIVEN_UP := Buffer([THOUGHT], 1, 0, false, Sleeping(1), false, false, [])
  const EVICTED := Buffer([NEWER], 2, 1, false, Sleeping(1), false, false, [])
  const REPOSTED := Buffer([NEWER.(inflight := true)], 2, 1, false, Posting([1], 1), false, false, [])
  const STORED := Buffer([], 2, 1, false, Settling, false, false, [])

  lemma PostsThought()
    ensures var w := Next(SMALL, START, DoPush([Parcel(HINT, 6)]));
            && w == World(w.buf, [HINT], [], {}, {}, {}, {}, []) && w.buf.pump == Posting([0], 0)
            && PostEnds(w.buf, RequestLost) == GIVEN_UP
  {
    assert [] + Entries([Parcel(HINT, 6)], 0) == [THOUGHT] && Bytes([THOUGHT]) == 6;
    assert Evict([THOUGHT], 10) == [THOUGHT];
    assert TicketsOf([THOUGHT][..1]) == [0];
    assert SetInflight([THOUGHT], [0], true) == [THOUGHT.(inflight := true)];
    assert SetInflight([THOUGHT.(inflight := true)], [0], false) == [THOUGHT];
    assert Tickets([THOUGHT]) - Tickets([THOUGHT.(inflight := true)]) == {};
  }

  lemma BothQueued(all: seq<Entry>)
    requires all == [THOUGHT, NEWER]
    ensures Tickets(all) - Tickets([NEWER]) == {0}
  {
    assert TicketsOf(all) == [0, 1] && TicketsOf([NEWER]) == [1];
  }

  lemma EvictsThought()
    ensures Push(SMALL, GIVEN_UP, [Parcel(RESULT, 6)]) == EVICTED
    ensures Tickets(GIVEN_UP.queue + Entries([Parcel(RESULT, 6)], 1)) - Tickets(EVICTED.queue) == {0}
  {
    var all := GIVEN_UP.queue + Entries([Parcel(RESULT, 6)], 1);
    assert all == [THOUGHT, NEWER];
    BothQueued(all);
    ThoughtGoes(all);
  }

  lemma StoresNewer()
    ensures WakesUp(EVICTED) == REPOSTED && PostEnds(REPOSTED, Stored) == STORED
    ensures Receive([HINT, RESULT], [], [1]) == [1] && Receive([HINT, RESULT], [1], [0]) == [1, 0]
  {
    assert TicketsOf([NEWER][..1]) == [1] && SetInflight([NEWER], [1], true) == [NEWER.(inflight := true)];
    assert Remove(REPOSTED.queue, [1]) == [];
    assert [1][1..] == [] && [0][1..] == [];
    assert [] + [1] == [1] && [1] + [0] == [1, 0];
  }

  lemma LateRunStep(c: Config, steps: seq<LateStep>, step: LateStep)
    ensures RunLate(c, steps + [step]) == NextLate(c, RunLate(c, steps), step)
  {
    assert (steps + [step])[..|steps|] == steps && (steps + [step])[|steps|] == step;
  }

  /** The thought's request comes in after the newer event was stored: the log is out of order. */
  lemma OutOfOrder()
    ensures exists steps :: RunLate(SMALL, steps).w.log == [1, 0]
  {
    var push1, push2 := Usual(DoPush([Parcel(HINT, 6)])), Usual(DoPush([Parcel(RESULT, 6)]));
    var lost := Usual(DoReply(RequestLost));
    var s1 := [] + [push1];
    var s2 := s1 + [lost];
    var s3 := s2 + [push2];
    LateRunStep(SMALL, [], push1);
    LateRunStep(SMALL, s1, lost);
    LateRunStep(SMALL, s2, push2);
    PostsThought();
    assert RunLate(SMALL, s2) == Late(World(GIVEN_UP, [HINT], [], {}, {}, {}, {}, []), [[0]]);
    EvictsThought();
    var w3 := World(EVICTED, [HINT, RESULT], [], {}, {}, {0}, {}, []);
    assert [HINT] + Events([Parcel(RESULT, 6)]) == [HINT, RESULT];
    assert RunLate(SMALL, s3) == Late(w3, [[0]]);
    FinishOutOfOrder(s3, w3);
  }

  lemma FinishOutOfOrder(s3: seq<LateStep>, w3: World)
    requires RunLate(SMALL, s3) == Late(w3, [[0]]) && w3 == World(EVICTED, [HINT, RESULT], [], {}, {}, {0}, {}, [])
    ensures exists steps :: RunLate(SMALL, steps).w.log == [1, 0]
  {
    var s4 := s3 + [Usual(DoWake)];
    var s5 := s4 + [Usual(DoReply(Stored))];
    var s6 := s5 + [Arrives(0)];
    LateRunStep(SMALL, s3, Usual(DoWake));
    LateRunStep(SMALL, s4, Usual(DoReply(Stored)));
    LateRunStep(SMALL, s5, Arrives(0));
    StoresNewer();
    assert RunLate(SMALL, s4) == Late(w3.(buf := REPOSTED), [[0]]);
    assert RunLate(SMALL, s5).w.log == [1] && RunLate(SMALL, s5).w.accepted == [HINT, RESULT];
    assert RunLate(SMALL, s6).w.log == [1, 0];
  }
}
