/**
 The event buffer against a network that may lose a request, lose the reply after the events were stored, refuse a
 batch, or reject the token, and a receiver that stores each event id once: what became of every accepted event, and
 in which order the receiver stored them, after any sequence of steps.
 */
module EventDelivery {
  import opened EventQueue
  import opened EventShipping

  datatype Step =
    | DoPush(parcels: seq<Parcel>)
    | DoTimer
    | DoReply(reply: Reply)
    | DoWake
    | DoSettle
    | DoFlush
    | DoClose

  /**
   `accepted` lists every accepted event by ticket; `log` is what the receiver stored, in order (tickets).
   The sets say how tickets left the queue: acknowledged, evicted, refused; `unanswered` are tickets of batches that
   were stored although the reply got lost. `resolved` holds the flushes that returned true after waiting.
   */
  datatype World = World(buf: Buffer, accepted: seq<Event>, log: seq<nat>, acked: set<nat>, unanswered: set<nat>,
                         evicted: set<nat>, refused: set<nat>, resolved: seq<nat>)

  ghost const START := World(EMPTY, [], [], {}, {}, {}, {}, [])

  ghost predicate KnownId(accepted: seq<Event>, log: seq<nat>, id: nat) {
    exists i :: 0 <= i < |log| && log[i] < |accepted| && accepted[log[i]].id == id
  }

  /** The receiver takes a batch in order and stores each event whose id it has not stored yet. */
  ghost function Receive(accepted: seq<Event>, log: seq<nat>, batch: seq<nat>): seq<nat>
    decreases |batch|
  {
    if batch == [] then log
    else
      var t := batch[0];
      Receive(accepted,
              if t < |accepted| && !KnownId(accepted, log, accepted[t].id) then log + [t] else log,
              batch[1..])
  }

  function NextBuffer(c: Config, b: Buffer, step: Step): Buffer {
    match step
    case DoPush(parcels) => Push(c, b, parcels)
    case DoTimer => TimerFires(b)
    case DoReply(reply) => PostEnds(b, reply)
    case DoWake => WakesUp(b)
    case DoSettle => Settles(c, b)
    case DoFlush => Flush(b)
    case DoClose => b.(closed := true)
  }

  function Events(parcels: seq<Parcel>): (r: seq<Event>)
    ensures |r| == |parcels| && forall i :: 0 <= i < |r| ==> r[i] == parcels[i].event
  {
    seq(|parcels|, i requires 0 <= i < |parcels| => parcels[i].event)
  }

  ghost function Next(c: Config, w: World, step: Step): World {
    var buf := NextBuffer(c, w.buf, step);
    var resolved := if w.buf.waiters != [] && buf.waiters == [] then w.resolved + w.buf.waiters else w.resolved;
    var w' := w.(buf := buf, resolved := resolved);
    match step
    case DoPush(parcels) =>
      if w.buf.closed || w.buf.fatal then w'
      else
        var all := w.buf.queue + Entries(parcels, w.buf.next);
        w'.(accepted := w.accepted + Events(parcels), evicted := w.evicted + (Tickets(all) - Tickets(buf.queue)))
    case DoReply(reply) =>
      if !w.buf.pump.Posting? then w'
      else
        var batch := w.buf.pump.batch;
        var tickets := Elements(batch);
        var log := if reply.Stored? || reply.ReplyLost? then Receive(w.accepted, w.log, batch) else w.log;
        match reply {
          case Stored => w'.(log := log, acked := w.acked + tickets)
          case ReplyLost => w'.(log := log, unanswered := w.unanswered + tickets)
          case Refused => w'.(refused := w.refused + tickets)
          case _ => w'
        }
    case _ => w'
  }

  ghost function Run(c: Config, w: World, steps: seq<Step>): World
    decreases |steps|
  {
    if steps == [] then w else Next(c, Run(c, w, steps[..|steps| - 1]), steps[|steps| - 1])
  }

  // ----- the whole invariant -----

  ghost predicate Increasing(s: seq<nat>) {
    forall i, j :: 0 <= i < j < |s| ==> s[i] < s[j]
  }

  /** Each of the tickets 0..n-1, and no other, is in exactly one of the four sets. */
  ghost predicate OneFate(n: nat, queued: set<nat>, acked: set<nat>, evicted: set<nat>, refused: set<nat>) {
    forall t: nat ::
      && (t < n <==> t in queued || t in acked || t in evicted || t in refused)
      && (t in queued ==> t !in acked && t !in evicted && t !in refused)
      && (t in acked ==> t !in evicted && t !in refused)
      && (t in evicted ==> t !in refused)
  }

  ghost predicate Partition(w: World) {
    OneFate(|w.accepted|, Tickets(w.buf.queue), w.acked, w.evicted, w.refused)
  }

  /** The entry is known to the receiver, or newer than everything the receiver stored. */
  ghost predicate NewOrKnown(accepted: seq<Event>, log: seq<nat>, e: Entry) {
    KnownId(accepted, log, e.event.id) || forall i :: 0 <= i < |log| ==> log[i] < e.ticket
  }

  ghost predicate LogOk(w: World) {
    && Increasing(w.log)
    && (forall i :: 0 <= i < |w.log| ==> w.log[i] < |w.accepted| && (w.log[i] in w.acked || w.log[i] in w.unanswered))
    && (forall t: nat :: t in w.acked + w.unanswered ==>
         t < |w.accepted| && KnownId(w.accepted, w.log, w.accepted[t].id))
    && (forall i, j :: 0 <= i < j < |w.log| ==> w.accepted[w.log[i]].id != w.accepted[w.log[j]].id)
    && (forall i :: 0 <= i < |w.buf.queue| ==> NewOrKnown(w.accepted, w.log, w.buf.queue[i]))
  }

  ghost predicate Inv(c: Config, w: World) {
    && Good(c, w.buf)
    && w.buf.next == |w.accepted|
    && (forall i :: 0 <= i < |w.buf.queue| ==> w.accepted[w.buf.queue[i].ticket] == w.buf.queue[i].event)
    && Partition(w)
    && LogOk(w)
    && w.buf.dropped == |w.evicted|
    && (forall n :: n in w.resolved ==> n <= w.buf.next)
    && forall n, i :: n in w.resolved && 0 <= i < |w.buf.queue| ==> n <= w.buf.queue[i].ticket
  }

  // ----- every step keeps the invariant -----

  /** The same entries up to their in-flight marks. */
  ghost predicate SameEntries(q: seq<Entry>, q': seq<Entry>) {
    |q| == |q'| && forall i :: 0 <= i < |q| ==> q[i].ticket == q'[i].ticket && q[i].event == q'[i].event
  }

  lemma SameTickets(q: seq<Entry>, q': seq<Entry>)
    requires SameEntries(q, q')
    ensures Tickets(q) == Tickets(q')
  {
    assert TicketsOf(q) == TicketsOf(q');
  }

  lemma TicketsConcat(a: seq<Entry>, b: seq<Entry>)
    ensures Tickets(a + b) == Tickets(a) + Tickets(b)
  {
    assert TicketsOf(a + b) == TicketsOf(a) + TicketsOf(b);
  }

  lemma {:induction false} CountIncreasing(s: seq<nat>)
    requires Increasing(s)
    ensures |Elements(s)| == |s|
  {
    if s != [] {
      var init, last := s[..|s| - 1], s[|s| - 1];
      CountIncreasing(init);
      assert Elements(s) == Elements(init) + {last} by {
        assert s == init + [last];
      }
      assert last !in Elements(init);
    }
  }

  lemma TicketsCount(q: seq<Entry>)
    requires Sorted(q)
    ensures |Tickets(q)| == |q|
  {
    var s := TicketsOf(q);
    assert Increasing(s);
    CountIncreasing(s);
  }

  lemma TicketsSubset(q: seq<Entry>, r: seq<Entry>)
    requires forall e :: e in r ==> e in q
    ensures Tickets(r) <= Tickets(q)
  {
    forall i | 0 <= i < |r| ensures TicketsOf(r)[i] in TicketsOf(q) {
      assert r[i] in q;
      var j :| 0 <= j < |q| && q[j] == r[i];
      assert TicketsOf(q)[j] == r[i].ticket;
    }
  }

  lemma KnownStays(accepted: seq<Event>, log: seq<nat>, accepted': seq<Event>, log': seq<nat>, id: nat)
    requires accepted <= accepted' && log <= log'
    requires KnownId(accepted, log, id)
    ensures KnownId(accepted', log', id)
  {
    var i :| 0 <= i < |log| && log[i] < |accepted| && accepted[log[i]].id == id;
    assert log'[i] == log[i] && accepted'[log'[i]] == accepted[log[i]];
  }

  ghost predicate LogSound(accepted: seq<Event>, log: seq<nat>) {
    && Increasing(log)
    && (forall i :: 0 <= i < |log| ==> log[i] < |accepted|)
    && forall i, j :: 0 <= i < j < |log| ==> accepted[log[i]].id != accepted[log[j]].id
  }

  /** Every ticket of the batch is known to the receiver, or newer than all it stored. */
  ghost predicate Deliverable(accepted: seq<Event>, log: seq<nat>, batch: seq<nat>) {
    && Increasing(batch)
    && forall i :: 0 <= i < |batch| ==>
         && batch[i] < |accepted|
         && (KnownId(accepted, log, accepted[batch[i]].id) || forall k :: 0 <= k < |log| ==> log[k] < batch[i])
  }

  /** The receiver looked at ticket t: stored it if its id was new. */
  ghost function Take(accepted: seq<Event>, log: seq<nat>, t: nat): seq<nat> {
    if t < |accepted| && !KnownId(accepted, log, accepted[t].id) then log + [t] else log
  }

  lemma TakeOne(accepted: seq<Event>, log: seq<nat>, t: nat)
    requires LogSound(accepted, log) && Deliverable(accepted, log, [t]) && t < |accepted|
    ensures LogSound(accepted, Take(accepted, log, t)) && KnownId(accepted, Take(accepted, log, t), accepted[t].id)
  {
    assert [t][0] == t;
    var log1 := Take(accepted, log, t);
    if log1 != log {
      assert log1[|log|] == t;
      forall i | 0 <= i < |log| ensures accepted[log[i]].id != accepted[t].id {
        assert log[i] < |accepted|;
      }
    }
  }

  lemma TakeKeepsDeliverable(accepted: seq<Event>, log: seq<nat>, batch: seq<nat>)
    requires batch != [] && Deliverable(accepted, log, batch)
    ensures Deliverable(accepted, Take(accepted, log, batch[0]), batch[1..])
  {
    var log1 := Take(accepted, log, batch[0]);
    forall i | 0 <= i < |batch[1..]| ensures
        KnownId(accepted, log1, accepted[batch[1..][i]].id) || forall k :: 0 <= k < |log1| ==> log1[k] < batch[1..][i] {
      var id := accepted[batch[i + 1]].id;
      if KnownId(accepted, log, id) { KnownStays(accepted, log, accepted, log1, id); }
    }
  }

  lemma {:induction false} ReceiveKeepsOrder(accepted: seq<Event>, log: seq<nat>, batch: seq<nat>)
    requires LogSound(accepted, log) && Deliverable(accepted, log, batch)
    ensures var log' := Receive(accepted, log, batch);
            && LogSound(accepted, log')
            && log <= log'
            && (forall x :: x in log' ==> x in log || x in batch)
            && forall i :: 0 <= i < |batch| ==> KnownId(accepted, log', accepted[batch[i]].id)
    decreases |batch|
  {
    if batch != [] {
      var t := batch[0];
      var log1 := Take(accepted, log, t);
      assert Deliverable(accepted, log, [t]);
      TakeOne(accepted, log, t);
      TakeKeepsDeliverable(accepted, log, batch);
      ReceiveKeepsOrder(accepted, log1, batch[1..]);
      var log' := Receive(accepted, log1, batch[1..]);
      KnownStays(accepted, log1, accepted, log', accepted[t].id);
      forall i | 0 <= i < |batch| ensures KnownId(accepted, log', accepted[batch[i]].id) {
        if i > 0 { assert batch[i] == batch[1..][i - 1]; }
      }
    }
  }

  /** A step that touches neither the entries nor the receiver keeps everything. */
  lemma QuietStep(c: Config, w: World, w': World)
    requires Inv(c, w) && Good(c, w'.buf)
    requires w' == w.(buf := w'.buf, resolved := w'.resolved)
    requires SameEntries(w.buf.queue, w'.buf.queue)
    requires w'.buf.next == w.buf.next && w'.buf.dropped == w.buf.dropped
    requires forall n :: n in w'.resolved ==> n <= w.buf.next
    requires w'.resolved == w.resolved || w'.buf.queue == []
    ensures Inv(c, w')
  {
    SameTickets(w.buf.queue, w'.buf.queue);
    forall i | 0 <= i < |w'.buf.queue| ensures NewOrKnown(w'.accepted, w'.log, w'.buf.queue[i]) {
      assert NewOrKnown(w.accepted, w.log, w.buf.queue[i]);
    }
  }

  lemma RunLoopQuiet(b: Buffer, attempt: nat)
    ensures var b' := RunLoop(b, attempt);
            && SameEntries(b.queue, b'.queue) && b'.next == b.next && b'.dropped == b.dropped
            && (b'.waiters == b.waiters || b'.queue == [])
  {
  }

  lemma PushKeeps(c: Config, w: World, parcels: seq<Parcel>)
    requires Inv(c, w)
    ensures Inv(c, Next(c, w, DoPush(parcels)))
  {
    PushGood(c, w.buf, parcels);
    if w.buf.closed || w.buf.fatal {
      QuietStep(c, w, Next(c, w, DoPush(parcels)));
    } else {
      PushQuiet(c, w.buf, parcels);
      AcceptedInv(c, w, parcels, Next(c, w, DoPush(parcels)));
    }
  }

  lemma PushQuiet(c: Config, b: Buffer, parcels: seq<Parcel>)
    requires !b.closed && !b.fatal
    ensures var mid, b' := Accept(c, b, parcels), Push(c, b, parcels);
            && SameEntries(mid.queue, b'.queue) && mid.next == b'.next && mid.dropped == b'.dropped
            && (b'.waiters == b.waiters || b'.queue == [])
  {
    var mid := Accept(c, b, parcels);
    RunLoopQuiet(mid.(timer := false), 0);
  }

  lemma AcceptedInv(c: Config, w: World, parcels: seq<Parcel>, w': World)
    requires Inv(c, w) && Good(c, w'.buf)
    requires var all := w.buf.queue + Entries(parcels, w.buf.next); var mid := Accept(c, w.buf, parcels);
             && w' == w.(buf := w'.buf, accepted := w.accepted + Events(parcels),
                         evicted := w.evicted + (Tickets(all) - Tickets(w'.buf.queue)), resolved := w'.resolved)
             && SameEntries(mid.queue, w'.buf.queue) && mid.next == w'.buf.next && mid.dropped == w'.buf.dropped
             && (forall n :: n in w'.resolved ==> n <= w.buf.next)
             && (w'.resolved == w.resolved || w'.buf.queue == [])
    ensures Inv(c, w')
  {
    var all := w.buf.queue + Entries(parcels, w.buf.next);
    var mid := Accept(c, w.buf, parcels);
    AppendEntries(c, w.buf, parcels);
    EvictOutcome(all, c.maxBytes);
    SameTickets(mid.queue, w'.buf.queue);
    PushPartition(c, w, parcels);
    PushLog(c, w, parcels, w'.(buf := mid));
    SameLog(w'.(buf := mid), w');
    StillAfter(w, parcels, mid.queue, w'.buf.queue);
  }

  /** What is queued after a push was queued before or is newer, so flushes that returned stay right. */
  lemma StillAfter(w: World, parcels: seq<Parcel>, kept: seq<Entry>, q: seq<Entry>)
    requires forall n :: n in w.resolved ==> n <= w.buf.next
    requires forall n, i :: n in w.resolved && 0 <= i < |w.buf.queue| ==> n <= w.buf.queue[i].ticket
    requires (forall e :: e in kept ==> e in w.buf.queue + Entries(parcels, w.buf.next)) && SameEntries(kept, q)
    ensures forall n, i :: n in w.resolved && 0 <= i < |q| ==> n <= q[i].ticket
  {
    forall n, i | n in w.resolved && 0 <= i < |q| ensures n <= q[i].ticket {
      assert kept[i] in w.buf.queue + Entries(parcels, w.buf.next);
    }
  }

  lemma SameLog(w: World, w': World)
    requires LogOk(w) && w == w'.(buf := w.buf) && SameEntries(w.buf.queue, w'.buf.queue)
    ensures LogOk(w')
  {
    forall i | 0 <= i < |w'.buf.queue| ensures NewOrKnown(w'.accepted, w'.log, w'.buf.queue[i]) {
      assert NewOrKnown(w.accepted, w.log, w.buf.queue[i]);
    }
  }

  /** Accepting new tickets and evicting some of the queued ones keeps the partition. */
  lemma SplitOff(n: nat, m: nat, queued: set<nat>, acked: set<nat>, evicted: set<nat>, refused: set<nat>,
                 added: set<nat>, kept: set<nat>)
    requires OneFate(n, queued, acked, evicted, refused)
    requires forall t: nat :: t in added <==> n <= t < n + m
    requires kept <= queued + added
    ensures var gone := queued + added - kept;
            && OneFate(n + m, kept, acked, evicted + gone, refused)
            && |evicted + gone| == |evicted| + |queued + added| - |kept|
  {
    var gone := queued + added - kept;
    assert evicted !! gone;
    assert kept + gone == queued + added;
  }

  lemma EntryTickets(parcels: seq<Parcel>, next: nat)
    ensures forall t: nat :: t in Tickets(Entries(parcels, next)) <==> next <= t < next + |parcels|
  {
    var tickets := TicketsOf(Entries(parcels, next));
    forall t: nat ensures t in tickets <==> next <= t < next + |parcels| {
      if next <= t < next + |parcels| {
        assert tickets[t - next] == t;
      }
    }
  }

  lemma PushPartition(c: Config, w: World, parcels: seq<Parcel>)
    requires Good(c, w.buf) && w.buf.next == |w.accepted| && Partition(w)
    ensures var all := w.buf.queue + Entries(parcels, w.buf.next);
            var kept := Evict(all, c.maxBytes);
            var gone := Tickets(all) - Tickets(kept);
            && OneFate(|w.accepted| + |parcels|, Tickets(kept), w.acked, w.evicted + gone, w.refused)
            && |w.evicted + gone| == |w.evicted| + (|all| - |kept|)
  {
    var entries := Entries(parcels, w.buf.next);
    var all := w.buf.queue + entries;
    var kept := Evict(all, c.maxBytes);
    assert Sorted(all) && Sorted(kept) && Tickets(kept) <= Tickets(all) by {
      AppendEntries(c, w.buf, parcels);
      EvictOutcome(all, c.maxBytes);
      TicketsSubset(all, kept);
    }
    TicketsConcat(w.buf.queue, entries);
    TicketsCount(all);
    TicketsCount(kept);
    EntryTickets(parcels, w.buf.next);
    SplitOff(|w.accepted|, |parcels|, Tickets(w.buf.queue), w.acked, w.evicted, w.refused, Tickets(entries),
      Tickets(kept));
  }

  lemma PushLog(c: Config, w: World, parcels: seq<Parcel>, w': World)
    requires Inv(c, w)
    requires w' == w.(buf := w'.buf, accepted := w.accepted + Events(parcels), evicted := w'.evicted,
        resolved := w'.resolved)
    requires forall e :: e in w'.buf.queue ==> e in w.buf.queue + Entries(parcels, w.buf.next)
    ensures LogOk(w')
    ensures forall i :: 0 <= i < |w'.buf.queue| ==>
      w'.buf.queue[i].ticket < |w'.accepted| && w'.accepted[w'.buf.queue[i].ticket] == w'.buf.queue[i].event
  {
    var kept := w'.buf.queue;
    var accepted := w'.accepted;
    forall t: nat | t in w.acked + w.unanswered ensures t < |accepted| && KnownId(accepted, w.log, accepted[t].id) {
      KnownStays(w.accepted, w.log, accepted, w.log, w.accepted[t].id);
    }
    forall i | 0 <= i < |kept| ensures
        kept[i].ticket < |accepted| && accepted[kept[i].ticket] == kept[i].event
          && NewOrKnown(accepted, w.log, kept[i]) {
      assert kept[i] in w.buf.queue + Entries(parcels, w.buf.next);
      PushedEntry(c, w, parcels, kept[i]);
    }
  }

  lemma PushedEntry(c: Config, w: World, parcels: seq<Parcel>, e: Entry)
    requires Inv(c, w) && e in w.buf.queue + Entries(parcels, w.buf.next)
    ensures var accepted := w.accepted + Events(parcels);
            e.ticket < |accepted| && accepted[e.ticket] == e.event && NewOrKnown(accepted, w.log, e)
  {
    var accepted := w.accepted + Events(parcels);
    if e in w.buf.queue {
      var j :| 0 <= j < |w.buf.queue| && w.buf.queue[j] == e;
      assert NewOrKnown(w.accepted, w.log, w.buf.queue[j]);
      if KnownId(w.accepted, w.log, e.event.id) {
        KnownStays(w.accepted, w.log, accepted, w.log, e.event.id);
      }
    }
  }

  lemma BatchDeliverable(c: Config, w: World)
    requires Inv(c, w) && w.buf.pump.Posting?
    ensures Deliverable(w.accepted, w.log, w.buf.pump.batch) && LogSound(w.accepted, w.log)
  {
    var batch := w.buf.pump.batch;
    forall i | 0 <= i < |batch| ensures
        && batch[i] < |w.accepted|
        && (KnownId(w.accepted, w.log, w.accepted[batch[i]].id)
            || forall k :: 0 <= k < |w.log| ==> w.log[k] < batch[i]) {
      assert w.buf.queue[i].ticket == batch[i];
      assert NewOrKnown(w.accepted, w.log, w.buf.queue[i]);
    }
  }

  /** An entry still queued after the receiver took the batch is known to it or newer than all it stored. */
  lemma QueuedAfterReceive(c: Config, w: World, i: nat)
    requires Inv(c, w) && w.buf.pump.Posting? && i < |w.buf.queue|
    ensures NewOrKnown(w.accepted, Receive(w.accepted, w.log, w.buf.pump.batch), w.buf.queue[i])
  {
    var batch, e := w.buf.pump.batch, w.buf.queue[i];
    BatchDeliverable(c, w);
    ReceiveKeepsOrder(w.accepted, w.log, batch);
    var log' := Receive(w.accepted, w.log, batch);
    if i < |batch| {
      assert KnownId(w.accepted, log', w.accepted[batch[i]].id);
    } else if KnownId(w.accepted, w.log, e.event.id) {
      KnownStays(w.accepted, w.log, w.accepted, log', e.event.id);
    } else {
      assert NewOrKnown(w.accepted, w.log, w.buf.queue[i]);
      forall k | 0 <= k < |log'| ensures log'[k] < e.ticket {
        assert log'[k] in w.log || log'[k] in batch;
      }
    }
  }

  /** What the receiver knew and what the batch brings is known after the batch. */
  lemma KnownAfterReceive(c: Config, w: World, t: nat)
    requires Inv(c, w) && w.buf.pump.Posting? && t in w.acked + w.unanswered + Elements(w.buf.pump.batch)
    ensures t < |w.accepted|
    ensures KnownId(w.accepted, Receive(w.accepted, w.log, w.buf.pump.batch), w.accepted[t].id)
  {
    var batch := w.buf.pump.batch;
    BatchDeliverable(c, w);
    ReceiveKeepsOrder(w.accepted, w.log, batch);
    if t in batch {
      var i :| 0 <= i < |batch| && batch[i] == t;
    } else {
      KnownStays(w.accepted, w.log, w.accepted, Receive(w.accepted, w.log, batch), w.accepted[t].id);
    }
  }

  /** What the log of the receiver holds, and that all the tickets in `stored` are known to it. */
  ghost predicate LogHolds(accepted: seq<Event>, log: seq<nat>, stored: set<nat>) {
    && LogSound(accepted, log)
    && (forall i :: 0 <= i < |log| ==> log[i] in stored)
    && forall t: nat :: t in stored ==> t < |accepted| && KnownId(accepted, log, accepted[t].id)
  }

  lemma ReceivedLog(c: Config, w: World)
    requires Inv(c, w) && w.buf.pump.Posting?
    ensures var batch := w.buf.pump.batch;
            LogHolds(w.accepted, Receive(w.accepted, w.log, batch), w.acked + w.unanswered + Elements(batch))
  {
    var batch := w.buf.pump.batch;
    var log', stored := Receive(w.accepted, w.log, batch), w.acked + w.unanswered + Elements(batch);
    BatchDeliverable(c, w);
    ReceiveKeepsOrder(w.accepted, w.log, batch);
    forall i | 0 <= i < |log'| ensures log'[i] in stored {
      assert log'[i] in w.log || log'[i] in batch;
    }
    forall t: nat | t in stored ensures t < |w.accepted| && KnownId(w.accepted, log', w.accepted[t].id) {
      KnownAfterReceive(c, w, t);
    }
  }

  lemma LogHoldsOk(w: World)
    requires LogHolds(w.accepted, w.log, w.acked + w.unanswered)
    requires forall i :: 0 <= i < |w.buf.queue| ==> NewOrKnown(w.accepted, w.log, w.buf.queue[i])
    ensures LogOk(w)
  {
  }

  /** The log after the batch was stored; the reply came or got lost. */
  lemma StoredLog(c: Config, w: World, w': World, first: nat)
    requires Inv(c, w) && w.buf.pump.Posting?
    requires w'.accepted == w.accepted && w'.log == Receive(w.accepted, w.log, w.buf.pump.batch)
    requires w'.acked + w'.unanswered == w.acked + w.unanswered + Elements(w.buf.pump.batch)
    requires first <= |w.buf.queue| && SameEntries(w.buf.queue[first..], w'.buf.queue)
    ensures LogOk(w')
  {
    ReceivedLog(c, w);
    forall i | 0 <= i < |w'.buf.queue| ensures NewOrKnown(w'.accepted, w'.log, w'.buf.queue[i]) {
      assert w'.buf.queue[i].ticket == w.buf.queue[first..][i].ticket;
      QueuedAfterReceive(c, w, first + i);
    }
    LogHoldsOk(w');
  }

  lemma FrontTickets(c: Config, b: Buffer)
    requires Good(c, b) && b.pump.Posting?
    ensures Tickets(b.queue) == Elements(b.pump.batch) + Tickets(b.queue[|b.pump.batch|..])
    ensures Elements(b.pump.batch) !! Tickets(b.queue[|b.pump.batch|..])
  {
    var n := |b.pump.batch|;
    assert b.queue == b.queue[..n] + b.queue[n..];
    TicketsConcat(b.queue[..n], b.queue[n..]);
    assert TicketsOf(b.queue[..n]) == b.pump.batch;
    forall t | t in b.pump.batch ensures t !in TicketsOf(b.queue[n..]) {
      var i :| 0 <= i < n && b.pump.batch[i] == t;
      assert b.queue[i].ticket == t;
    }
  }

  /** A batch that leaves the queue moves, as a whole, to one of the other fates. */
  lemma BatchGone(c: Config, w: World, w': World)
    requires Inv(c, w) && w.buf.pump.Posting? && Good(c, w'.buf)
    requires w' == w.(buf := w'.buf, log := w'.log, acked := w'.acked, refused := w'.refused, resolved := w'.resolved)
    requires SameEntries(w.buf.queue[|w.buf.pump.batch|..], w'.buf.queue)
    requires w'.buf.next == w.buf.next && w'.buf.dropped == w.buf.dropped
    requires var moved := Elements(w.buf.pump.batch);
             || (w'.acked == w.acked + moved && w'.refused == w.refused)
             || (w'.acked == w.acked && w'.refused == w.refused + moved)
    requires LogOk(w')
    requires forall n :: n in w'.resolved ==> n <= w.buf.next
    requires w'.resolved == w.resolved || w'.buf.queue == []
    ensures Inv(c, w')
  {
    var n := |w.buf.pump.batch|;
    FrontTickets(c, w.buf);
    SameTickets(w.buf.queue[n..], w'.buf.queue);
    forall i | 0 <= i < |w'.buf.queue|
      ensures w'.buf.queue[i].ticket == w.buf.queue[n + i].ticket && w'.buf.queue[i].event == w.buf.queue[n + i].event {
      assert w.buf.queue[n..][i] == w.buf.queue[n + i];
    }
  }

  lemma ReplyQuiet(c: Config, b: Buffer, reply: Reply)
    requires Good(c, b) && b.pump.Posting?
    ensures var b' := PostEnds(b, reply);
            && b'.next == b.next && b'.dropped == b.dropped
            && (b'.waiters == b.waiters || (b'.waiters == [] && b'.queue == []))
            && SameEntries(if reply.Stored? || reply.Refused? then b.queue[|b.pump.batch|..] else b.queue, b'.queue)
  {
    var back := b.(queue := SetInflight(b.queue, b.pump.batch, false));
    var rest := b.queue[|b.pump.batch|..];
    BatchLeaves(b);
    match reply
    case Stored => RunLoopQuiet(b.(queue := rest), 0);
    case Refused => RunLoopQuiet(back.(queue := rest), b.pump.attempt);
    case Revoked => RunLoopQuiet(back.(fatal := true), b.pump.attempt);
    case _ =>
  }

  lemma StoredKeeps(c: Config, w: World)
    requires Inv(c, w) && w.buf.pump.Posting?
    ensures Inv(c, Next(c, w, DoReply(Stored)))
  {
    var w' := Next(c, w, DoReply(Stored));
    PostEndsGood(c, w.buf, Stored);
    ReplyQuiet(c, w.buf, Stored);
    StoredLog(c, w, w', |w.buf.pump.batch|);
    BatchGone(c, w, w');
  }

  lemma RefusedKeeps(c: Config, w: World)
    requires Inv(c, w) && w.buf.pump.Posting?
    ensures Inv(c, Next(c, w, DoReply(Refused)))
  {
    var w' := Next(c, w, DoReply(Refused));
    PostEndsGood(c, w.buf, Refused);
    ReplyQuiet(c, w.buf, Refused);
    RefusedLog(c, w, w', |w.buf.pump.batch|);
    BatchGone(c, w, w');
  }

  lemma ReplyLostKeeps(c: Config, w: World)
    requires Inv(c, w) && w.buf.pump.Posting?
    ensures Inv(c, Next(c, w, DoReply(ReplyLost)))
  {
    var w' := Next(c, w, DoReply(ReplyLost));
    PostEndsGood(c, w.buf, ReplyLost);
    ReplyQuiet(c, w.buf, ReplyLost);
    assert w.buf.queue[0..] == w.buf.queue;
    StoredLog(c, w, w', 0);
    LostReply(c, w, w');
  }

  lemma ReplyKeeps(c: Config, w: World, reply: Reply)
    requires Inv(c, w)
    ensures Inv(c, Next(c, w, DoReply(reply)))
  {
    if w.buf.pump.Posting? && reply.Stored? {
      StoredKeeps(c, w);
    } else if w.buf.pump.Posting? && reply.Refused? {
      RefusedKeeps(c, w);
    } else if w.buf.pump.Posting? && reply.ReplyLost? {
      ReplyLostKeeps(c, w);
    } else {
      PostEndsGood(c, w.buf, reply);
      if w.buf.pump.Posting? {
        ReplyQuiet(c, w.buf, reply);
      }
      QuietStep(c, w, Next(c, w, DoReply(reply)));
    }
  }

  lemma RefusedLog(c: Config, w: World, w': World, n: nat)
    requires Inv(c, w) && n <= |w.buf.queue| && SameEntries(w.buf.queue[n..], w'.buf.queue)
    requires w'.accepted == w.accepted && w'.log == w.log && w'.acked == w.acked && w'.unanswered == w.unanswered
    ensures LogOk(w')
  {
    forall i | 0 <= i < |w'.buf.queue| ensures NewOrKnown(w'.accepted, w'.log, w'.buf.queue[i]) {
      assert w'.buf.queue[i].ticket == w.buf.queue[n..][i].ticket;
      assert NewOrKnown(w.accepted, w.log, w.buf.queue[n + i]);
    }
  }

  lemma LostReply(c: Config, w: World, w': World)
    requires Inv(c, w) && Good(c, w'.buf) && LogOk(w')
    requires w' == w.(buf := w'.buf, log := w'.log, unanswered := w'.unanswered)
    requires SameEntries(w.buf.queue, w'.buf.queue)
    requires w'.buf.next == w.buf.next && w'.buf.dropped == w.buf.dropped
    ensures Inv(c, w')
  {
    SameTickets(w.buf.queue, w'.buf.queue);
  }

  /** The buffer after a step that neither accepts nor settles anything. */
  ghost predicate Quiet(b: Buffer, b': Buffer) {
    && SameEntries(b.queue, b'.queue) && b'.next == b.next && b'.dropped == b.dropped
    && (b'.waiters == [] ==> b.waiters == [] || b'.queue == [])
  }

  lemma PumpQuiet(b: Buffer)
    ensures Quiet(b, StartPump(b.(timer := false))) && Quiet(b, WakesUp(b))
  {
    RunLoopQuiet(b.(timer := false), 0);
    if b.pump.Sleeping? { RunLoopQuiet(b, b.pump.attempt); }
  }

  lemma SettleQuiet(c: Config, b: Buffer)
    ensures Quiet(b, Settles(c, b))
  {
    RunLoopQuiet(b.(pump := Idle, timer := false), 0);
  }

  lemma OtherQuiet(c: Config, b: Buffer, step: Step)
    requires Good(c, b) && !step.DoPush? && !step.DoReply?
    ensures Good(c, NextBuffer(c, b, step)) && Quiet(b, NextBuffer(c, b, step))
  {
    match step
    case DoTimer => TimerGood(c, b); PumpQuiet(b);
    case DoWake => WakesUpGood(c, b); PumpQuiet(b);
    case DoSettle => SettlesGood(c, b); SettleQuiet(c, b);
    case DoFlush => FlushGood(c, b); PumpQuiet(b);
    case DoClose =>
  }

  lemma OtherKeeps(c: Config, w: World, step: Step)
    requires Inv(c, w) && !step.DoPush? && !step.DoReply?
    ensures Inv(c, Next(c, w, step))
  {
    OtherQuiet(c, w.buf, step);
    QuietStep(c, w, Next(c, w, step));
  }

  lemma NextKeeps(c: Config, w: World, step: Step)
    requires Inv(c, w)
    ensures Inv(c, Next(c, w, step))
  {
    match step
    case DoPush(parcels) => PushKeeps(c, w, parcels);
    case DoReply(reply) => ReplyKeeps(c, w, reply);
    case _ => OtherKeeps(c, w, step);
  }

  lemma {:induction false} RunKeeps(c: Config, steps: seq<Step>)
    ensures Inv(c, Run(c, START, steps))
    decreases |steps|
  {
    if steps != [] {
      RunKeeps(c, steps[..|steps| - 1]);
      NextKeeps(c, Run(c, START, steps[..|steps| - 1]), steps[|steps| - 1]);
    }
  }

  // ----- what holds after every run -----

  ghost predicate DistinctIds(accepted: seq<Event>) {
    forall i, j :: 0 <= i < j < |accepted| ==> accepted[i].id != accepted[j].id
  }

  /** The receiver's log is in accept order and holds no id twice, whatever was lost, refused or evicted. */
  lemma ReceiverOrder(c: Config, steps: seq<Step>)
    ensures var w := Run(c, START, steps);
            && Increasing(w.log)
            && (forall i :: 0 <= i < |w.log| ==> w.log[i] < |w.accepted|)
            && forall i, j :: 0 <= i < j < |w.log| ==> w.accepted[w.log[i]].id != w.accepted[w.log[j]].id
  {
    RunKeeps(c, steps);
  }

  /**
   Every accepted event is exactly one of acknowledged, evicted, refused with its batch, or still queued; an
   acknowledged event's id is in the log; the drop counter counts the evicted ones. When no two accepted events share
   an id, the log holds exactly the acknowledged events and those stored in a batch whose reply got lost, so an
   evicted or refused event is in the log if and only if an earlier post of it was stored without an answer.
   */
  lemma Conservation(c: Config, steps: seq<Step>)
    ensures var w := Run(c, START, steps);
            && Partition(w)
            && w.buf.dropped == |w.evicted|
            && (forall t :: t in w.acked ==> t < |w.accepted| && KnownId(w.accepted, w.log, w.accepted[t].id))
            && (DistinctIds(w.accepted) ==>
                  && Elements(w.log) == w.acked + w.unanswered
                  && forall t :: t in w.evicted + w.refused ==> (t in w.log <==> t in w.unanswered))
  {
    RunKeeps(c, steps);
    var w := Run(c, START, steps);
    forall t | t in w.acked ensures t < |w.accepted| && KnownId(w.accepted, w.log, w.accepted[t].id) {
      assert t in w.acked + w.unanswered;
    }
    if DistinctIds(w.accepted) {
      forall t: nat | t in w.acked + w.unanswered ensures t in w.log {
        var i :| 0 <= i < |w.log| && w.log[i] < |w.accepted| && w.accepted[w.log[i]].id == w.accepted[t].id;
        assert w.log[i] == t;
      }
      forall t | t in w.log ensures t in w.acked + w.unanswered {
        var i :| 0 <= i < |w.log| && w.log[i] == t;
      }
      forall t | t in w.evicted + w.refused ensures t in w.log <==> t in w.unanswered {
        assert t in w.log <==> t in w.acked + w.unanswered;
      }
    }
  }

  const SMALL := Config(10, 1)
  const HINT := Event(0, true, false)
  const RESULT := Event(1, false, false)

  /** A thought of six bytes is accepted and posted, stored, and its reply gets lost. */
  lemma StoredUnanswered() returns (w: World)
    ensures w == Run(SMALL, START, [DoPush([Parcel(HINT, 6)]), DoReply(ReplyLost)])
    ensures w.buf == Buffer([Entry(0, HINT, 6, false)], 1, 0, false, Sleeping(1), false, false, [])
    ensures w.log == [0]
  {
    var push, lost := DoPush([Parcel(HINT, 6)]), DoReply(ReplyLost);
    var entry := Entry(0, HINT, 6, false);
    assert [] + Entries([Parcel(HINT, 6)], 0) == [entry];
    assert Bytes([entry]) == 6;
    assert TicketsOf([entry][..1]) == [0];
    var w1 := Next(SMALL, START, push);
    assert w1.buf == Buffer([entry.(inflight := true)], 1, 0, false, Posting([0], 0), false, false, []) by {
      assert SetInflight([entry], [0], true) == [entry.(inflight := true)];
    }
    assert w1.accepted == [HINT];
    assert [push, lost][..1] == [push] && [push][..0] == [];
    assert Run(SMALL, START, [push]) == w1;
    w := Next(SMALL, w1, lost);
    assert SetInflight([entry.(inflight := true)], [0], false) == [entry];
    assert Receive([HINT], [], [0]) == Receive([HINT], [0], [0][1..]) == [0];
  }

  /** Six more bytes do not fit beside the thought: it is the one that goes. */
  lemma ThoughtGoes(all: seq<Entry>)
    requires all == [Entry(0, HINT, 6, false), Entry(1, RESULT, 6, false)]
    ensures Evict(all, 10) == [all[1]] && 0 in Tickets(all) && 0 !in Tickets([all[1]])
  {
    assert Bytes([all[1]]) == 6 && all[1..] == [all[1]];
    assert Victim(all) == 0 && RemoveAt(all, 0) == [all[1]];
    assert TicketsOf(all)[0] == 0 && TicketsOf([all[1]]) == [1];
  }

  /** Being evicted does not mean that the receiver never got the event: a stored post may lose its reply. */
  lemma EvictedAfterStored()
    ensures exists c, steps, t :: t in Run(c, START, steps).evicted && t in Run(c, START, steps).log
  {
    var w := StoredUnanswered();
    var push := DoPush([Parcel(RESULT, 6)]);
    var steps := [DoPush([Parcel(HINT, 6)]), DoReply(ReplyLost), push];
    var w' := Next(SMALL, w, push);
    assert steps[..2] == [DoPush([Parcel(HINT, 6)]), DoReply(ReplyLost)];
    assert w' == Run(SMALL, START, steps);
    var all := w.buf.queue + Entries([Parcel(RESULT, 6)], 1);
    ThoughtGoes(all);
    assert Push(SMALL, w.buf, [Parcel(RESULT, 6)]).queue == [all[1]];
    assert 0 in w'.evicted && 0 in w'.log;
  }

  /**
   The queue never takes more than the limit, whatever is pushed; the entries in flight are its front and the batch
   being posted, and no push evicts one of them. Eviction goes by rank and age (EvictedDown): a durable event goes
   only when every thought and ephemeral event that is not in flight is gone.
   */
  lemma MemoryBound(c: Config, steps: seq<Step>, parcels: seq<Parcel>)
    ensures var b := Run(c, START, steps).buf; var b' := Push(c, b, parcels);
            && Bytes(b.queue) <= c.maxBytes && Bytes(b'.queue) <= c.maxBytes
            && InflightIsFront(b)
            && (b.pump.Posting? ==>
                  |b.pump.batch| <= |b'.queue| && b'.queue[..|b.pump.batch|] == b.queue[..|b.pump.batch|])
            && (!b.closed && !b.fatal ==>
                  EvictedDown(b.queue + Entries(parcels, b.next), Accept(c, b, parcels).queue, c.maxBytes))
  {
    RunKeeps(c, steps);
    var b := Run(c, START, steps).buf;
    PushGood(c, b, parcels);
    if !b.closed && !b.fatal {
      AcceptKeepsBatch(c, b, parcels);
      AppendEntries(c, b, parcels);
      EvictOutcome(b.queue + Entries(parcels, b.next), c.maxBytes);
    }
  }

  /** While events are queued and the token is accepted, a pump is at work or a timer will start one. */
  lemma NoLostWakeup(c: Config, steps: seq<Step>)
    ensures var b := Run(c, START, steps).buf; b.queue != [] && !b.fatal ==> !b.pump.Idle? || b.timer
  {
    RunKeeps(c, steps);
  }

  /** A flush that returned true: every event accepted before the call has left the queue. */
  lemma FlushedMeansGone(c: Config, steps: seq<Step>, n: nat)
    requires n in Run(c, START, steps).resolved
    ensures forall t :: t in Tickets(Run(c, START, steps).buf.queue) ==> n <= t
  {
    RunKeeps(c, steps);
  }
}
