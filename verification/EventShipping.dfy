/**
 The event buffer as a state machine. `Buffer` holds the buffer's fields; the code between two awaits is one step,
 and every step keeps `Good`: the queue in accept order and within its byte limit, the batch in flight at its front,
 and somebody awake to look at it again.
 */
module EventShipping {
  import opened Basics
  import opened EventQueue

  const MAX_EVENTS_PER_REQUEST := 100

  datatype Config = Config(maxBytes: nat, batchSize: nat)

  /** Where the pump is: not running, waiting for a post, sleeping before a retry, or done but not yet cleared. */
  datatype Pump = Idle | Posting(batch: seq<nat>, attempt: nat) | Sleeping(attempt: nat) | Settling

  /** `waiters` holds, for each pending flush, the number of events accepted before it; `next` is the next ticket. */
  datatype Buffer = Buffer(queue: seq<Entry>, next: nat, dropped: nat, timer: bool, pump: Pump,
                           closed: bool, fatal: bool, waiters: seq<nat>)

  datatype Parcel = Parcel(event: Event, size: nat)

  /** How a post ends: stored and answered, lost before or after storing, refused (4xx), token rejected. */
  datatype Reply = Stored | RequestLost | ReplyLost | Refused | Revoked

  const EMPTY := Buffer([], 0, 0, false, Idle, false, false, [])

  // ----- the buffer's steps -----

  /** The head of the pump's loop: post the next batch, or stop and resolve the flushes when nothing is queued. */
  function RunLoop(b: Buffer, attempt: nat): Buffer {
    if b.queue != [] && !b.fatal then
      var batch := TicketsOf(b.queue[..Min(|b.queue|, MAX_EVENTS_PER_REQUEST)]);
      b.(queue := SetInflight(b.queue, batch, true), pump := Posting(batch, attempt))
    else
      b.(pump := Settling, waiters := if b.queue == [] then [] else b.waiters)
  }

  function StartPump(b: Buffer): Buffer {
    if b.pump.Idle? then RunLoop(b, 0) else b
  }

  function Schedule(c: Config, b: Buffer): Buffer {
    if !b.pump.Idle? then b
    else if |b.queue| >= c.batchSize then StartPump(b.(timer := false))
    else b.(timer := true)
  }

  /** The entries of newly accepted events. */
  function Entries(parcels: seq<Parcel>, next: nat): (r: seq<Entry>)
    ensures |r| == |parcels|
    ensures forall i :: 0 <= i < |r| ==> r[i] == Entry(next + i, parcels[i].event, parcels[i].size, false)
  {
    seq(|parcels|, i requires 0 <= i < |parcels| => Entry(next + i, parcels[i].event, parcels[i].size, false))
  }

  /** The buffer with the events accepted and the overflow evicted. */
  function Accept(c: Config, b: Buffer, parcels: seq<Parcel>): Buffer {
    var all := b.queue + Entries(parcels, b.next);
    var kept := Evict(all, c.maxBytes);
    EvictShorter(all, c.maxBytes);
    b.(queue := kept, next := b.next + |parcels|, dropped := b.dropped + (|all| - |kept|))
  }

  function Push(c: Config, b: Buffer, parcels: seq<Parcel>): Buffer {
    if b.closed || b.fatal then b else Schedule(c, Accept(c, b, parcels))
  }

  function TimerFires(b: Buffer): Buffer {
    if b.timer then StartPump(b.(timer := false)) else b
  }

  function PostEnds(b: Buffer, reply: Reply): Buffer {
    if !b.pump.Posting? then b
    else
      var batch, attempt := b.pump.batch, b.pump.attempt;
      if reply.Stored? then RunLoop(b.(queue := Remove(b.queue, batch)), 0)
      else
        var b := b.(queue := SetInflight(b.queue, batch, false));
        match reply
        case Revoked => RunLoop(b.(fatal := true), attempt)
        case Refused => RunLoop(b.(queue := Remove(b.queue, batch)), attempt)
        case _ => b.(pump := Sleeping(attempt + 1))
  }

  function WakesUp(b: Buffer): Buffer {
    if b.pump.Sleeping? then RunLoop(b, b.pump.attempt) else b
  }

  function Settles(c: Config, b: Buffer): Buffer {
    if !b.pump.Settling? then b
    else
      var b := b.(pump := Idle);
      if b.queue != [] && !b.fatal then Schedule(c, b) else b
  }

  /** A flush call up to its wait; with nothing queued or a rejected token it returns at once. */
  function Flush(b: Buffer): Buffer {
    if b.queue == [] || b.fatal then b
    else
      var b := StartPump(b.(timer := false));
      b.(waiters := b.waiters + [b.next])
  }

  // ----- what every step keeps of the buffer itself -----

  ghost predicate InflightIsFront(b: Buffer) {
    && (b.pump.Posting? ==>
          && 0 < |b.pump.batch| <= |b.queue| && |b.pump.batch| <= MAX_EVENTS_PER_REQUEST
          && !b.fatal
          && forall i :: 0 <= i < |b.pump.batch| ==> b.queue[i].ticket == b.pump.batch[i])
    && forall i :: 0 <= i < |b.queue| ==> (b.queue[i].inflight <==> b.pump.Posting? && i < |b.pump.batch|)
  }

  /** Something will look at the queue again: the pump, or a timer that starts it. */
  ghost predicate Awake(b: Buffer) {
    b.queue != [] && !b.fatal ==> !b.pump.Idle? || b.timer
  }

  ghost predicate Good(c: Config, b: Buffer) {
    && Sorted(b.queue)
    && (forall i :: 0 <= i < |b.queue| ==> b.queue[i].ticket < b.next)
    && Bytes(b.queue) <= c.maxBytes
    && InflightIsFront(b)
    && (b.pump.Sleeping? ==> !b.fatal)
    && Awake(b)
    && forall i :: 0 <= i < |b.waiters| ==> b.waiters[i] <= b.next
  }

  /** Good without the wakeup: the state inside a step, while the pump is between loop turns. */
  ghost predicate Loose(c: Config, b: Buffer) {
    && Sorted(b.queue)
    && (forall i :: 0 <= i < |b.queue| ==> b.queue[i].ticket < b.next && !b.queue[i].inflight)
    && Bytes(b.queue) <= c.maxBytes
    && forall i :: 0 <= i < |b.waiters| ==> b.waiters[i] <= b.next
  }

  lemma RunLoopGood(c: Config, b: Buffer, attempt: nat)
    requires Loose(c, b)
    ensures Good(c, RunLoop(b, attempt))
  {
    if b.queue != [] && !b.fatal {
      var n := Min(|b.queue|, MAX_EVENTS_PER_REQUEST);
      var batch := TicketsOf(b.queue[..n]);
      SetInflightBytes(b.queue, batch, true);
      forall i | 0 <= i < |b.queue| ensures b.queue[i].ticket in batch <==> i < n {
        if i < n { assert batch[i] == b.queue[i].ticket; }
      }
    }
  }

  lemma ScheduleGood(c: Config, b: Buffer)
    requires Loose(c, b) || (Good(c, b) && !b.pump.Idle?)
    requires b.pump.Idle? || Good(c, b)
    ensures Good(c, Schedule(c, b))
  {
    if b.pump.Idle? && |b.queue| >= c.batchSize {
      RunLoopGood(c, b.(timer := false), 0);
    }
  }

  /** The first n entries are the ones in flight, and they fit. */
  ghost predicate FrontFits(q: seq<Entry>, n: nat, max: nat) {
    && Sorted(q) && n <= |q| && Bytes(q[..n]) <= max
    && forall i :: 0 <= i < |q| ==> (q[i].inflight <==> i < n)
  }

  /** One turn of the eviction loop. */
  lemma EvictStep(q: seq<Entry>, n: nat, max: nat)
    requires FrontFits(q, n, max) && Bytes(q) > max
    ensures var v := Victim(q); n <= v && FrontFits(RemoveAt(q, v), n, max)
    ensures Evict(q, max) == Evict(RemoveAt(q, Victim(q)), max)
    ensures RemoveAt(q, Victim(q))[..n] == q[..n]
    ensures Bytes(RemoveAt(q, Victim(q))) == Bytes(q) - q[Victim(q)].size
  {
    VictimIsLeast(q);
    assert q[..|q|] == q;
    assert !q[n].inflight;
    var v := Victim(q);
    RemoveAtKeeps(q, v);
    BytesRemoveAt(q, v);
    assert RemoveAt(q, v)[..n] == q[..n];
  }

  /** The entries in flight fit, so eviction always finds a victim: the give-up return is never taken. */
  lemma {:induction false} EvictionNeverGivesUp(q: seq<Entry>, n: nat, max: nat)
    requires FrontFits(q, n, max)
    ensures Bytes(q) > max ==> Victim(q) >= n
    ensures n <= |Evict(q, max)| && Evict(q, max)[..n] == q[..n]
    ensures Bytes(Evict(q, max)) <= max
    decreases |q|
  {
    if Bytes(q) > max {
      EvictStep(q, n, max);
      EvictionNeverGivesUp(RemoveAt(q, Victim(q)), n, max);
    }
  }

  ghost function InflightCount(b: Buffer): nat {
    if b.pump.Posting? then |b.pump.batch| else 0
  }

  /** Newly accepted entries go to the back, in order, not in flight. */
  lemma AppendEntries(c: Config, b: Buffer, parcels: seq<Parcel>)
    requires Good(c, b)
    ensures var all := b.queue + Entries(parcels, b.next); var n := InflightCount(b);
            FrontFits(all, n, c.maxBytes) && forall i :: 0 <= i < |all| ==> all[i].ticket < b.next + |parcels|
  {
    var n := InflightCount(b);
    assert FrontFits(b.queue, n, c.maxBytes) by {
      BytesConcat(b.queue[..n], b.queue[n..]);
      assert b.queue[..n] + b.queue[n..] == b.queue;
    }
    AppendedFits(b.queue, Entries(parcels, b.next), n, c.maxBytes, b.next);
  }

  lemma AppendedFits(q: seq<Entry>, more: seq<Entry>, n: nat, max: nat, next: nat)
    requires FrontFits(q, n, max) && Sorted(more)
    requires forall i :: 0 <= i < |q| ==> q[i].ticket < next
    requires forall i :: 0 <= i < |more| ==> next <= more[i].ticket < next + |more| && !more[i].inflight
    ensures FrontFits(q + more, n, max)
    ensures forall i :: 0 <= i < |q + more| ==> (q + more)[i].ticket < next + |more|
  {
    assert (q + more)[..n] == q[..n];
  }

  /** Eviction of a queue whose front is in flight keeps that front, and nothing else is in flight afterwards. */
  lemma EvictKeepsFront(all: seq<Entry>, n: nat, max: nat, next: nat)
    requires FrontFits(all, n, max)
    requires forall i :: 0 <= i < |all| ==> all[i].ticket < next
    ensures var kept := Evict(all, max);
            && Sorted(kept) && n <= |kept| && kept[..n] == all[..n] && Bytes(kept) <= max
            && (forall i :: 0 <= i < |kept| ==> kept[i].ticket < next && (kept[i].inflight <==> i < n))
  {
    var kept := Evict(all, max);
    EvictOutcome(all, max);
    EvictionNeverGivesUp(all, n, max);
    forall i | 0 <= i < n ensures kept[i] == all[i] {
      assert kept[i] == kept[..n][i];
    }
    forall i | 0 <= i < |kept| ensures kept[i].ticket < next && (kept[i].inflight <==> i < n) {
      assert kept[i] in all;
      var j :| 0 <= j < |all| && all[j] == kept[i];
      assert i >= n ==> j >= n;
    }
  }

  /** b' is b with more accepted and some evicted, the batch in flight untouched. */
  ghost predicate AcceptedFrom(c: Config, b: Buffer, b': Buffer) {
    var n := InflightCount(b);
    && b.next <= b'.next
    && b' == b.(queue := b'.queue, next := b'.next, dropped := b'.dropped)
    && Sorted(b'.queue) && n <= |b'.queue| && n <= |b.queue| && b'.queue[..n] == b.queue[..n]
    && Bytes(b'.queue) <= c.maxBytes
    && forall i :: 0 <= i < |b'.queue| ==> b'.queue[i].ticket < b'.next && (b'.queue[i].inflight <==> i < n)
  }

  lemma AcceptKeepsBatch(c: Config, b: Buffer, parcels: seq<Parcel>)
    requires Good(c, b)
    ensures AcceptedFrom(c, b, Accept(c, b, parcels))
  {
    var all := b.queue + Entries(parcels, b.next);
    var n := InflightCount(b);
    AppendEntries(c, b, parcels);
    EvictKeepsFront(all, n, c.maxBytes, b.next + |parcels|);
    assert all[..n] == b.queue[..n];
  }

  lemma AcceptedIsGood(c: Config, b: Buffer, b': Buffer)
    requires Good(c, b) && AcceptedFrom(c, b, b')
    ensures Good(c, Schedule(c, b'))
  {
    if b.pump.Idle? {
      ScheduleGood(c, b');
    } else {
      var n := InflightCount(b);
      forall i | 0 <= i < n ensures b'.queue[i] == b.queue[i] {
        assert b'.queue[..n][i] == b.queue[..n][i];
      }
    }
  }

  lemma PushGood(c: Config, b: Buffer, parcels: seq<Parcel>)
    requires Good(c, b)
    ensures Good(c, Push(c, b, parcels))
  {
    if !b.closed && !b.fatal {
      AcceptKeepsBatch(c, b, parcels);
      AcceptedIsGood(c, b, Accept(c, b, parcels));
    }
  }

  lemma InBatch(b: Buffer, i: nat)
    requires Sorted(b.queue) && InflightIsFront(b) && b.pump.Posting? && i < |b.queue|
    ensures b.queue[i].ticket in b.pump.batch <==> i < |b.pump.batch|
  {
    if i < |b.pump.batch| { assert b.pump.batch[i] == b.queue[i].ticket; }
  }

  /** A batch that comes back: its entries wait again. */
  lemma BatchComesBack(c: Config, b: Buffer)
    requires Good(c, b) && b.pump.Posting?
    ensures Loose(c, b.(queue := SetInflight(b.queue, b.pump.batch, false)))
  {
    SetInflightBytes(b.queue, b.pump.batch, false);
    forall i | 0 <= i < |b.queue| ensures b.queue[i].ticket in b.pump.batch <==> i < |b.pump.batch| {
      InBatch(b, i);
    }
  }

  /** A batch that leaves: exactly the front of the queue goes, whether or not it was marked back first. */
  lemma BatchLeaves(b: Buffer)
    requires Sorted(b.queue) && InflightIsFront(b) && b.pump.Posting?
    ensures Remove(b.queue, b.pump.batch) == b.queue[|b.pump.batch|..]
    ensures Remove(SetInflight(b.queue, b.pump.batch, false), b.pump.batch) == b.queue[|b.pump.batch|..]
  {
    var batch := b.pump.batch;
    var n := |batch|;
    var back := SetInflight(b.queue, batch, false);
    RemoveFront(b.queue, batch);
    RemoveFront(back, batch);
    forall i | n <= i < |b.queue| ensures back[i] == b.queue[i] {
      InBatch(b, i);
    }
    assert back[n..] == b.queue[n..];
  }

  lemma RestIsLoose(c: Config, b: Buffer)
    requires Good(c, b) && b.pump.Posting?
    ensures Loose(c, b.(queue := b.queue[|b.pump.batch|..]))
  {
    RestFits(b.queue, |b.pump.batch|);
    var rest := b.queue[|b.pump.batch|..];
    assert forall i :: 0 <= i < |rest| ==> rest[i] == b.queue[|b.pump.batch| + i];
  }

  lemma RestFits(q: seq<Entry>, n: nat)
    requires n <= |q|
    ensures Bytes(q[n..]) <= Bytes(q)
  {
    BytesConcat(q[..n], q[n..]);
    assert q[..n] + q[n..] == q;
  }

  lemma PostEndsGood(c: Config, b: Buffer, reply: Reply)
    requires Good(c, b)
    ensures Good(c, PostEnds(b, reply))
  {
    if b.pump.Posting? {
      BatchComesBack(c, b);
      BatchLeaves(b);
      RestIsLoose(c, b);
      var back := b.(queue := SetInflight(b.queue, b.pump.batch, false));
      var rest := b.queue[|b.pump.batch|..];
      match reply
      case Stored => RunLoopGood(c, b.(queue := rest), 0);
      case Refused => RunLoopGood(c, back.(queue := rest), b.pump.attempt);
      case Revoked => RunLoopGood(c, back.(fatal := true), b.pump.attempt);
      case _ =>
    }
  }

  lemma TimerGood(c: Config, b: Buffer)
    requires Good(c, b)
    ensures Good(c, TimerFires(b)) && Good(c, StartPump(b.(timer := false)))
  {
    if b.pump.Idle? {
      RunLoopGood(c, b.(timer := false), 0);
    }
  }

  lemma WakesUpGood(c: Config, b: Buffer)
    requires Good(c, b)
    ensures Good(c, WakesUp(b))
  {
    if b.pump.Sleeping? {
      RunLoopGood(c, b, b.pump.attempt);
    }
  }

  lemma SettlesGood(c: Config, b: Buffer)
    requires Good(c, b)
    ensures Good(c, Settles(c, b))
  {
    if b.pump.Settling? {
      ScheduleGood(c, b.(pump := Idle));
    }
  }

  lemma FlushGood(c: Config, b: Buffer)
    requires Good(c, b)
    ensures Good(c, Flush(b))
  {
    TimerGood(c, b);
  }
}
