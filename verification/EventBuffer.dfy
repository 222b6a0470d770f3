/**
 The event buffer itself: an object whose methods are the code between two awaits. Each method is proved to do the
 step of the state machine in EventShipping, and `bytes` is shown to be the sum of the queued sizes throughout.
 */
module EventBuffering {
  import opened Basics
  import opened EventQueue
  import Spec = EventShipping
  import opened EventShipping

  class EventBuffer {
    const config: Config
    var queue: seq<Entry>
    var bytes: int
    var next: nat
    var dropped: nat
    var timer: bool
    var pump: Pump
    var closed: bool
    var fatal: bool
    var waiters: seq<nat>

    ghost function Model(): Buffer
      reads this
    {
      Buffer(queue, next, dropped, timer, pump, closed, fatal, waiters)
    }

    ghost predicate Valid()
      reads this
    {
      bytes == Bytes(queue) && Good(config, Model())
    }

    constructor (config: Config)
      ensures Valid() && Model() == EMPTY && this.config == config
    {
      this.config := config;
      queue, bytes, next, dropped := [], 0, 0, 0;
      timer, pump, closed, fatal, waiters := false, Idle, false, false, [];
    }

    /** Accepts events unless the buffer is closed or its token was rejected. */
    method Push(parcels: seq<Parcel>)
      requires Valid()
      modifies this
      ensures Valid() && Model() == Spec.Push(config, old(Model()), parcels)
    {
      PushGood(config, Model(), parcels);
      if closed || fatal {
        return;
      }
      Accept(parcels);
      Schedule();
    }

    method Accept(parcels: seq<Parcel>)
      requires Valid()
      modifies this`queue, this`bytes, this`next, this`dropped
      ensures Model() == Spec.Accept(config, old(Model()), parcels) && bytes == Bytes(queue)
    {
      AppendEntries(config, Model(), parcels);
      ghost var front := InflightCount(Model());
      Append(parcels);
      EvictOverflow(front);
    }

    method Append(parcels: seq<Parcel>)
      requires bytes == Bytes(queue)
      modifies this`queue, this`bytes, this`next
      ensures queue == old(queue) + Entries(parcels, old(next)) && next == old(next) + |parcels|
      ensures bytes == Bytes(queue)
    {
      for i := 0 to |parcels|
        invariant queue == old(queue) + Entries(parcels[..i], old(next))
        invariant next == old(next) + i && bytes == Bytes(queue)
      {
        var entry := Entry(next, parcels[i].event, parcels[i].size, false);
        assert Entries(parcels[..i + 1], old(next)) == Entries(parcels[..i], old(next)) + [entry];
        BytesConcat(queue, [entry]);
        queue := queue + [entry];
        bytes := bytes + parcels[i].size;
        next := next + 1;
      }
      assert parcels[..|parcels|] == parcels;
    }

    method FindVictim() returns (index: int)
      ensures index == Victim(queue)
    {
      index := FindEvictable(queue, (e: Entry) => e.event.thought);
      if index < 0 {
        index := FindEvictable(queue, (e: Entry) => e.event.ephemeral);
      }
      if index < 0 {
        index := FindEvictable(queue, (e: Entry) => true);
      }
    }

    /** One turn of the eviction loop. Where the source returns because nothing was found, something always is. */
    method DropVictim(ghost front: nat)
      requires bytes == Bytes(queue) > config.maxBytes && FrontFits(queue, front, config.maxBytes)
      modifies this`queue, this`bytes, this`dropped
      ensures FrontFits(queue, front, config.maxBytes) && bytes == Bytes(queue)
      ensures Evict(queue, config.maxBytes) == Evict(old(queue), config.maxBytes)
      ensures |queue| == |old(queue)| - 1 && dropped == old(dropped) + 1
    {
      var index := FindVictim();
      EvictStep(queue, front, config.maxBytes);
      bytes := bytes - queue[index].size;
      queue := queue[..index] + queue[index + 1..];
      dropped := dropped + 1;
    }

    /** Drops entries until the limit is met; with the front in flight within the limit it always finds a victim. */
    method EvictOverflow(ghost front: nat)
      requires bytes == Bytes(queue) && FrontFits(queue, front, config.maxBytes)
      modifies this`queue, this`bytes, this`dropped
      ensures queue == Evict(old(queue), config.maxBytes) && bytes == Bytes(queue)
      ensures |queue| <= |old(queue)| && dropped == old(dropped) + (|old(queue)| - |queue|)
    {
      ghost var goal := Evict(queue, config.maxBytes);
      while bytes > config.maxBytes
        invariant Evict(queue, config.maxBytes) == goal
        invariant bytes == Bytes(queue) && FrontFits(queue, front, config.maxBytes)
        invariant |queue| <= |old(queue)| && dropped == old(dropped) + (|old(queue)| - |queue|)
        decreases |queue|
      {
        DropVictim(front);
      }
    }

    method Schedule()
      requires bytes == Bytes(queue)
      modifies this`timer, this`pump, this`queue, this`waiters
      ensures Model() == Spec.Schedule(config, old(Model())) && bytes == Bytes(queue)
    {
      if !pump.Idle? {
        return;
      }
      if |queue| >= config.batchSize {
        timer := false;
        StartPump();
      } else {
        timer := true;
      }
    }

    method StartPump()
      requires bytes == Bytes(queue)
      modifies this`pump, this`queue, this`waiters
      ensures Model() == Spec.StartPump(old(Model())) && bytes == Bytes(queue)
    {
      if pump.Idle? {
        RunLoop(0);
      }
    }

    /** The head of the pump's loop: marks and posts the next batch, or resolves the waiting flushes. */
    method RunLoop(attempt: nat)
      requires bytes == Bytes(queue)
      modifies this`pump, this`queue, this`waiters
      ensures Model() == Spec.RunLoop(old(Model()), attempt) && bytes == Bytes(queue)
    {
      if queue != [] && !fatal {
        var batch := TicketsOf(queue[..Min(|queue|, MAX_EVENTS_PER_REQUEST)]);
        SetInflightBytes(queue, batch, true);
        queue := SetInflight(queue, batch, true);
        pump := Posting(batch, attempt);
      } else {
        if queue == [] {
          waiters := [];
        }
        pump := Settling;
      }
    }

    method OnTimer()
      requires Valid()
      modifies this
      ensures Valid() && Model() == TimerFires(old(Model()))
    {
      TimerGood(config, Model());
      if timer {
        timer := false;
        StartPump();
      }
    }

    /** The post in flight ended. */
    method OnReply(reply: Reply)
      requires Valid()
      modifies this
      ensures Valid() && Model() == PostEnds(old(Model()), reply)
    {
      PostEndsGood(config, Model(), reply);
      if !pump.Posting? {
        return;
      }
      var batch, attempt := pump.batch, pump.attempt;
      if reply.Stored? {
        RemoveBatch(batch);
        RunLoop(0);
        return;
      }
      OnFailure(reply, batch, attempt);
    }

    /** A post that failed: its entries are no longer in flight; they stay, go, or the token is rejected. */
    method OnFailure(reply: Reply, batch: seq<nat>, attempt: nat)
      requires bytes == Bytes(queue) && pump == Posting(batch, attempt) && !reply.Stored?
      modifies this
      ensures bytes == Bytes(queue) && Model() == PostEnds(old(Model()), reply)
    {
      SetInflightBytes(queue, batch, false);
      queue := SetInflight(queue, batch, false);
      if reply.Revoked? {
        fatal := true;
        RunLoop(attempt);
      } else if reply.Refused? {
        RemoveBatch(batch);
        RunLoop(attempt);
      } else {
        pump := Sleeping(attempt + 1);
      }
    }

    /** Takes the entries of the batch out of the queue, from the back. */
    method RemoveBatch(batch: seq<nat>)
      requires bytes == Bytes(queue)
      modifies this`queue, this`bytes
      ensures queue == Remove(old(queue), batch) && bytes == Bytes(queue)
    {
      ghost var before := queue;
      assert before[..|before|] == before && before[|before|..] == [];
      var i := |queue|;
      while i > 0
        invariant 0 <= i <= |before| && i <= |queue|
        invariant queue[..i] == before[..i]
        invariant Remove(before, batch) == Remove(before[..i], batch) + queue[i..]
        invariant bytes == Bytes(queue)
      {
        i := i - 1;
        assert queue[i] == queue[..i + 1][i] == before[i];
        assert before[..i + 1][..i] == before[..i];
        assert queue[..i] == queue[..i + 1][..i];
        if queue[i].ticket in batch {
          BytesRemoveAt(queue, i);
          bytes := bytes - queue[i].size;
          queue := queue[..i] + queue[i + 1..];
        } else {
          assert queue[i..] == [queue[i]] + queue[i + 1..];
        }
      }
      assert queue[0..] == queue;
    }

    method OnWake()
      requires Valid()
      modifies this
      ensures Valid() && Model() == WakesUp(old(Model()))
    {
      WakesUpGood(config, Model());
      if pump.Sleeping? {
        RunLoop(pump.attempt);
      }
    }

    /** The pump's promise settled. */
    method OnSettled()
      requires Valid()
      modifies this
      ensures Valid() && Model() == Settles(config, old(Model()))
    {
      SettlesGood(config, Model());
      if pump.Settling? {
        pump := Idle;
        if queue != [] && !fatal {
          Schedule();
        }
      }
    }

    /** A flush up to its wait: `done` is its answer when it needs none. */
    method Flush() returns (done: bool, drained: bool)
      requires Valid()
      modifies this
      ensures Valid() && Model() == Spec.Flush(old(Model()))
      ensures done <==> old(queue) == [] || old(fatal)
      ensures done ==> (drained <==> old(queue) == [])
    {
      FlushGood(config, Model());
      if queue == [] {
        return true, true;
      }
      if fatal {
        return true, false;
      }
      timer := false;
      StartPump();
      waiters := waiters + [next];
      return false, false;
    }

    method Close()
      requires Valid()
      modifies this
      ensures Valid() && Model() == old(Model()).(closed := true)
    {
      closed := true;
    }
  }
}
