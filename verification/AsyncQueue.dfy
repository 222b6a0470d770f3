/** The queue between the inbox and the main loop: a first-in first-out queue whose takes may wait, and which closes. */
module AsyncQueues {
  import opened Basics

  function Numbers(lo: nat, hi: nat): (r: seq<nat>)
    requires lo <= hi
    ensures |r| == hi - lo && forall i :: 0 <= i < |r| ==> r[i] == lo + i
    ensures forall k: nat :: k in r <==> lo <= k < hi
    decreases hi - lo
  {
    if lo == hi then [] else [lo] + Numbers(lo + 1, hi)
  }

  /**
   `waiters` are the numbers of the takes that wait, `taken` how many takes there were, `answers` what each answered
   take got. `accepted` are the items pushed while the queue was open.
   */
  class AsyncQueue<T> {
    var items: seq<T>
    var waiters: seq<nat>
    var closed: bool
    var taken: nat
    var answers: map<nat, Option<T>>
    ghost var accepted: seq<T>

    /**
     First in, first out: take number k is answered as soon as k + 1 items were pushed, with the k-th of them, or with
     nothing once the queue is closed.
     */
    ghost predicate Fifo()
      reads this
    {
      && (forall k: nat :: k in answers <==> k < taken && (k < |accepted| || closed))
      && forall k: nat :: k in answers ==> answers[k] == if k < |accepted| then Some(accepted[k]) else None
    }

    ghost predicate Valid()
      reads this
    {
      && Fifo()
      && items == (if taken < |accepted| then accepted[taken..] else [])
      && waiters == (if closed || taken < |accepted| then [] else Numbers(|accepted|, taken))
    }

    constructor ()
      ensures Valid() && items == [] && !closed && taken == 0 && accepted == []
    {
      items, waiters, closed, taken, answers, accepted := [], [], false, 0, map[], [];
    }

    method Push(item: T)
      requires Valid()
      modifies this
      ensures Valid()
      ensures taken == old(taken) && closed == old(closed)
      ensures accepted == if closed then old(accepted) else old(accepted) + [item]
      ensures items == if !closed && taken <= |old(accepted)| then old(items) + [item] else old(items)
      ensures answers == if !closed && |old(accepted)| < taken then old(answers)[|old(accepted)| := Some(item)]
                         else old(answers)
    {
      if closed { return; }
      if waiters != [] {
        var waiter := waiters[0];
        waiters := waiters[1..];
        answers := answers[waiter := Some(item)];
      } else {
        items := items + [item];
      }
      accepted := accepted + [item];
    }

    /** The number of the take; its answer may be there at once or come later. */
    method Take() returns (ticket: nat)
      requires Valid()
      modifies this
      ensures Valid()
      ensures ticket == old(taken) && taken == ticket + 1 && closed == old(closed) && accepted == old(accepted)
      ensures items == if old(items) != [] then old(items)[1..] else []
      ensures answers == if old(items) != [] then old(answers)[ticket := Some(old(items)[0])]
                         else if closed then old(answers)[ticket := None] else old(answers)
    {
      ticket := taken;
      if items != [] {
        answers := answers[ticket := Some(items[0])];
        items := items[1..];
      } else if closed {
        answers := answers[ticket := None];
      } else {
        waiters := waiters + [ticket];
      }
      taken := taken + 1;
    }

    method Close()
      requires Valid()
      modifies this
      ensures Valid() && closed
      ensures items == old(items) && taken == old(taken) && accepted == old(accepted)
      ensures forall k: nat :: k in old(answers) ==> k in answers && answers[k] == old(answers)[k]
      ensures forall k: nat :: k in answers && k !in old(answers) ==> answers[k] == None
    {
      closed := true;
      var pending := waiters;
      waiters := [];
      var i := 0;
      while i < |pending|
        invariant 0 <= i <= |pending| && pending == old(waiters)
        invariant closed && waiters == [] && items == old(items) && taken == old(taken) && accepted == old(accepted)
        invariant forall k: nat :: k in answers <==> k in old(answers) || |accepted| <= k < |accepted| + i
        invariant forall k: nat :: k in answers ==> answers[k] == if k < |accepted| then Some(accepted[k]) else None
      {
        answers := answers[pending[i] := None];
        i := i + 1;
      }
    }
  }
}
