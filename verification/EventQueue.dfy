/**
 The runner's event queue: entries, their sizes, and the two ways entries leave it
 without being delivered one by one (eviction on overflow, removal of a whole batch).

 An entry's `ticket` stands for the identity of the entry object: tickets are handed out
 in the order events are accepted, so the accept order is the ticket order.
 */
module EventQueue {

  /** What the buffer looks at in a runner event. */
  datatype Event = Event(id: nat, thought: bool, ephemeral: bool)

  datatype Entry = Entry(ticket: nat, event: Event, size: nat, inflight: bool)

  /** The number of bytes the entries of q take. */
  function Bytes(q: seq<Entry>): nat {
    if q == [] then 0 else q[0].size + Bytes(q[1..])
  }

  lemma {:induction false} BytesConcat(a: seq<Entry>, b: seq<Entry>)
    ensures Bytes(a + b) == Bytes(a) + Bytes(b)
  {
    if a == [] {
      assert a + b == b;
    } else {
      BytesConcat(a[1..], b);
      assert (a + b)[1..] == a[1..] + b;
    }
  }

  function RemoveAt(q: seq<Entry>, i: nat): seq<Entry>
    requires i < |q|
  {
    q[..i] + q[i + 1..]
  }

  lemma BytesRemoveAt(q: seq<Entry>, i: nat)
    requires i < |q|
    ensures Bytes(RemoveAt(q, i)) == Bytes(q) - q[i].size
  {
    BytesConcat(q[..i], q[i + 1..]);
    assert q == q[..i] + ([q[i]] + q[i + 1..]);
    BytesConcat(q[..i], [q[i]] + q[i + 1..]);
    BytesConcat([q[i]], q[i + 1..]);
    assert Bytes([q[i]]) == q[i].size;
  }

  /** Entries are queued in accept order. */
  ghost predicate Sorted(q: seq<Entry>) {
    forall i, j :: 0 <= i < j < |q| ==> q[i].ticket < q[j].ticket
  }

  /** What goes first when the buffer overflows: 0 thoughts, 1 ephemeral events, 2 the rest. */
  function Rank(e: Entry): nat {
    if e.event.thought then 0 else if e.event.ephemeral then 1 else 2
  }

  /** a is evicted before b: a lower rank, or the older one of the same rank. */
  ghost predicate Precedes(a: Entry, b: Entry) {
    Rank(a) < Rank(b) || (Rank(a) == Rank(b) && a.ticket < b.ticket)
  }

  /** The first entry that is not in flight and matches, or -1. */
  function FindEvictable(q: seq<Entry>, match_: Entry -> bool): (r: int)
    ensures -1 <= r < |q|
    ensures r >= 0 ==> !q[r].inflight && match_(q[r])
    ensures forall i :: 0 <= i < |q| && (r < 0 || i < r) ==> q[i].inflight || !match_(q[i])
  {
    if q == [] then -1
    else if !q[0].inflight && match_(q[0]) then 0
    else
      var r := FindEvictable(q[1..], match_);
      assert forall i :: 1 <= i < |q| ==> q[i] == q[1..][i - 1];
      if r < 0 then -1 else r + 1
  }

  /** The next entry to evict, or -1 when every entry is in flight. */
  function Victim(q: seq<Entry>): (v: int)
    ensures -1 <= v < |q|
  {
    var thought := FindEvictable(q, (e: Entry) => e.event.thought);
    if thought >= 0 then thought
    else
      var ephemeral := FindEvictable(q, (e: Entry) => e.event.ephemeral);
      if ephemeral >= 0 then ephemeral
      else FindEvictable(q, (e: Entry) => true)
  }

  /** The victim is the least evictable entry in eviction order; there is one unless all are in flight. */
  lemma VictimIsLeast(q: seq<Entry>)
    requires Sorted(q)
    ensures Victim(q) < 0 <==> forall i :: 0 <= i < |q| ==> q[i].inflight
    ensures Victim(q) >= 0 ==>
              && !q[Victim(q)].inflight
              && forall i :: 0 <= i < |q| && !q[i].inflight && i != Victim(q) ==> Precedes(q[Victim(q)], q[i])
  {
  }

  /** The queue after eviction has brought it down to max bytes. */
  function Evict(q: seq<Entry>, max: nat): seq<Entry>
    decreases |q|
  {
    var v := Victim(q);
    if Bytes(q) <= max || v < 0 then q else Evict(RemoveAt(q, v), max)
  }

  /** Removing a victim keeps the order and every other entry. */
  lemma RemoveAtKeeps(q: seq<Entry>, v: nat)
    requires Sorted(q) && v < |q|
    ensures Sorted(RemoveAt(q, v))
    ensures forall e :: e in RemoveAt(q, v) <==> e in q && e != q[v]
  {
    var r := RemoveAt(q, v);
    forall e ensures e in r <==> e in q && e != q[v] {
      if e in q && e != q[v] {
        var k :| 0 <= k < |q| && q[k] == e;
        assert e == (if k < v then r[k] else r[k - 1]);
      }
    }
  }

  /**
   What eviction does, said without its loop: r holds q's entries except some that are not in flight, each of
   which comes before every evictable survivor in eviction order, and the last of which was one too many.
   */
  ghost predicate EvictedDown(q: seq<Entry>, r: seq<Entry>, max: nat) {
    && Sorted(r)
    && (forall e :: e in r ==> e in q)
    && (forall e :: e in q && e.inflight ==> e in r)
    && (forall e, k :: e in q && e !in r && k in r && !k.inflight ==> Precedes(e, k))
    && (r != q ==> exists last :: LastEvicted(q, r, max, last))
  }

  /** Everything else evicted went before `last`, and without evicting `last` the queue was still too big. */
  ghost predicate LastEvicted(q: seq<Entry>, r: seq<Entry>, max: nat, last: Entry) {
    && last in q && last !in r
    && Bytes(r) + last.size > max
    && forall e :: e in q && e !in r && e != last ==> Precedes(e, last)
  }

  lemma {:induction false} EvictOutcome(q: seq<Entry>, max: nat)
    requires Sorted(q)
    ensures EvictedDown(q, Evict(q, max), max)
    ensures Bytes(Evict(q, max)) <= max || forall e :: e in Evict(q, max) ==> e.inflight
    ensures Evict(q, max) == q <==> Bytes(q) <= max || Victim(q) < 0
    decreases |q|
  {
    var v := Victim(q);
    VictimIsLeast(q);
    if Bytes(q) > max && v >= 0 {
      var rest := RemoveAt(q, v);
      RemoveAtKeeps(q, v);
      EvictOutcome(rest, max);
      EvictShorter(rest, max);
      var r := Evict(rest, max);
      forall e, k | e in q && e !in r && k in r && !k.inflight ensures Precedes(e, k) {
        assert k in rest;
        assert e == q[v] || e in rest;
      }
      if rest == r {
        BytesRemoveAt(q, v);
        assert LastEvicted(q, r, max, q[v]);
      } else {
        var last :| LastEvicted(rest, r, max, last);
        forall e | e in q && e !in r && e != last ensures Precedes(e, last) {
          if e != q[v] {
            assert e in rest;
          } else {
            EvictedNotInflight(rest, r, max, last);
          }
        }
        assert LastEvicted(q, r, max, last);
      }
    }
  }

  lemma EvictedNotInflight(q: seq<Entry>, r: seq<Entry>, max: nat, e: Entry)
    requires EvictedDown(q, r, max) && e in q && e !in r
    ensures !e.inflight
  {
  }

  lemma {:induction false} EvictShorter(q: seq<Entry>, max: nat)
    ensures |Evict(q, max)| <= |q|
    decreases |q|
  {
    var v := Victim(q);
    if Bytes(q) > max && v >= 0 {
      EvictShorter(RemoveAt(q, v), max);
    }
  }

  /** Marks the entries of a batch as in flight or not. */
  function SetInflight(q: seq<Entry>, batch: seq<nat>, flag: bool): (r: seq<Entry>)
    ensures |r| == |q|
    ensures forall i :: 0 <= i < |q| ==> r[i] == (if q[i].ticket in batch then q[i].(inflight := flag) else q[i])
  {
    seq(|q|, i requires 0 <= i < |q| => if q[i].ticket in batch then q[i].(inflight := flag) else q[i])
  }

  lemma {:induction false} SetInflightBytes(q: seq<Entry>, batch: seq<nat>, flag: bool)
    ensures Bytes(SetInflight(q, batch, flag)) == Bytes(q)
  {
    if q != [] {
      SetInflightBytes(q[1..], batch, flag);
      assert SetInflight(q, batch, flag)[1..] == SetInflight(q[1..], batch, flag);
    }
  }

  /** The entries that are not of the batch. */
  function Remove(q: seq<Entry>, batch: seq<nat>): seq<Entry> {
    if q == [] then []
    else if q[|q| - 1].ticket in batch then Remove(q[..|q| - 1], batch)
    else Remove(q[..|q| - 1], batch) + [q[|q| - 1]]
  }

  /** Removing a batch that is the front of the queue leaves exactly the rest. */
  lemma {:induction false} RemoveFront(q: seq<Entry>, batch: seq<nat>)
    requires Sorted(q) && |batch| <= |q|
    requires forall i :: 0 <= i < |batch| ==> q[i].ticket == batch[i]
    ensures Remove(q, batch) == q[|batch|..]
  {
    if q != [] {
      var init := q[..|q| - 1];
      var last := q[|q| - 1];
      if |batch| == |q| {
        assert batch[|q| - 1] == last.ticket;
        RemoveAll(q, batch);
      } else {
        RemoveFront(init, batch);
        assert last.ticket !in batch;
        assert init[|batch|..] + [last] == q[|batch|..];
      }
    }
  }

  lemma {:induction false} RemoveAll(q: seq<Entry>, batch: seq<nat>)
    requires forall i :: 0 <= i < |q| ==> q[i].ticket in batch
    ensures Remove(q, batch) == []
  {
    if q != [] {
      RemoveAll(q[..|q| - 1], batch);
    }
  }

  function TicketsOf(q: seq<Entry>): (r: seq<nat>)
    ensures |r| == |q| && forall i :: 0 <= i < |q| ==> r[i] == q[i].ticket
  {
    seq(|q|, i requires 0 <= i < |q| => q[i].ticket)
  }

  ghost function Elements(s: seq<nat>): set<nat> {
    set t | t in s
  }

  ghost function Tickets(q: seq<Entry>): set<nat> {
    Elements(TicketsOf(q))
  }
}
