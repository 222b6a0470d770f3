/**
 Delivering the numbered posts: one at a time and in order, each up to four times, to a receiver that stores each
 number once and applies the posts in number order.
 */
module ChatDelivery {
  import opened Basics
  import opened ChatPosting
  import opened ChatReading

  /** How one request ends: answered, or an error (with a status, or none in transit) before or after it was stored. */
  datatype Outcome = Answered(settled: bool) | LostBefore(status: Option<int>) | LostAfter(status: Option<int>)

  /** What happens to the attempts of one post. */
  type Script = nat -> Outcome

  const RETRY_DELAYS := [250, 1000, 3000]

  /** No answer, too many requests, or a server error. */
  predicate Retryable(status: Option<int>) {
    status.None? || status.value == 429 || status.value >= 500
  }

  predicate LastTry(script: Script, attempt: nat) {
    script(attempt).Answered? || attempt >= |RETRY_DELAYS| || !Retryable(script(attempt).status)
  }

  /** The attempt after which the poster gives the post up or has its answer. */
  function LastAttempt(script: Script, attempt: nat): (r: nat)
    requires attempt <= |RETRY_DELAYS|
    ensures attempt <= r <= |RETRY_DELAYS| && LastTry(script, r)
    ensures forall k :: attempt <= k < r ==> !LastTry(script, k)
    decreases |RETRY_DELAYS| - attempt
  {
    if LastTry(script, attempt) then attempt else LastAttempt(script, attempt + 1)
  }

  predicate Stores(o: Outcome) { !o.LostBefore? }

  /** One of the attempts that are made reaches the receiver. */
  predicate GetsThrough(script: Script) {
    exists k :: 0 <= k <= LastAttempt(script, 0) && Stores(script(k))
  }

  type Receiver = map<nat, Post>

  function Stored(m: Receiver, n: Numbered): Receiver {
    if n.number in m then m else m[n.number := n.post]
  }

  /** Posts one numbered activity, again under its number while a retry may help; `error` says that it gave up. */
  method Deliver(m: Receiver, n: Numbered, script: Script) returns (m': Receiver, settled: bool, error: bool)
    ensures m' == if GetsThrough(script) then Stored(m, n) else m
    ensures error <==> !script(LastAttempt(script, 0)).Answered?
    ensures settled <==> script(LastAttempt(script, 0)) == Answered(true)
  {
    m' := m;
    var attempt := 0;
    while true
      invariant 0 <= attempt <= LastAttempt(script, 0)
      invariant m' == if exists k :: 0 <= k < attempt && Stores(script(k)) then Stored(m, n) else m
      decreases LastAttempt(script, 0) - attempt
    {
      var outcome := script(attempt);
      if Stores(outcome) {
        m' := Stored(m', n);
      }
      assert (exists k :: 0 <= k < attempt + 1 && Stores(script(k))) <==>
             (exists k :: 0 <= k < attempt && Stores(script(k))) || Stores(script(attempt));
      if outcome.Answered? {
        assert LastTry(script, attempt);
        return m', outcome.settled, false;
      }
      if attempt >= |RETRY_DELAYS| || !Retryable(outcome.status) {
        assert LastTry(script, attempt);
        return m', false, true;
      }
      attempt := attempt + 1;
    }
  }

  /** The receiver and the number of onSettled calls. */
  datatype Link = Link(received: Receiver, settledCalls: nat)

  function DeliveredOne(l: Link, n: Numbered, script: Script): Link {
    var received := if GetsThrough(script) then Stored(l.received, n) else l.received;
    var settled := script(LastAttempt(script, 0)) == Answered(true);
    Link(received, if settled && !n.final && l.settledCalls == 0 then 1 else l.settledCalls)
  }

  function DeliveredAll(outbox: seq<Numbered>, scripts: nat -> Script): Link {
    if outbox == [] then Link(map[], 0)
    else DeliveredOne(DeliveredAll(outbox[..|outbox| - 1], scripts), outbox[|outbox| - 1],
      scripts(outbox[|outbox| - 1].number))
  }

  /** The poster's queue works the outbox off in order. */
  method WorkOff(outbox: seq<Numbered>, scripts: nat -> Script) returns (received: Receiver, settledCalls: nat)
    ensures Link(received, settledCalls) == DeliveredAll(outbox, scripts)
  {
    received, settledCalls := map[], 0;
    var settledCalled := false;
    for i := 0 to |outbox|
      invariant Link(received, settledCalls) == DeliveredAll(outbox[..i], scripts)
      invariant settledCalled <==> settledCalls != 0
    {
      assert outbox[..i + 1][..i] == outbox[..i];
      var settled, error;
      received, settled, error := Deliver(received, outbox[i], scripts(outbox[i].number));
      if !error && settled && !outbox[i].final && !settledCalled {
        settledCalled := true;
        settledCalls := settledCalls + 1;
      }
    }
    assert outbox[..|outbox|] == outbox;
  }

  /** The stored numbers are exactly those that got through, each with its post; onSettled is called at most once. */
  lemma {:induction false} ReceivedExactly(outbox: seq<Numbered>, scripts: nat -> Script)
    requires forall i :: 0 <= i < |outbox| ==> outbox[i].number == i + 1
    ensures var l := DeliveredAll(outbox, scripts);
            && (forall n :: n in l.received <==> 1 <= n <= |outbox| && GetsThrough(scripts(n)))
            && (forall n :: n in l.received ==> l.received[n] == outbox[n - 1].post)
            && l.settledCalls <= 1
  {
    if outbox != [] {
      var init := outbox[..|outbox| - 1];
      ReceivedExactly(init, scripts);
    }
  }

  /** The post's last answer is that the reply is settled, though this is not part of its end. */
  predicate SettledEarly(n: Numbered, script: Script) {
    !n.final && script(LastAttempt(script, 0)) == Answered(true)
  }

  /** onSettled is called, once, if and only if some post before the reply's end was answered so. */
  lemma {:induction false} SettledExactly(outbox: seq<Numbered>, scripts: nat -> Script)
    ensures DeliveredAll(outbox, scripts).settledCalls ==
            if exists i :: 0 <= i < |outbox| && SettledEarly(outbox[i], scripts(outbox[i].number)) then 1 else 0
  {
    if outbox != [] {
      var init, last := outbox[..|outbox| - 1], outbox[|outbox| - 1];
      SettledExactly(init, scripts);
      assert outbox == init + [last];
      assert (exists i :: 0 <= i < |outbox| && SettledEarly(outbox[i], scripts(outbox[i].number))) <==>
             (exists i :: 0 <= i < |init| && SettledEarly(init[i], scripts(init[i].number)))
             || SettledEarly(last, scripts(last.number)) by {
        if i :| 0 <= i < |init| && SettledEarly(init[i], scripts(init[i].number)) {
          assert outbox[i] == init[i];
        }
        assert outbox[|init|] == last;
      }
    }
  }

  /** Attempt j failed in transit or with a server error. */
  predicate FailsPassing(script: Script, j: nat) {
    match script(j)
    case Answered(_) => false
    case LostBefore(status) => status.None? || status.value == 429 || 500 <= status.value
    case LostAfter(status) => status.None? || status.value == 429 || 500 <= status.value
  }

  /** A post is tried again after each failure in transit, with status 429 or from 500 on, three times at most. */
  lemma TriesExactly(script: Script, k: nat)
    ensures k <= LastAttempt(script, 0) <==> k <= 3 && forall j: nat :: j < k ==> FailsPassing(script, j)
  {
    var last := LastAttempt(script, 0);
    assert forall j: nat :: LastTry(script, j) <==> j >= 3 || !FailsPassing(script, j);
    if k > last && k <= 3 {
      assert LastTry(script, last) && !FailsPassing(script, last);
    }
  }

  /** The posts of the numbers 1 to n, in number order. */
  function InOrder(m: Receiver, n: nat): seq<Post>
    requires forall k :: 1 <= k <= n ==> k in m
  {
    if n == 0 then [] else InOrder(m, n - 1) + [m[n]]
  }

  lemma {:induction false} InOrderIs(m: Receiver, n: nat, posts: seq<Post>)
    requires n <= |posts| && forall k :: 1 <= k <= n ==> k in m && m[k] == posts[k - 1]
    ensures InOrder(m, n) == posts[..n]
  {
    if n > 0 {
      InOrderIs(m, n - 1, posts);
    }
  }

  /**
   When each post of a drained run gets through within its four attempts, the receiver ends with exactly the posts, in
   order, and they retell the run's activities like the plain stream of them, whatever was lost, repeated or timed how.
   */
  lemma EndToEnd(steps: seq<Step>, scripts: nat -> Script)
    requires forall n :: 1 <= n <= |Flushed(Run(steps)).outbox| ==> GetsThrough(scripts(n))
    ensures var outbox := Flushed(Run(steps)).outbox; var m := DeliveredAll(outbox, scripts).received;
            && |m| == |outbox|
            && (forall n :: 1 <= n <= |outbox| ==> n in m)
            && InOrder(m, |outbox|) == Posts(outbox)
            && ReadAll(InOrder(m, |outbox|)) == ReadAll(Plain(Pushes(steps)))
            && Retells(Pushes(steps), ReadAll(InOrder(m, |outbox|)))
  {
    CoalescingRefines(steps);
    RunRetells(steps);
    AllArrive(Flushed(Run(steps)).outbox, scripts);
  }

  lemma AllArrive(outbox: seq<Numbered>, scripts: nat -> Script)
    requires forall i :: 0 <= i < |outbox| ==> outbox[i].number == i + 1
    requires forall n :: 1 <= n <= |outbox| ==> GetsThrough(scripts(n))
    ensures var m := DeliveredAll(outbox, scripts).received;
            |m| == |outbox| && (forall n :: 1 <= n <= |outbox| ==> n in m) && InOrder(m, |outbox|) == Posts(outbox)
  {
    var m := DeliveredAll(outbox, scripts).received;
    ReceivedExactly(outbox, scripts);
    InOrderIs(m, |outbox|, Posts(outbox));
    assert Posts(outbox)[..|outbox|] == Posts(outbox);
    CountTo(m, |outbox|);
  }

  lemma {:induction false} CountTo(m: Receiver, n: nat)
    requires forall k :: k in m <==> 1 <= k <= n
    ensures |m| == n
  {
    if n == 0 {
      assert m == map[];
    } else {
      var rest := map k | k in m && k != n :: m[k];
      CountTo(rest, n - 1);
      assert m == rest[n := m[n]];
    }
  }
}
