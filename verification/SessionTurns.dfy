/**
 A sandbox session's turns: an inbox that may deliver an item more than once feeds a queue, and the session runs the
 turns one after the other until it is stopped. Every step is the code between two awaits; steps come in any order.
 */
module SessionTurns {
  import opened Basics

  type Id = string

  datatype Status = Success | AwaitingInput | Failed | Stopped

  /** An inbox item: a stop, a turn or signal (with its turn, if any, and whether it says stop), or something else. */
  datatype Item = StopItem(number: nat) | TurnItem(number: nat, turn: Option<Id>, stop: bool) | UnknownItem(number: nat)

  /**
   Where the session's main loop is: preparing the workspace, at the head of the loop (with the turn to run next, if it
   has one), waiting in take(), with a take() resolved but not yet gone on, running a turn's harness, publishing it
   with its status, or done.
   */
  datatype Phase =
    | Preparing
    | AtHead(next: Option<Id>)
    | Waiting
    | Resolved(taken: Option<Id>)
    | Running(turn: Id)
    | Publishing(turn: Id, status: Status)
    | Done

  datatype Start = Start(id: Id, stopped: bool)
  datatype Report = Report(id: Id, status: Status)

  /**
   `items` and `closed` are the queue's. `started` lists the turns started, each with whether a stop was requested by
   then, `reports` the completed ones, `arrivals` the turns the inbox delivered, repeats included.
   */
  datatype Session = Session(bootstrap: Option<Id>, phase: Phase, stop: bool, seen: set<Id>, items: seq<Id>,
                             closed: bool, inboxAfter: nat, started: seq<Start>, reports: seq<Report>,
                             arrivals: seq<Id>)

  datatype Step =
    | Inbox(item: Item)
    | StopRequest
    | Prepared(ok: bool)
    | Loop
    | Resume
    | HarnessEnds(outcome: Status)
    | Published(failed: bool)
    | Crash

  // ----- the steps -----

  function Opt(o: Option<Id>): seq<Id> {
    if o.Some? then [o.value] else []
  }

  function Begin(bootstrap: Option<Id>): Session {
    Session(bootstrap, Preparing, false, if bootstrap.Some? then {bootstrap.value} else {}, [], false, 0, [], [], [])
  }

  /** Close the queue: a pending take gets nothing. */
  function RequestStop(s: Session): Session {
    if s.stop then s
    else s.(stop := true, closed := true, phase := if s.phase.Waiting? then Resolved(None) else s.phase)
  }

  /** AsyncQueue.push: a waiting take gets the turn, a closed queue drops it. */
  function Push(s: Session, turn: Id): Session {
    if s.closed then s
    else if s.phase.Waiting? then s.(phase := Resolved(Some(turn)))
    else s.(items := s.items + [turn])
  }

  function HandleTurn(s: Session, turn: Id): Session {
    var s := s.(arrivals := s.arrivals + [turn]);
    if turn in s.seen then s else Push(s.(seen := s.seen + {turn}), turn)
  }

  function HandleInboxItem(s: Session, item: Item): Session {
    var s := s.(inboxAfter := if item.number > s.inboxAfter then item.number else s.inboxAfter);
    match item
    case StopItem(_) => RequestStop(s)
    case TurnItem(_, turn, stop) =>
      if stop then RequestStop(s)
      else if turn.None? then s
      else HandleTurn(s, turn.value)
    case UnknownItem(_) => s
  }

  /** AsyncQueue.take, as the loop calls it. */
  function TakeNext(s: Session): Session {
    if s.items != [] then s.(phase := Resolved(Some(s.items[0])), items := s.items[1..])
    else if s.closed then s.(phase := Resolved(None))
    else s.(phase := Waiting)
  }

  function StartTurn(s: Session, turn: Id): Session {
    s.(phase := Running(turn), started := s.started + [Start(turn, s.stop)])
  }

  function Next(s: Session, step: Step): Session {
    match step
    case Inbox(item) => HandleInboxItem(s, item)
    case StopRequest => RequestStop(s)
    case Prepared(ok) =>
      if !s.phase.Preparing? then s
      else if ok then s.(phase := AtHead(s.bootstrap))
      else s.(phase := Done, reports := if s.bootstrap.Some? then [Report(s.bootstrap.value, Failed)] else [])
    case Loop =>
      if !s.phase.AtHead? then s
      else if s.stop then s.(phase := Done)
      else if s.phase.next.Some? then StartTurn(s, s.phase.next.value)
      else TakeNext(s)
    case Resume =>
      if !s.phase.Resolved? then s
      else if s.phase.taken.None? then s.(phase := Done)
      else StartTurn(s, s.phase.taken.value)
    case HarnessEnds(outcome) =>
      if !s.phase.Running? then s
      else
        var status := if s.stop then Stopped else if outcome.Stopped? then Failed else outcome;
        s.(phase := Publishing(s.phase.turn, status))
    case Published(failed) =>
      if !s.phase.Publishing? then s
      else
        var status := if failed && (s.phase.status.Success? || s.phase.status.AwaitingInput?) then Failed
          else s.phase.status;
        s.(phase := AtHead(None), reports := s.reports + [Report(s.phase.turn, status)])
    case Crash => if s.phase.Preparing? || s.phase.Running? || s.phase.Publishing? then s.(phase := Done) else s
  }

  function Run(bootstrap: Option<Id>, steps: seq<Step>): Session {
    if steps == [] then Begin(bootstrap) else Next(Run(bootstrap, steps[..|steps| - 1]), steps[|steps| - 1])
  }

  // ----- the turns a session should run -----

  /** First occurrences, in order. */
  function Firsts(s: seq<Id>): seq<Id> {
    if s == [] then []
    else
      var init, last := Firsts(s[..|s| - 1]), s[|s| - 1];
      if last in init then init else init + [last]
  }

  ghost predicate AllDistinct(s: seq<Id>) {
    forall i, j :: 0 <= i < j < |s| ==> s[i] != s[j]
  }

  lemma {:induction false} FirstsAre(s: seq<Id>)
    ensures AllDistinct(Firsts(s)) && forall x :: x in Firsts(s) <==> x in s
  {
    if s != [] {
      FirstsAre(s[..|s| - 1]);
      assert s == s[..|s| - 1] + [s[|s| - 1]];
    }
  }

  /** The bootstrap turn, then the turns of the inbox in arrival order, each once. */
  function Due(s: Session): seq<Id> { Firsts(Opt(s.bootstrap) + s.arrivals) }

  lemma DueMore(s: Session, turn: Id)
    ensures var s' := s.(arrivals := s.arrivals + [turn]);
            Due(s') == if turn in Due(s) then Due(s) else Due(s) + [turn]
  {
    var all := Opt(s.bootstrap) + (s.arrivals + [turn]);
    assert all[..|all| - 1] == Opt(s.bootstrap) + s.arrivals;
    assert all[|all| - 1] == turn;
  }

  function Ids(started: seq<Start>): (r: seq<Id>)
    ensures |r| == |started| && forall i :: 0 <= i < |r| ==> r[i] == started[i].id
  {
    seq(|started|, i requires 0 <= i < |started| => started[i].id)
  }

  function ReportIds(reports: seq<Report>): (r: seq<Id>)
    ensures |r| == |reports| && forall i :: 0 <= i < |r| ==> r[i] == reports[i].id
  {
    seq(|reports|, i requires 0 <= i < |reports| => reports[i].id)
  }

  /** The turn that left the queue and is not started yet. */
  function Pending(s: Session): seq<Id> {
    match s.phase
    case Preparing => Opt(s.bootstrap)
    case AtHead(next) => Opt(next)
    case Resolved(taken) => Opt(taken)
    case _ => []
  }

  // ----- what every step keeps -----

  /** Started, pending and queued turns are all that is due; after a stop, or once done, the first of it. */
  ghost predicate TurnsInOrder(s: Session, due: seq<Id>) {
    && Ids(s.started) + Pending(s) <= due
    && (!s.stop && !s.phase.Done? ==> Ids(s.started) + Pending(s) + s.items == due)
  }

  ghost predicate StartedAfterStop(s: Session) {
    && (forall i :: 0 <= i < |s.started| && s.started[i].stopped ==> s.stop && i == |s.started| - 1)
    && (s.started != [] && s.started[|s.started| - 1].stopped ==>
         !s.phase.Preparing? && !s.phase.Waiting? && !s.phase.Resolved?)
  }

  /** Every started turn but the one in progress is reported, in order; a turn started after the stop as stopped. */
  ghost predicate Reported(s: Session) {
    && (s.phase.Done? || ReportIds(s.reports) + InProgress(s) == Ids(s.started))
    && (s.phase.Preparing? ==> s.started == [])
    && (s.phase.Running? || s.phase.Publishing? ==> s.started != [])
    && (s.phase.Publishing? && s.started[|s.started| - 1].stopped ==> s.phase.status.Stopped?)
    && (s.started != [] ==> ReportIds(s.reports) <= Ids(s.started))
    && forall i :: 0 <= i < |s.started| && i < |s.reports| && s.started[i].stopped ==> s.reports[i].status.Stopped?
  }

  function InProgress(s: Session): seq<Id> {
    if s.phase.Running? || s.phase.Publishing? then [s.phase.turn] else []
  }

  /** `due` are the turns due so far. */
  ghost predicate Inv(s: Session, due: seq<Id>) {
    && (forall x :: x in s.seen <==> x in due)
    && s.closed == s.stop
    && (s.phase.Waiting? ==> s.items == [] && !s.stop)
    && TurnsInOrder(s, due)
    && StartedAfterStop(s)
    && Reported(s)
  }

  lemma BeginInv(bootstrap: Option<Id>)
    ensures Inv(Begin(bootstrap), Due(Begin(bootstrap)))
  {
    var all := Opt(bootstrap);
    assert all + [] == all;
    assert Firsts(all) == all by {
      if bootstrap.Some? {
        assert all[..0] == [] && Firsts(all[..0]) == [];
      }
    }
  }

  lemma RequestStopKeeps(s: Session, due: seq<Id>)
    requires Inv(s, due)
    ensures Inv(RequestStop(s), due)
  {
  }

  function Arrived(due: seq<Id>, turn: Id): seq<Id> {
    if turn in due then due else due + [turn]
  }

  /** A turn that arrives again, or after the queue was closed. */
  lemma ArrivalIgnored(s: Session, due: seq<Id>, turn: Id, seen: set<Id>)
    requires Inv(s, due)
    requires if turn in s.seen then seen == s.seen else s.closed && seen == s.seen + {turn}
    ensures Inv(s.(arrivals := s.arrivals + [turn], seen := seen), Arrived(due, turn))
  {
  }

  function Queued(s: Session, turn: Id): Session {
    Push(s.(arrivals := s.arrivals + [turn], seen := s.seen + {turn}), turn)
  }

  lemma QueuedInOrder(s: Session, due: seq<Id>, turn: Id)
    requires TurnsInOrder(s, due) && turn !in due && !s.closed && !s.stop && (s.phase.Waiting? ==> s.items == [])
    ensures TurnsInOrder(Queued(s, turn), due + [turn])
  {
    var s' := Queued(s, turn);
    var started := Ids(s.started);
    if s.phase.Waiting? {
      assert started + Pending(s) + s.items == started;
      assert started + Pending(s') == started + [turn] == started + Pending(s') + s'.items;
    } else {
      var front := started + Pending(s);
      assert front + s'.items == (front + s.items) + [turn];
    }
  }

  lemma ArrivalQueued(s: Session, due: seq<Id>, turn: Id)
    requires Inv(s, due) && turn !in s.seen && !s.closed
    ensures Inv(Queued(s, turn), due + [turn])
  {
    QueuedInOrder(s, due, turn);
  }

  /** What is due after an inbox item. */
  function DueAfter(due: seq<Id>, item: Item): seq<Id> {
    if item.TurnItem? && !item.stop && item.turn.Some? then Arrived(due, item.turn.value) else due
  }

  lemma InboxKeeps(s: Session, due: seq<Id>, item: Item)
    requires Inv(s, due)
    ensures Inv(HandleInboxItem(s, item), DueAfter(due, item))
  {
    var s1 := s.(inboxAfter := if item.number > s.inboxAfter then item.number else s.inboxAfter);
    assert Inv(s1, due);
    match item
    case StopItem(_) => RequestStopKeeps(s1, due);
    case TurnItem(_, turn, stop) =>
      if stop {
        RequestStopKeeps(s1, due);
      } else if turn.Some? {
        if turn.value in s1.seen {
          ArrivalIgnored(s1, due, turn.value, s1.seen);
        } else if s1.closed {
          ArrivalIgnored(s1, due, turn.value, s1.seen + {turn.value});
        } else {
          ArrivalQueued(s1, due, turn.value);
        }
      }
    case UnknownItem(_) =>
  }

  lemma StartKeeps(s: Session, due: seq<Id>, turn: Id)
    requires Inv(s, due) && Pending(s) == [turn] && (s.phase.AtHead? || s.phase.Resolved?)
    requires s.stop ==> s.phase.Resolved?
    ensures Inv(StartTurn(s, turn), due)
  {
    var s' := StartTurn(s, turn);
    assert Ids(s'.started) == Ids(s.started) + [turn];
    assert Ids(s'.started) + [] == Ids(s'.started);
    assert ReportIds(s.reports) + [] == ReportIds(s.reports);
  }

  lemma TakeKeeps(s: Session, due: seq<Id>)
    requires Inv(s, due) && s.phase == AtHead(None) && !s.stop
    ensures Inv(TakeNext(s), due)
  {
    if s.items != [] {
      var started := Ids(s.started);
      assert s.items == [s.items[0]] + s.items[1..];
      assert started + [] + s.items == started + [s.items[0]] + s.items[1..];
    }
  }

  lemma FrontIsFront(a: seq<Id>, b: seq<Id>, all: seq<Id>)
    requires a + b <= all
    ensures a <= all && (AllDistinct(all) ==> AllDistinct(a))
  {
    assert forall i :: 0 <= i < |a| ==> a[i] == (a + b)[i];
  }

  /** Ending the loop, from wherever it is. */
  lemma DoneKeeps(s: Session, due: seq<Id>)
    requires Inv(s, due)
    ensures Inv(s.(phase := Done), due)
  {
    FrontIsFront(Ids(s.started), Pending(s), due);
    assert Ids(s.started) + [] == Ids(s.started);
  }

  lemma PreparedKeeps(s: Session, due: seq<Id>, ok: bool)
    requires Inv(s, due) && s.phase.Preparing?
    ensures Inv(Next(s, Prepared(ok)), due)
  {
    if !ok {
      DoneKeeps(s, due);
    }
  }

  lemma HarnessKeeps(s: Session, due: seq<Id>, outcome: Status)
    requires Inv(s, due) && s.phase.Running?
    ensures Inv(Next(s, HarnessEnds(outcome)), due)
  {
  }

  lemma PublishedReports(s: Session, failed: bool)
    requires Reported(s) && s.phase.Publishing?
    ensures Reported(Next(s, Published(failed)))
  {
    var s' := Next(s, Published(failed));
    assert ReportIds(s'.reports) == ReportIds(s.reports) + [s.phase.turn] == Ids(s.started);
    assert ReportIds(s'.reports) + [] == Ids(s.started);
    assert |s.started| == |s'.reports| == |s.reports| + 1;
  }

  lemma PublishedKeeps(s: Session, due: seq<Id>, failed: bool)
    requires Inv(s, due) && s.phase.Publishing?
    ensures Inv(Next(s, Published(failed)), due)
  {
    PublishedReports(s, failed);
  }

  lemma NextKeeps(s: Session, due: seq<Id>, step: Step)
    requires Inv(s, due)
    ensures Inv(Next(s, step), if step.Inbox? then DueAfter(due, step.item) else due)
  {
    match step
    case Inbox(item) => InboxKeeps(s, due, item);
    case StopRequest => RequestStopKeeps(s, due);
    case Prepared(ok) => if s.phase.Preparing? { PreparedKeeps(s, due, ok); }
    case Loop =>
      if s.phase.AtHead? {
        if s.stop { DoneKeeps(s, due); }
        else if s.phase.next.Some? { StartKeeps(s, due, s.phase.next.value); }
        else { TakeKeeps(s, due); }
      }
    case Resume =>
      if s.phase.Resolved? {
        if s.phase.taken.None? { DoneKeeps(s, due); } else { StartKeeps(s, due, s.phase.taken.value); }
      }
    case HarnessEnds(outcome) => if s.phase.Running? { HarnessKeeps(s, due, outcome); }
    case Published(failed) => if s.phase.Publishing? { PublishedKeeps(s, due, failed); }
    case Crash => if Next(s, Crash).phase.Done? { DoneKeeps(s, due); }
  }

  function Arrival(step: Step): seq<Id> {
    if step.Inbox? && step.item.TurnItem? && !step.item.stop then Opt(step.item.turn) else []
  }

  lemma NextArrival(s: Session, step: Step)
    ensures Next(s, step).bootstrap == s.bootstrap
    ensures Next(s, step).arrivals == s.arrivals + Arrival(step)
  {
  }

  lemma NextDue(s: Session, step: Step)
    ensures Due(Next(s, step)) == if step.Inbox? then DueAfter(Due(s), step.item) else Due(s)
  {
    NextArrival(s, step);
    var s' := Next(s, step);
    if Arrival(step) == [] {
      assert s'.arrivals == s.arrivals;
    } else {
      DueMore(s, step.item.turn.value);
    }
  }

  lemma {:induction false} RunKeeps(bootstrap: Option<Id>, steps: seq<Step>)
    ensures var s := Run(bootstrap, steps); s.bootstrap == bootstrap && Inv(s, Due(s))
  {
    if steps == [] {
      BeginInv(bootstrap);
    } else {
      var s, step := Run(bootstrap, steps[..|steps| - 1]), steps[|steps| - 1];
      RunKeeps(bootstrap, steps[..|steps| - 1]);
      NextKeeps(s, Due(s), step);
      NextArrival(s, step);
      NextDue(s, step);
    }
  }

  // ----- what holds after every run -----

  /**
   For any redelivery and interleaving: the turns started are distinct, and are the first of the bootstrap turn followed
   by the inbox's turns in arrival order. Until a stop or the end none is lost: what is not started is pending or
   queued.
   */
  lemma ExactlyOnce(bootstrap: Option<Id>, steps: seq<Step>)
    ensures var s := Run(bootstrap, steps);
            && AllDistinct(Ids(s.started))
            && Ids(s.started) <= Firsts(Opt(bootstrap) + s.arrivals)
            && (!s.stop && !s.phase.Done? ==>
                 Ids(s.started) + Pending(s) + s.items == Firsts(Opt(bootstrap) + s.arrivals))
  {
    RunKeeps(bootstrap, steps);
    var s := Run(bootstrap, steps);
    FirstsAre(Opt(bootstrap) + s.arrivals);
    FrontIsFront(Ids(s.started), Pending(s), Due(s));
  }

  /**
   After a stop request at most one further turn starts, the last one, and if it completes it is reported as stopped.
   Turns are reported in the order they started, each at most once.
   */
  lemma StopIsRespected(bootstrap: Option<Id>, steps: seq<Step>)
    ensures var s := Run(bootstrap, steps);
            && (forall i :: 0 <= i < |s.started| && s.started[i].stopped ==> i == |s.started| - 1)
            && (s.started != [] ==> ReportIds(s.reports) <= Ids(s.started))
            && forall i :: 0 <= i < |s.started| && i < |s.reports| && s.started[i].stopped ==>
                 s.reports[i] == Report(s.started[i].id, Stopped)
  {
    RunKeeps(bootstrap, steps);
    var s := Run(bootstrap, steps);
    forall i | 0 <= i < |s.started| && i < |s.reports| && s.started[i].stopped
      ensures s.reports[i] == Report(s.started[i].id, Stopped) {
      assert ReportIds(s.reports)[i] == Ids(s.started)[i];
    }
  }
}
