/** The sandbox session object: its methods take the steps of SessionTurns, with the turns in an AsyncQueue. */
module SandboxSessions {
  import opened Basics
  import opened SessionTurns
  import opened AsyncQueues

  /** Where the main loop is; the answer of a take it awaits is in the queue. */
  datatype Where = At(phase: Phase) | Awaiting(ticket: nat)

  class SandboxSession {
    const bootstrap: Option<Id>
    const turns: AsyncQueue<Id>
    var at: Where
    var stop: bool
    var seenTurns: set<Id>
    var inboxAfter: nat
    var reports: seq<Report>
    ghost var started: seq<Start>
    ghost var arrivals: seq<Id>

    ghost predicate Valid()
      reads this, turns
    {
      && turns.Valid()
      && turns.closed == stop
      && match at {
           case Awaiting(ticket) => turns.taken == ticket + 1 && (ticket <= |turns.accepted| || stop)
           case At(phase) => !phase.Waiting? && !phase.Resolved? && (turns.taken <= |turns.accepted| || stop)
         }
    }

    ghost function Phase(): Phase
      reads this, turns
    {
      match at
      case At(phase) => phase
      case Awaiting(ticket) => if ticket in turns.answers then Resolved(turns.answers[ticket]) else Waiting
    }

    ghost function State(): Session
      reads this, turns
    {
      Session(bootstrap, Phase(), stop, seenTurns, turns.items, turns.closed, inboxAfter, started, reports, arrivals)
    }

    constructor (bootstrap: Option<Id>)
      ensures Valid() && fresh(turns) && State() == Begin(bootstrap)
    {
      this.bootstrap := bootstrap;
      turns := new AsyncQueue();
      at, stop, inboxAfter, reports, started, arrivals := At(Preparing), false, 0, [], [], [];
      seenTurns := if bootstrap.Some? then {bootstrap.value} else {};
    }

    method RequestStop()
      requires Valid()
      modifies this, turns
      ensures Valid() && State() == SessionTurns.RequestStop(old(State()))
    {
      if stop { return; }
      stop := true;
      turns.Close();
    }

    /** Queues the turn unless it was seen before. */
    method AcceptTurn(turn: Id)
      requires Valid()
      modifies this, turns
      ensures Valid()
      ensures State() == HandleTurn(old(State()), turn)
    {
      arrivals := arrivals + [turn];
      if turn !in seenTurns {
        seenTurns := seenTurns + {turn};
        turns.Push(turn);
      }
    }

    method HandleInboxItem(item: Item)
      requires Valid()
      modifies this, turns
      ensures Valid() && State() == SessionTurns.HandleInboxItem(old(State()), item)
    {
      if item.number > inboxAfter { inboxAfter := item.number; }
      match item {
        case StopItem(_) => RequestStop();
        case TurnItem(_, turn, signal) =>
          if signal {
            RequestStop();
          } else if turn.Some? {
            AcceptTurn(turn.value);
          }
        case UnknownItem(_) =>
      }
    }

    method FinishPreparing(ok: bool)
      requires Valid() && at == At(Preparing)
      modifies this
      ensures Valid() && State() == Next(old(State()), Prepared(ok))
    {
      if ok {
        at := At(AtHead(bootstrap));
      } else {
        reports := if bootstrap.Some? then [Report(bootstrap.value, Failed)] else [];
        at := At(Done);
      }
    }

    method StartTurn(turn: Id)
      requires Valid() && (at.Awaiting? ==> turns.taken <= |turns.accepted| || stop)
      modifies this
      ensures Valid() && State() == SessionTurns.StartTurn(old(State()), turn)
    {
      started := started + [Start(turn, stop)];
      at := At(Running(turn));
    }

    /** The loop's head: ends when stopped, runs the turn at hand or waits for one. */
    method LoopHead()
      requires Valid() && at.At? && at.phase.AtHead?
      modifies this, turns
      ensures Valid() && State() == Next(old(State()), Loop)
    {
      if stop {
        at := At(Done);
      } else if at.phase.next.Some? {
        StartTurn(at.phase.next.value);
      } else {
        var ticket := turns.Take();
        at := Awaiting(ticket);
      }
    }

    /** The awaited take has an answer: the loop ends, or the turn runs. */
    method Resume()
      requires Valid() && at.Awaiting? && at.ticket in turns.answers
      modifies this
      ensures Valid() && State() == Next(old(State()), Step.Resume)
    {
      var next := turns.answers[at.ticket];
      if next.None? {
        at := At(Done);
      } else {
        StartTurn(next.value);
      }
    }

    method OnHarnessEnd(outcome: Status)
      requires Valid() && at.At? && at.phase.Running?
      modifies this
      ensures Valid() && State() == Next(old(State()), HarnessEnds(outcome))
    {
      var status := outcome;
      if stop { status := Stopped; } else if outcome.Stopped? { status := Failed; }
      at := At(Publishing(at.phase.turn, status));
    }

    method Complete(failed: bool)
      requires Valid() && at.At? && at.phase.Publishing?
      modifies this
      ensures Valid() && State() == Next(old(State()), Published(failed))
    {
      var status := at.phase.status;
      if failed && (status.Success? || status.AwaitingInput?) { status := Failed; }
      reports := reports + [Report(at.phase.turn, status)];
      at := At(AtHead(None));
    }
  }
}
