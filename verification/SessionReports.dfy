/**
 What a sandbox session reports of its turns, told from the steps of a run: which turns are reported, with which
 status, what the inbox position is, and when the session is over.
 */
module SessionReports {
  import opened Basics
  import opened SessionTurns

  // ----- what the steps say -----

  /** A stop from outside or from the inbox. */
  predicate IsStop(step: Step) {
    step.StopRequest? || (step.Inbox? && (step.item.StopItem? || (step.item.TurnItem? && step.item.stop)))
  }

  predicate StopIn(steps: seq<Step>) { exists i :: 0 <= i < |steps| && IsStop(steps[i]) }

  /** None of the steps settles the preparation of the workspace. */
  predicate Unprepared(steps: seq<Step>) {
    forall i :: 0 <= i < |steps| ==> !steps[i].Prepared? && !steps[i].Crash?
  }

  /** The preparation came to an end and failed. */
  predicate PreparationFails(steps: seq<Step>) {
    exists n :: 0 <= n < |steps| && steps[n] == Prepared(false) && Unprepared(steps[..n])
  }

  /** The session before each step and after the last. */
  function Trace(bootstrap: Option<Id>, steps: seq<Step>): (tr: seq<Session>)
    ensures |tr| == |steps| + 1 && forall i :: 0 <= i <= |steps| ==> tr[i] == Run(bootstrap, steps[..i])
  {
    seq(|steps| + 1, i requires 0 <= i <= |steps| => Run(bootstrap, steps[..i]))
  }

  /** Turn k starts with step n. */
  predicate StartsAt(tr: seq<Session>, k: nat, n: nat) {
    n + 1 < |tr| && |tr[n].started| == k < |tr[n + 1].started|
  }

  /** None of the steps after n and before m is a harness end or a crash. */
  predicate HarnessGoesOn(steps: seq<Step>, n: nat, m: nat) {
    m <= |steps| && forall j :: n < j < m ==> !steps[j].HarnessEnds? && !steps[j].Crash?
  }

  /** None of the steps after h and before m publishes or crashes. */
  predicate PublishGoesOn(steps: seq<Step>, h: nat, m: nat) {
    m <= |steps| && forall j :: h < j < m ==> !steps[j].Published? && !steps[j].Crash?
  }

  /** Turn k starts with step n; then its harness ends with step h, and its publishing with step p. */
  predicate Completes(tr: seq<Session>, steps: seq<Step>, k: nat, n: nat, h: nat, p: nat) {
    && n < h < p < |steps| && StartsAt(tr, k, n)
    && HarnessGoesOn(steps, n, h) && steps[h].HarnessEnds?
    && PublishGoesOn(steps, h, p) && steps[p].Published?
  }

  /**
   The status of a turn whose harness ended with step h and whose publishing with step p: stopped if a stop came
   before the harness ended; else as the harness ended if that was well and publishing did not fail; else failed.
   */
  function StatusOf(steps: seq<Step>, h: nat, p: nat): Status
    requires h < |steps| && steps[h].HarnessEnds? && p < |steps| && steps[p].Published?
  {
    if StopIn(steps[..h]) then Stopped
    else if (steps[h].outcome.Success? || steps[h].outcome.AwaitingInput?) && !steps[p].failed then steps[h].outcome
    else Failed
  }

  // ----- one step more -----

  lemma StopMore(steps: seq<Step>, step: Step)
    ensures StopIn(steps + [step]) <==> StopIn(steps) || IsStop(step)
  {
    var longer := steps + [step];
    if StopIn(steps) {
      var i :| 0 <= i < |steps| && IsStop(steps[i]);
      assert IsStop(longer[i]);
    }
    if IsStop(step) {
      assert IsStop(longer[|steps|]);
    }
  }

  /** The session knows of a stop exactly when one came. */
  lemma {:induction false} StopKnown(bootstrap: Option<Id>, steps: seq<Step>)
    ensures Run(bootstrap, steps).stop <==> StopIn(steps)
  {
    if steps != [] {
      var init, last := steps[..|steps| - 1], steps[|steps| - 1];
      StopKnown(bootstrap, init);
      StepStops(Run(bootstrap, init), last);
      StopMore(init, last);
      assert steps == init + [last];
    }
  }

  lemma StepStops(s: Session, step: Step)
    ensures Next(s, step).stop <==> s.stop || IsStop(step)
  {
  }

  /** The session prepares exactly while nothing settled that. */
  lemma {:induction false} PreparingKnown(bootstrap: Option<Id>, steps: seq<Step>)
    ensures Run(bootstrap, steps).phase.Preparing? <==> Unprepared(steps)
    ensures Unprepared(steps) ==> Run(bootstrap, steps).reports == []
  {
    if steps != [] {
      var init, last := steps[..|steps| - 1], steps[|steps| - 1];
      PreparingKnown(bootstrap, init);
      StepPreparing(Run(bootstrap, init), last);
      UnpreparedMore(steps);
    }
  }

  lemma UnpreparedMore(steps: seq<Step>)
    requires steps != []
    ensures var last := steps[|steps| - 1];
            Unprepared(steps) <==> Unprepared(steps[..|steps| - 1]) && !last.Prepared? && !last.Crash?
  {
    var init := steps[..|steps| - 1];
    assert steps == init + [steps[|steps| - 1]];
  }

  lemma StepPreparing(s: Session, step: Step)
    ensures Next(s, step).phase.Preparing? <==> s.phase.Preparing? && !step.Prepared? && !step.Crash?
    ensures s.phase.Preparing? && !step.Prepared? ==> Next(s, step).reports == s.reports
  {
  }

  /** What a step can do to the turns and reports of a session. */
  ghost predicate Follows(s: Session, step: Step, s': Session) {
    && s.started <= s'.started && |s'.started| <= |s.started| + 1
    && (|s'.started| > |s.started| ==> s'.phase == Running(s'.started[|s.started|].id) && s'.reports == s.reports)
    && (s.phase.Running? && !step.HarnessEnds? && !step.Crash? ==> s'.phase == s.phase && s'.started == s.started)
    && (s.phase.Publishing? && !step.Published? && !step.Crash? ==> s'.phase == s.phase && s'.started == s.started)
    && (!s.phase.Preparing? ==> s.reports <= s'.reports && !s'.phase.Preparing?)
    && (s.phase.Done? ==> s'.phase.Done? && s'.started == s.started && s'.reports == s.reports)
  }

  predicate EndsWell(outcome: Status) { outcome.Success? || outcome.AwaitingInput? }

  /** How turns come to an end. */
  ghost predicate Ends(s: Session, step: Step, s': Session) {
    && (s.phase.Running? && step.HarnessEnds? ==>
         && s'.started == s.started && s'.reports == s.reports
         && s'.phase == Publishing(s.phase.turn,
                                   if s.stop then Stopped else if EndsWell(step.outcome) then step.outcome else Failed))
    && (s.phase.Publishing? && step.Published? ==>
         s'.reports == s.reports + [Report(s.phase.turn, if EndsWell(s.phase.status) && step.failed then Failed
                                                         else s.phase.status)])
  }

  /** Where a turn in progress or a report can come from. */
  ghost predicate ComesFrom(s: Session, step: Step, s': Session) {
    && (s'.phase.Running? ==>
         if s.phase.Running? then s'.started == s.started && !step.HarnessEnds? && !step.Crash?
         else |s'.started| == |s.started| + 1)
    && (s'.phase.Publishing? ==>
         && s'.started == s.started
         && if s.phase.Publishing? then !step.Published? && !step.Crash? else s.phase.Running? && step.HarnessEnds?)
    && (|s'.reports| > |s.reports| ==>
         && |s'.reports| == |s.reports| + 1
         && if s.phase.Preparing? then step == Prepared(false) else s.phase.Publishing? && step.Published?)
  }

  lemma StepFollows(s: Session, step: Step)
    requires s.phase.Preparing? ==> s.reports == []
    ensures Follows(s, step, Next(s, step))
  {
  }

  lemma StepEnds(s: Session, step: Step)
    ensures Ends(s, step, Next(s, step))
  {
  }

  lemma StepComesFrom(s: Session, step: Step)
    requires s.phase.Preparing? ==> s.reports == []
    ensures ComesFrom(s, step, Next(s, step))
  {
  }

  /** Started turns but the last are reported while a turn is in progress. */
  ghost predicate InStep(s: Session) {
    s.phase.Running? || s.phase.Publishing? ==>
      |s.reports| + 1 == |s.started| && s.phase.turn == s.started[|s.started| - 1].id
  }

  /** What is used of a run: each session follows from the one before. */
  ghost predicate Proper(tr: seq<Session>, steps: seq<Step>) {
    && |tr| == |steps| + 1
    && (forall i :: 0 <= i < |steps| ==> Leads(tr[i], steps[i], tr[i + 1]))
    && forall i :: 0 <= i <= |steps| ==> Told(tr[i], steps[..i])
  }

  ghost predicate Leads(s: Session, step: Step, s': Session) {
    Follows(s, step, s') && Ends(s, step, s') && ComesFrom(s, step, s')
  }

  ghost predicate Told(s: Session, steps: seq<Step>) {
    InStep(s) && (s.stop <==> StopIn(steps)) && (s.phase.Preparing? <==> Unprepared(steps))
  }

  lemma ReachedInStep(bootstrap: Option<Id>, steps: seq<Step>)
    ensures InStep(Run(bootstrap, steps))
  {
    RunKeeps(bootstrap, steps);
    var s := Run(bootstrap, steps);
    if s.phase.Running? || s.phase.Publishing? {
      var all := ReportIds(s.reports) + [s.phase.turn];
      assert all == Ids(s.started);
      assert all[|all| - 1] == s.phase.turn;
    }
  }

  lemma TraceStep(bootstrap: Option<Id>, steps: seq<Step>, i: nat)
    requires i < |steps|
    ensures Leads(Run(bootstrap, steps[..i]), steps[i], Run(bootstrap, steps[..i + 1]))
  {
    var s := Run(bootstrap, steps[..i]);
    assert steps[..i + 1][..i] == steps[..i];
    PreparingKnown(bootstrap, steps[..i]);
    StepFollows(s, steps[i]);
    StepEnds(s, steps[i]);
    StepComesFrom(s, steps[i]);
  }

  lemma TraceProper(bootstrap: Option<Id>, steps: seq<Step>)
    ensures Proper(Trace(bootstrap, steps), steps)
  {
    var tr := Trace(bootstrap, steps);
    forall i | 0 <= i < |steps| ensures Leads(tr[i], steps[i], tr[i + 1]) {
      TraceStep(bootstrap, steps, i);
    }
    forall i | 0 <= i <= |steps| ensures Told(tr[i], steps[..i]) {
      ReachedInStep(bootstrap, steps[..i]);
      StopKnown(bootstrap, steps[..i]);
      PreparingKnown(bootstrap, steps[..i]);
    }
  }

  // ----- a turn that completes is reported -----

  lemma {:induction false} StillRunning(tr: seq<Session>, steps: seq<Step>, k: nat, n: nat, m: nat)
    requires Proper(tr, steps) && StartsAt(tr, k, n) && n < m <= |steps| && HarnessGoesOn(steps, n, m)
    ensures |tr[m].started| == k + 1 && tr[m].phase == Running(tr[m].started[k].id)
    decreases m
  {
    assert Leads(tr[m - 1], steps[m - 1], tr[m]);
    if m > n + 1 {
      StillRunning(tr, steps, k, n, m - 1);
    }
  }

  lemma {:induction false} StillPublishing(tr: seq<Session>, steps: seq<Step>, h: nat, m: nat)
    requires Proper(tr, steps) && h < m <= |steps| && PublishGoesOn(steps, h, m) && tr[h + 1].phase.Publishing?
    ensures tr[m].phase == tr[h + 1].phase && tr[m].started == tr[h + 1].started
    decreases m
  {
    if m > h + 1 {
      StillPublishing(tr, steps, h, m - 1);
      assert Leads(tr[m - 1], steps[m - 1], tr[m]);
    }
  }

  lemma {:induction false} ReportStays(tr: seq<Session>, steps: seq<Step>, m: nat)
    requires Proper(tr, steps) && m <= |steps| && !tr[m].phase.Preparing?
    ensures tr[m].reports <= tr[|steps|].reports && tr[m].started <= tr[|steps|].started
    decreases |steps| - m
  {
    if m < |steps| {
      assert Leads(tr[m], steps[m], tr[m + 1]);
      ReportStays(tr, steps, m + 1);
    }
  }

  /** A turn that starts, ends and is published is reported in its place, with the status the steps give it. */
  lemma CompletedIsReported(tr: seq<Session>, steps: seq<Step>, k: nat, n: nat, h: nat, p: nat)
    requires Proper(tr, steps) && Completes(tr, steps, k, n, h, p)
    ensures var s := tr[|steps|];
            k < |s.reports| && k < |s.started| && s.reports[k] == Report(s.started[k].id, StatusOf(steps, h, p))
  {
    StillRunning(tr, steps, k, n, h);
    assert Leads(tr[h], steps[h], tr[h + 1]) && Told(tr[h], steps[..h]);
    StillPublishing(tr, steps, h, p);
    assert Leads(tr[p], steps[p], tr[p + 1]) && Told(tr[p], steps[..p]);
    ReportStays(tr, steps, p + 1);
  }

  // ----- what is reported has completed -----

  lemma {:induction false} WhenStarted(tr: seq<Session>, steps: seq<Step>, m: nat) returns (n: nat)
    requires Proper(tr, steps) && m <= |steps| && tr[m].phase.Running? && tr[0].phase.Preparing?
    ensures n < m && tr[m].started != [] && StartsAt(tr, |tr[m].started| - 1, n) && HarnessGoesOn(steps, n, m)
    decreases m
  {
    assert Leads(tr[m - 1], steps[m - 1], tr[m]);
    if tr[m - 1].phase.Running? {
      n := WhenStarted(tr, steps, m - 1);
    } else {
      n := m - 1;
    }
  }

  lemma {:induction false} WhenEnded(tr: seq<Session>, steps: seq<Step>, m: nat) returns (n: nat, h: nat)
    requires Proper(tr, steps) && m <= |steps| && tr[m].phase.Publishing? && tr[0].phase.Preparing?
    ensures n < h < m && tr[m].started != [] && StartsAt(tr, |tr[m].started| - 1, n)
    ensures HarnessGoesOn(steps, n, h) && steps[h].HarnessEnds? && PublishGoesOn(steps, h, m)
    decreases m
  {
    assert Leads(tr[m - 1], steps[m - 1], tr[m]);
    if tr[m - 1].phase.Publishing? {
      n, h := WhenEnded(tr, steps, m - 1);
    } else {
      n := WhenStarted(tr, steps, m - 1);
      h := m - 1;
    }
  }

  lemma {:induction false} WhenReported(tr: seq<Session>, steps: seq<Step>, m: nat, k: nat)
    returns (n: nat, h: nat, p: nat)
    requires Proper(tr, steps) && m <= |steps| && tr[0].phase.Preparing? && tr[0].reports == []
    requires k < |tr[m].reports| && !PreparationFails(steps)
    ensures Completes(tr, steps, k, n, h, p) && p < m
    decreases m
  {
    assert Leads(tr[m - 1], steps[m - 1], tr[m]);
    if k < |tr[m - 1].reports| {
      n, h, p := WhenReported(tr, steps, m - 1, k);
    } else {
      assert Told(tr[m - 1], steps[..m - 1]);
      assert tr[m - 1].phase.Preparing? ==> PreparationFails(steps);
      n, h := WhenEnded(tr, steps, m - 1);
      p := m - 1;
      assert Told(tr[p], steps[..p]);
    }
  }

  // ----- every run -----

  ghost predicate Completed(tr: seq<Session>, steps: seq<Step>, k: nat) {
    exists n: nat, h: nat, p: nat :: Completes(tr, steps, k, n, h, p)
  }

  /**
   Over every run whose preparation does not fail, the turns are reported in the order they start, and turn k is
   reported if and only if its harness ended and its publishing came to an end, without a crash. Its status is then
   stopped if and only if a stop came before its harness ended, otherwise success or awaiting input if and only if the
   harness ended so and publishing did not fail, and failed in all other cases.
   */
  lemma ReportsExactly(bootstrap: Option<Id>, steps: seq<Step>, k: nat)
    requires !PreparationFails(steps)
    ensures var s, tr := Run(bootstrap, steps), Trace(bootstrap, steps);
            && (k < |s.reports| <==> Completed(tr, steps, k))
            && forall n: nat, h: nat, p: nat :: Completes(tr, steps, k, n, h, p) ==>
                 k < |s.started| && s.reports[k] == Report(s.started[k].id, StatusOf(steps, h, p))
  {
    var s, tr := Run(bootstrap, steps), Trace(bootstrap, steps);
    assert steps[..|steps|] == steps && steps[..0] == [];
    TraceProper(bootstrap, steps);
    if k < |s.reports| {
      var n, h, p := WhenReported(tr, steps, |steps|, k);
    }
    forall n: nat, h: nat, p: nat | Completes(tr, steps, k, n, h, p)
      ensures k < |s.reports| && k < |s.started| && s.reports[k] == Report(s.started[k].id, StatusOf(steps, h, p))
    {
      CompletedIsReported(tr, steps, k, n, h, p);
    }
  }

  /** After a failed preparation the bootstrap turn, if there is one, is reported as failed, and nothing ever starts. */
  lemma FailedPreparation(bootstrap: Option<Id>, steps: seq<Step>)
    requires PreparationFails(steps)
    ensures var s := Run(bootstrap, steps);
            && s.started == [] && s.phase.Done?
            && s.reports == if bootstrap.Some? then [Report(bootstrap.value, Failed)] else []
  {
    var n :| 0 <= n < |steps| && steps[n] == Prepared(false) && Unprepared(steps[..n]);
    var s := Run(bootstrap, steps[..n]);
    PreparingKnown(bootstrap, steps[..n]);
    RunKeeps(bootstrap, steps[..n]);
    assert steps[..n + 1][..n] == steps[..n];
    DoneStays(bootstrap, steps, n + 1);
  }

  lemma {:induction false} DoneStays(bootstrap: Option<Id>, steps: seq<Step>, m: nat)
    requires m <= |steps| && Run(bootstrap, steps[..m]).phase.Done?
    ensures var s, t := Run(bootstrap, steps[..m]), Run(bootstrap, steps);
            t.phase.Done? && t.started == s.started && t.reports == s.reports
    decreases |steps|
  {
    if m == |steps| {
      assert steps[..m] == steps;
    } else {
      var init := steps[..|steps| - 1];
      assert init[..m] == steps[..m];
      DoneStays(bootstrap, init, m);
      StepFollows(Run(bootstrap, init), steps[|steps| - 1]);
    }
  }

  // ----- stops -----

  lemma StepMarks(s: Session, step: Step)
    ensures |Next(s, step).started| > |s.started| ==> Next(s, step).started[|s.started|].stopped == s.stop
  {
  }

  /** A turn is noted as started after a stop exactly if one came before the step that started it. */
  lemma MarkedStopped(bootstrap: Option<Id>, steps: seq<Step>, k: nat, n: nat)
    requires StartsAt(Trace(bootstrap, steps), k, n)
    ensures var s := Run(bootstrap, steps); k < |s.started| && (s.started[k].stopped <==> StopIn(steps[..n]))
  {
    var tr := Trace(bootstrap, steps);
    assert steps[..|steps|] == steps && steps[..n + 1][..n] == steps[..n];
    TraceProper(bootstrap, steps);
    StepMarks(tr[n], steps[n]);
    assert Leads(tr[n], steps[n], tr[n + 1]) && Told(tr[n], steps[..n]);
    ReportStays(tr, steps, n + 1);
  }

  /** No turn starts after one that started after a stop, and that one is never reported but as stopped. */
  lemma LastAfterStop(bootstrap: Option<Id>, steps: seq<Step>, k: nat, n: nat)
    requires StartsAt(Trace(bootstrap, steps), k, n) && StopIn(steps[..n])
    ensures var s := Run(bootstrap, steps);
            k == |s.started| - 1 && (k < |s.reports| ==> s.reports[k] == Report(s.started[k].id, Stopped))
  {
    MarkedStopped(bootstrap, steps, k, n);
    StopIsRespected(bootstrap, steps);
  }

  // ----- the end of the session -----

  lemma StepDone(s: Session, step: Step)
    requires s.phase == Resolved(None) ==> s.stop
    ensures Next(s, step).phase.Done? ==>
              s.phase.Done? || s.stop || step.Crash? || (s.phase.Preparing? && step == Prepared(false))
    ensures Next(s, step).phase == Resolved(None) && s.closed == s.stop ==> Next(s, step).stop
  {
  }

  /** A session is over only after a stop, a failed preparation or a crash. */
  lemma {:induction false} OverOnlyThen(bootstrap: Option<Id>, steps: seq<Step>)
    ensures var s := Run(bootstrap, steps);
            && (s.phase.Done? ==> StopIn(steps) || PreparationFails(steps) || Crash in steps)
            && (s.phase == Resolved(None) ==> s.stop)
  {
    if steps != [] {
      var init, last := steps[..|steps| - 1], steps[|steps| - 1];
      assert steps == init + [last];
      OverOnlyThen(bootstrap, init);
      RunKeeps(bootstrap, init);
      StopKnown(bootstrap, init);
      StopMore(init, last);
      PreparingKnown(bootstrap, init);
      FailsMore(init, last);
      StepDone(Run(bootstrap, init), last);
    }
  }

  lemma FailsMore(steps: seq<Step>, step: Step)
    ensures PreparationFails(steps) || (step == Prepared(false) && Unprepared(steps)) ==>
              PreparationFails(steps + [step])
  {
    var longer := steps + [step];
    if PreparationFails(steps) {
      var n :| 0 <= n < |steps| && steps[n] == Prepared(false) && Unprepared(steps[..n]);
      assert longer[n] == steps[n] && longer[..n] == steps[..n];
    } else if step == Prepared(false) && Unprepared(steps) {
      assert longer[|steps|] == step && longer[..|steps|] == steps;
    }
  }

  /** What is left to do after a stop: a take that resolved goes on, the turn in progress ends and is published. */
  function WindDown(outcome: Status, failed: bool): seq<Step> {
    [Resume, HarnessEnds(outcome), Published(failed), Loop]
  }

  lemma WindsDown(s: Session, outcome: Status, failed: bool)
    requires s.stop && !s.phase.Preparing? && !s.phase.Waiting?
    ensures Next(Next(Next(Next(s, Resume), HarnessEnds(outcome)), Published(failed)), Loop).phase.Done?
  {
  }

  /** After a stop the session is over once the turn in progress, or the one just taken, has ended. */
  lemma StopEnds(bootstrap: Option<Id>, steps: seq<Step>, outcome: Status, failed: bool)
    requires StopIn(steps) && !Unprepared(steps)
    ensures Run(bootstrap, steps + WindDown(outcome, failed)).phase.Done?
  {
    StopKnown(bootstrap, steps);
    PreparingKnown(bootstrap, steps);
    RunKeeps(bootstrap, steps);
    WindsDown(Run(bootstrap, steps), outcome, failed);
    var w := WindDown(outcome, failed);
    RunMore(bootstrap, steps, w[0]);
    RunMore(bootstrap, steps + [w[0]], w[1]);
    RunMore(bootstrap, steps + [w[0]] + [w[1]], w[2]);
    RunMore(bootstrap, steps + [w[0]] + [w[1]] + [w[2]], w[3]);
    assert steps + w == steps + [w[0]] + [w[1]] + [w[2]] + [w[3]];
  }

  lemma RunMore(bootstrap: Option<Id>, steps: seq<Step>, step: Step)
    ensures Run(bootstrap, steps + [step]) == Next(Run(bootstrap, steps), step)
  {
    assert (steps + [step])[..|steps|] == steps;
  }

  // ----- the inbox -----

  /** The turns the inbox delivered, repeats included. */
  function Delivered(steps: seq<Step>): seq<Id> {
    if steps == [] then [] else Delivered(steps[..|steps| - 1]) + Arrival(steps[|steps| - 1])
  }

  ghost predicate IsHighest(steps: seq<Step>, number: nat) {
    && (forall i :: 0 <= i < |steps| && steps[i].Inbox? ==> steps[i].item.number <= number)
    && (number == 0 || exists i :: 0 <= i < |steps| && steps[i].Inbox? && steps[i].item.number == number)
  }

  /** The session asks the inbox for what comes after the highest number it got, and counts exactly its turns. */
  lemma {:induction false} InboxPosition(bootstrap: Option<Id>, steps: seq<Step>)
    ensures IsHighest(steps, Run(bootstrap, steps).inboxAfter)
    ensures Run(bootstrap, steps).arrivals == Delivered(steps)
  {
    if steps != [] {
      var init, last := steps[..|steps| - 1], steps[|steps| - 1];
      InboxPosition(bootstrap, init);
      StepInbox(Run(bootstrap, init), last);
      HighestMore(init, last, Run(bootstrap, init).inboxAfter);
      assert steps == init + [last];
    }
  }

  function Higher(step: Step, number: nat): nat {
    if step.Inbox? && step.item.number > number then step.item.number else number
  }

  lemma StepInbox(s: Session, step: Step)
    ensures Next(s, step).inboxAfter == Higher(step, s.inboxAfter)
    ensures Next(s, step).arrivals == s.arrivals + Arrival(step)
  {
  }

  lemma HighestMore(steps: seq<Step>, step: Step, number: nat)
    requires IsHighest(steps, number)
    ensures IsHighest(steps + [step], Higher(step, number))
  {
    var longer := steps + [step];
    assert longer[|steps|] == step;
    if number > 0 {
      var i :| 0 <= i < |steps| && steps[i].Inbox? && steps[i].item.number == number;
      assert longer[i] == steps[i];
    }
  }
}
