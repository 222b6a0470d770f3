/**
 What the posts of a chat run say, told from the pushed activities alone: each lasting activity in its own words, with
 the text and the last question written since the one before it; which posts count as the end of the reply; and that
 nothing pending is left without a timer.
 */
module ChatReading {
  import opened Basics
  import opened ChatPosting

  // ----- what the activities say -----

  /** Activities that are posted on their own: not text, not questions, not passing thoughts. */
  predicate Lasting(a: Activity) {
    match a
    case Thought(_, ephemeral) => !ephemeral
    case TextDelta(_) => false
    case QuestionDelta(_, _) => false
    case ConnectorQuestion => false
    case _ => true
  }

  /** The positions of the lasting activities. */
  function Places(activities: seq<Activity>): (r: seq<nat>)
    ensures forall k :: 0 <= k < |r| ==> r[k] < |activities| && Lasting(activities[r[k]])
  {
    if activities == [] then []
    else
      var n := |activities| - 1;
      Places(activities[..n]) + (if Lasting(activities[n]) then [n] else [])
  }

  /** The action at j is the last one of its id before position i. */
  predicate LastAction(activities: seq<Activity>, i: nat, id: string, j: nat)
    requires i <= |activities|
  {
    && j < i && activities[j].Action? && activities[j].id == id
    && forall l :: j < l < i && activities[l].Action? ==> activities[l].id != id
  }

  /** The parameter of the last earlier action of the id, if there is one. */
  ghost predicate IsParameter(activities: seq<Activity>, i: nat, id: string, noted: Option<string>)
    requires i <= |activities|
  {
    match noted
    case None => forall j :: 0 <= j < i && activities[j].Action? ==> activities[j].id != id
    case Some(parameter) => exists j: nat :: LastAction(activities, i, id, j) && activities[j].parameter == parameter
  }

  /** The post says what the lasting activity at i says. */
  ghost predicate Says(activities: seq<Activity>, i: nat, post: Post)
    requires i < |activities|
  {
    match activities[i]
    case Thought(body, _) => post == PostThought(body)
    case Action(id, action, parameter) => post == PostAction(id, action, parameter)
    case ActionResult(id, action, result, isError) =>
      && post.PostResult? && post.id == id && post.action == action && post.result == result && post.isError == isError
      && IsParameter(activities, i, id, post.noted)
    case Elicitation(question) => post == PostElicitation(question)
    case Response(body, canceled) => post == if canceled then PostError("Generation stopped") else PostResponse(body)
    case Error(body) => post == PostError(body)
    case _ => false
  }

  /** All text among the activities. */
  function TextIn(activities: seq<Activity>): string {
    if activities == [] then ""
    else
      var last := activities[|activities| - 1];
      TextIn(activities[..|activities| - 1]) + (if last.TextDelta? then last.delta else "")
  }

  /** The last question among the activities. */
  function QuestionIn(activities: seq<Activity>): Option<Question> {
    if activities == [] then None
    else
      var last := activities[|activities| - 1];
      if last.QuestionDelta? then Some(Question(last.id, last.body)) else QuestionIn(activities[..|activities| - 1])
  }

  /** Where the activities after lasting activity k - 1 begin. */
  function From(places: seq<nat>, k: nat): nat
    requires k <= |places|
  {
    if k == 0 then 0 else places[k - 1] + 1
  }

  /** The segment says the activity at i, with what was written from position `from` up to it. */
  ghost predicate Tells(activities: seq<Activity>, from: nat, i: nat, segment: Segment) {
    && from <= i < |activities|
    && Says(activities, i, segment.post)
    && segment.text == TextIn(activities[from..i])
    && segment.question == QuestionIn(activities[from..i])
  }

  // ----- one activity more -----

  lemma PlacesMore(activities: seq<Activity>, a: Activity)
    ensures Places(activities + [a]) == Places(activities) + if Lasting(a) then [|activities|] else []
  {
    assert (activities + [a])[..|activities|] == activities;
  }

  lemma WrittenMore(activities: seq<Activity>, a: Activity, from: nat)
    requires from <= |activities|
    ensures var more := (activities + [a])[from..];
            && TextIn(more) == TextIn(activities[from..]) + (if a.TextDelta? then a.delta else "")
            && QuestionIn(more) ==
               if a.QuestionDelta? then Some(Question(a.id, a.body)) else QuestionIn(activities[from..])
  {
    var more := (activities + [a])[from..];
    assert more == activities[from..] + [a];
    assert more[..|more| - 1] == activities[from..];
  }

  /** The map of parameters holds the parameter of the last action of each id. */
  lemma {:induction false} NotedIsLast(activities: seq<Activity>, id: string)
    ensures var m := NotedAll(activities);
            IsParameter(activities, |activities|, id, if id in m then Some(m[id]) else None)
  {
    if activities != [] {
      var init, a := activities[..|activities| - 1], activities[|activities| - 1];
      NotedIsLast(init, id);
      if a.Action? && a.id == id {
        assert LastAction(activities, |activities|, id, |init|);
      } else if id in NotedAll(init) {
        var j: nat :| LastAction(init, |init|, id, j) && init[j].parameter == NotedAll(init)[id];
        assert LastAction(activities, |activities|, id, j);
      }
    }
  }

  lemma ParameterStays(activities: seq<Activity>, more: seq<Activity>, i: nat, id: string, noted: Option<string>)
    requires i <= |activities| && IsParameter(activities, i, id, noted)
    ensures IsParameter(activities + more, i, id, noted)
  {
    var all := activities + more;
    if noted.Some? {
      var j: nat :| LastAction(activities, i, id, j) && activities[j].parameter == noted.value;
      assert LastAction(all, i, id, j) && all[j] == activities[j];
    }
  }

  lemma SaysStays(activities: seq<Activity>, a: Activity, i: nat, post: Post)
    requires i < |activities| && Says(activities, i, post)
    ensures Says(activities + [a], i, post)
  {
    assert (activities + [a])[i] == activities[i];
    if activities[i].ActionResult? {
      ParameterStays(activities, [a], i, activities[i].id, post.noted);
    }
  }

  lemma TellsStays(activities: seq<Activity>, a: Activity, from: nat, i: nat, segment: Segment)
    requires Tells(activities, from, i, segment)
    ensures Tells(activities + [a], from, i, segment)
  {
    SaysStays(activities, a, i, segment.post);
    assert (activities + [a])[from..i] == activities[from..i];
  }

  /** A lasting activity is posted at once as what it says; any other that is not written text is not posted. */
  lemma PostSays(activities: seq<Activity>, a: Activity)
    ensures var all := activities + [a]; var post := PlainPost(a, NotedAll(all));
            && (Lasting(a) ==> post.Some? && Says(all, |activities|, post.value)
                               && !post.value.PostText? && !post.value.PostQuestion?)
            && (a.TextDelta? ==> post == Some(PostText(a.delta)))
            && (a.QuestionDelta? ==> post == Some(PostQuestion(a.id, a.body)))
            && (!Lasting(a) && !a.TextDelta? && !a.QuestionDelta? ==> post.None?)
  {
    var all := activities + [a];
    assert all[..|activities|] == activities && all[|activities|] == a;
    if a.ActionResult? {
      NotedIsLast(activities, a.id);
      PlainMore(activities, a);
      var m := NotedAll(activities);
      ParameterStays(activities, [a], |activities|, a.id, if a.id in m then Some(m[a.id]) else None);
    }
  }

  /** The reading has a segment for each place, and what was written since the last. */
  ghost predicate OpenIs(activities: seq<Activity>, places: seq<nat>, r: Reading) {
    && |r.done| == |places| && From(places, |places|) <= |activities|
    && r.text == TextIn(activities[From(places, |places|)..])
    && r.question == QuestionIn(activities[From(places, |places|)..])
  }

  lemma OpenLasting(init: seq<Activity>, a: Activity, places: seq<nat>, r: Reading)
    requires |r.done| == |places| + 1 && r.text == "" && r.question.None?
    ensures OpenIs(init + [a], places + [|init|], r)
  {
    assert From(places + [|init|], |places| + 1) == |init| + 1;
    assert (init + [a])[|init| + 1..] == [];
  }

  lemma OpenWritten(init: seq<Activity>, a: Activity, places: seq<nat>, r: Reading, r': Reading)
    requires OpenIs(init, places, r) && r'.done == r.done
    requires r'.text == r.text + if a.TextDelta? then a.delta else ""
    requires r'.question == if a.QuestionDelta? then Some(Question(a.id, a.body)) else r.question
    ensures OpenIs(init + [a], places, r')
  {
    WrittenMore(init, a, From(places, |places|));
  }

  /** What one activity does to the reading of the plain stream. */
  lemma PlainStep(init: seq<Activity>, a: Activity)
    ensures var r, r' := ReadAll(Plain(init)), ReadAll(Plain(init + [a]));
            && (Lasting(a) ==> |r'.done| == |r.done| + 1 && r'.text == "" && r'.question.None?)
            && (!Lasting(a) ==>
                 && r'.done == r.done
                 && r'.text == r.text + (if a.TextDelta? then a.delta else "")
                 && r'.question == if a.QuestionDelta? then Some(Question(a.id, a.body)) else r.question)
  {
    PlainMore(init, a);
    PostSays(init, a);
  }

  lemma {:induction false} PlainOpen(activities: seq<Activity>)
    ensures OpenIs(activities, Places(activities), ReadAll(Plain(activities)))
  {
    if activities != [] {
      var init, a := activities[..|activities| - 1], activities[|activities| - 1];
      PlainOpen(init);
      assert activities == init + [a];
      PlainStep(init, a);
      PlacesMore(init, a);
      if Lasting(a) {
        OpenLasting(init, a, Places(init), ReadAll(Plain(activities)));
      } else {
        assert Places(activities) == Places(init);
        OpenWritten(init, a, Places(init), ReadAll(Plain(init)), ReadAll(Plain(activities)));
      }
    }
  }

  /** The segment a lasting activity closes. */
  lemma PlainLast(init: seq<Activity>, a: Activity)
    requires Lasting(a)
    ensures var r, places := ReadAll(Plain(init + [a])), Places(init);
            && |r.done| == |places| + 1 && r.done[..|places|] == ReadAll(Plain(init)).done
            && Tells(init + [a], From(places, |places|), |init|, r.done[|places|])
  {
    var all, from := init + [a], From(Places(init), |Places(init)|);
    PlainOpen(init);
    PlainMore(init, a);
    PostSays(init, a);
    assert all[from..|init|] == init[from..];
  }

  /** Segment k of the activities posted one by one tells lasting activity k. */
  lemma {:induction false} PlainTells(activities: seq<Activity>, k: nat)
    requires k < |Places(activities)|
    ensures var r, places := ReadAll(Plain(activities)), Places(activities);
            k < |r.done| && Tells(activities, From(places, k), places[k], r.done[k])
  {
    var init, a := activities[..|activities| - 1], activities[|activities| - 1];
    var places := Places(init);
    assert activities == init + [a];
    PlacesMore(init, a);
    if k == |places| {
      PlainLast(init, a);
    } else {
      PlainTells(init, k);
      TellsStays(init, a, From(places, k), places[k], ReadAll(Plain(init)).done[k]);
      DoneStays(init, a, k);
    }
  }

  lemma DoneStays(init: seq<Activity>, a: Activity, k: nat)
    requires k < |ReadAll(Plain(init)).done|
    ensures k < |ReadAll(Plain(init + [a])).done|
    ensures ReadAll(Plain(init + [a])).done[k] == ReadAll(Plain(init)).done[k]
  {
    PlainMore(init, a);
  }

  /** The reading has one segment for each lasting activity, in order, and then what was written since the last. */
  ghost predicate Retells(activities: seq<Activity>, r: Reading) {
    var places := Places(activities);
    && OpenIs(activities, places, r)
    && forall k :: 0 <= k < |places| ==> Tells(activities, From(places, k), places[k], r.done[k])
  }

  /**
   Every run of pushes and timers, once drained: the posts have one segment for each lasting activity, in order.
   Segment k says what lasting activity k says, with all text and the last question pushed since the one before it; a
   result says the parameter of the last earlier action of its id. Then comes what was written since the last.
   */
  lemma RunRetells(steps: seq<Step>)
    ensures Retells(Pushes(steps), ReadAll(Posts(Flushed(Run(steps)).outbox)))
  {
    CoalescingRefines(steps);
    var activities := Pushes(steps);
    var r, places := ReadAll(Plain(activities)), Places(activities);
    PlainOpen(activities);
    forall k | 0 <= k < |places| ensures Tells(activities, From(places, k), places[k], r.done[k]) {
      PlainTells(activities, k);
    }
  }

  // ----- the end of the reply -----

  ghost predicate EndIn(activities: seq<Activity>) {
    exists i :: 0 <= i < |activities| && (activities[i].Elicitation? || activities[i].Response? || activities[i].Error?)
  }

  lemma EndMore(activities: seq<Activity>, a: Activity)
    ensures EndIn(activities + [a]) <==> EndIn(activities) || a.Elicitation? || a.Response? || a.Error?
  {
    var all := activities + [a];
    assert all[|activities|] == a;
    if EndIn(activities) {
      var i :| 0 <= i < |activities|
               && (activities[i].Elicitation? || activities[i].Response? || activities[i].Error?);
      assert all[i] == activities[i];
    }
  }

  lemma {:induction false} EndedExactly(steps: seq<Step>)
    ensures Run(steps).ended <==> EndIn(Pushes(steps))
  {
    if steps != [] {
      var init, last := steps[..|steps| - 1], steps[|steps| - 1];
      EndedExactly(init);
      if last.Push? {
        EndMore(Pushes(init), last.a);
      } else {
        assert Pushes(steps) == Pushes(init);
      }
    }
  }

  /** The posts p' has more than p are all marked `final` or all not. */
  ghost predicate Marks(p: Poster, p': Poster, final: bool) {
    p.outbox <= p'.outbox && forall k :: |p.outbox| <= k < |p'.outbox| ==> p'.outbox[k].final == final
  }

  lemma FlushMarks(p: Poster)
    ensures Marks(p, Flushed(p), p.ended) && Flushed(p).ended == p.ended
  {
  }

  lemma StepMarks(p: Poster, step: Step)
    ensures Marks(p, Stepped(p, step), Stepped(p, step).ended)
  {
    if step.Push? && !step.a.TextDelta? && !step.a.QuestionDelta? {
      FlushMarks(p.(parameters := Noted(step.a, p.parameters), ended := p.ended || Ends(step.a)));
    } else if step.Timer? {
      FlushMarks(p);
    }
  }

  /**
   A post is marked as part of the reply's end if and only if an elicitation, a response or an error was pushed by the
   step that enqueued it; what was pending before that activity is marked with it.
   */
  lemma FinalExactly(steps: seq<Step>, step: Step)
    ensures Marks(Run(steps), Run(steps + [step]), EndIn(Pushes(steps + [step])))
  {
    var longer := steps + [step];
    assert longer[..|steps|] == steps;
    EndedExactly(longer);
    StepMarks(Run(steps), step);
  }

  /** In every run what is pending has a timer set that sends it, and a timer that fires leaves nothing pending. */
  lemma {:induction false} PendingIsTimed(steps: seq<Step>)
    ensures var p, fired := Run(steps), Run(steps + [Timer]);
            && (p.text != "" || p.question.Some? ==> p.timer)
            && fired.text == "" && fired.question.None?
  {
    assert (steps + [Timer])[..|steps|] == steps;
    if steps != [] {
      PendingIsTimed(steps[..|steps| - 1]);
    }
  }
}
