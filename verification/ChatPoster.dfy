/**
 Posting a chat run's activities to Flow: text and the question being written are coalesced until a timer fires or
 something else has to be sent, each post gets the next number, and a post that fails in transit is sent again under
 its number. Whatever the timers do, the numbered posts say what the plain stream of activities says.
 */
module ChatPosting {
  import opened Basics

  datatype Activity =
    | TextDelta(delta: string)
    | QuestionDelta(id: string, body: string)
    | Thought(body: string, ephemeral: bool)
    | ConnectorQuestion
    | Action(id: string, action: string, parameter: string)
    | ActionResult(id: string, action: string, result: string, isError: bool)
    | Elicitation(question: string)
    | Response(body: string, canceled: bool)
    | Error(body: string)

  datatype Post =
    | PostText(body: string)
    | PostQuestion(id: string, body: string)
    | PostThought(body: string)
    | PostAction(id: string, action: string, parameter: string)
    | PostResult(id: string, action: string, noted: Option<string>, result: string, isError: bool)
    | PostElicitation(question: string)
    | PostResponse(body: string)
    | PostError(body: string)

  datatype Numbered = Numbered(number: nat, post: Post, final: bool)

  datatype Question = Question(id: string, body: string)

  /** The poster's fields; `outbox` lists what was enqueued, in order. */
  datatype Poster = Poster(text: string, question: Option<Question>, timer: bool, ended: bool, number: nat,
                           parameters: map<string, string>, outbox: seq<Numbered>)

  const IDLE := Poster("", None, false, false, 0, map[], [])

  predicate Ends(a: Activity) { a.Elicitation? || a.Response? || a.Error? }

  /** What an activity other than text and questions is sent as, if it is sent at all. */
  function Sent(a: Activity, parameters: map<string, string>): Option<Post> {
    match a
    case Thought(body, ephemeral) => if ephemeral then None else Some(PostThought(body))
    case Action(id, action, parameter) => Some(PostAction(id, action, parameter))
    case ActionResult(id, action, result, isError) =>
      Some(PostResult(id, action, if id in parameters then Some(parameters[id]) else None, result, isError))
    case Elicitation(question) => Some(PostElicitation(question))
    case Response(body, canceled) => Some(if canceled then PostError("Generation stopped") else PostResponse(body))
    case Error(body) => Some(PostError(body))
    case _ => None
  }

  function Noted(a: Activity, parameters: map<string, string>): map<string, string> {
    if a.Action? then parameters[a.id := a.parameter] else parameters
  }

  // ----- the poster's steps -----

  function Enqueued(p: Poster, post: Post): Poster {
    p.(number := p.number + 1, outbox := p.outbox + [Numbered(p.number + 1, post, p.ended)])
  }

  function Flushed(p: Poster): Poster {
    var p := p.(timer := false);
    var p := if p.text == "" then p else Enqueued(p.(text := ""), PostText(p.text));
    if p.question.None? then p
    else Enqueued(p.(question := None), PostQuestion(p.question.value.id, p.question.value.body))
  }

  function Pushed(p: Poster, a: Activity): Poster {
    match a
    case TextDelta(delta) => p.(text := p.text + delta, timer := true)
    case QuestionDelta(id, body) => p.(question := Some(Question(id, body)), timer := true)
    case _ =>
      var p := p.(parameters := Noted(a, p.parameters), ended := p.ended || Ends(a));
      var post := Sent(a, p.parameters);
      if post.None? then p else Enqueued(Flushed(p), post.value)
  }

  /** Pushes and timers, in any order. */
  datatype Step = Push(a: Activity) | Timer

  function Stepped(p: Poster, step: Step): Poster {
    match step
    case Push(a) => Pushed(p, a)
    case Timer => if p.timer then Flushed(p) else p
  }

  function Run(steps: seq<Step>): Poster {
    if steps == [] then IDLE else Stepped(Run(steps[..|steps| - 1]), steps[|steps| - 1])
  }

  class ChatActivityPoster {
    var text: string
    var question: Option<Question>
    var timer: bool
    var ended: bool
    var number: nat
    var parameters: map<string, string>
    var outbox: seq<Numbered>

    ghost function State(): Poster
      reads this
    {
      Poster(text, question, timer, ended, number, parameters, outbox)
    }

    constructor ()
      ensures State() == IDLE
    {
      text, question, timer, ended, number, parameters, outbox := "", None, false, false, 0, map[], [];
    }

    method Push(a: Activity)
      modifies this
      ensures State() == Pushed(old(State()), a)
    {
      match a
      case TextDelta(delta) =>
        text := text + delta;
        timer := true;
      case QuestionDelta(id, body) =>
        question := Some(Question(id, body));
        timer := true;
      case _ => PushOther(a);
    }

    /** An activity other than text and questions. */
    method PushOther(a: Activity)
      requires !a.TextDelta? && !a.QuestionDelta?
      modifies this
      ensures State() == Pushed(old(State()), a)
    {
      match a
      case Thought(body, ephemeral) =>
        if !ephemeral {
          Send(PostThought(body));
        }
      case ConnectorQuestion =>
      case Action(id, action, parameter) =>
        parameters := parameters[id := parameter];
        Send(PostAction(id, action, parameter));
      case ActionResult(id, action, result, isError) =>
        var parameter := if id in parameters then Some(parameters[id]) else None;
        Send(PostResult(id, action, parameter, result, isError));
      case Elicitation(q) => SendLast(PostElicitation(q));
      case Response(body, canceled) =>
        SendLast(if canceled then PostError("Generation stopped") else PostResponse(body));
      case Error(body) => SendLast(PostError(body));
    }

    /** An activity that ends the reply. */
    method SendLast(post: Post)
      modifies this
      ensures State() == Enqueued(Flushed(old(State()).(ended := true)), post)
    {
      ended := true;
      Send(post);
    }

    method Send(post: Post)
      modifies this
      ensures State() == Enqueued(Flushed(old(State())), post)
    {
      Flush();
      Enqueue(post);
    }

    /** Sends what is pending; also what a timer and drain() do. */
    method Flush()
      modifies this
      ensures State() == Flushed(old(State()))
    {
      timer := false;
      if text != "" {
        var body := text;
        text := "";
        Enqueue(PostText(body));
      }
      if question.Some? {
        var q := question.value;
        question := None;
        Enqueue(PostQuestion(q.id, q.body));
      }
    }

    method Enqueue(post: Post)
      modifies this`number, this`outbox
      ensures State() == Enqueued(old(State()), post)
    {
      number := number + 1;
      outbox := outbox + [Numbered(number, post, ended)];
    }
  }

  // ----- coalescing refines the plain stream -----

  /** One activity posted at once, if it is posted at all. */
  function PlainPost(a: Activity, parameters: map<string, string>): Option<Post> {
    match a
    case TextDelta(delta) => Some(PostText(delta))
    case QuestionDelta(id, body) => Some(PostQuestion(id, body))
    case _ => Sent(a, parameters)
  }

  /** The activities posted one by one, nothing coalesced. */
  function Plain(activities: seq<Activity>): seq<Post> {
    if activities == [] then []
    else
      var post := PlainPost(activities[|activities| - 1], NotedAll(activities));
      Plain(activities[..|activities| - 1]) + (if post.None? then [] else [post.value])
  }

  function NotedAll(activities: seq<Activity>): map<string, string> {
    if activities == [] then map[] else Noted(activities[|activities| - 1], NotedAll(activities[..|activities| - 1]))
  }

  /** What was written before a structural post: the text since the one before it and the last question in it. */
  datatype Segment = Segment(text: string, question: Option<Question>, post: Post)

  /** A stream of posts as the reader of the reply sees it: closed segments and the open one. */
  datatype Reading = Reading(done: seq<Segment>, text: string, question: Option<Question>)

  function Read(r: Reading, post: Post): Reading {
    match post
    case PostText(body) => r.(text := r.text + body)
    case PostQuestion(id, body) => r.(question := Some(Question(id, body)))
    case _ => Reading(r.done + [Segment(r.text, r.question, post)], "", None)
  }

  function ReadAll(posts: seq<Post>): Reading {
    if posts == [] then Reading([], "", None) else Read(ReadAll(posts[..|posts| - 1]), posts[|posts| - 1])
  }

  function Posts(outbox: seq<Numbered>): (r: seq<Post>)
    ensures |r| == |outbox| && forall i :: 0 <= i < |r| ==> r[i] == outbox[i].post
  {
    seq(|outbox|, i requires 0 <= i < |outbox| => outbox[i].post)
  }

  /** The reading of the posts with what is still pending added to the open segment. */
  function WithPending(r: Reading, p: Poster): Reading {
    r.(text := r.text + p.text, question := if p.question.Some? then p.question else r.question)
  }

  function Pushes(steps: seq<Step>): seq<Activity> {
    if steps == [] then []
    else Pushes(steps[..|steps| - 1]) + (if steps[|steps| - 1].Push? then [steps[|steps| - 1].a] else [])
  }

  lemma ReadMore(posts: seq<Post>, post: Post)
    ensures ReadAll(posts + [post]) == Read(ReadAll(posts), post)
  {
    assert (posts + [post])[..|posts|] == posts;
  }

  lemma ReadEnqueued(p: Poster, post: Post)
    ensures ReadAll(Posts(Enqueued(p, post).outbox)) == Read(ReadAll(Posts(p.outbox)), post)
  {
    assert Posts(Enqueued(p, post).outbox) == Posts(p.outbox) + [post];
    ReadMore(Posts(p.outbox), post);
  }

  /** Flushing moves what is pending into the posts and changes no reading. */
  lemma FlushReads(p: Poster)
    ensures ReadAll(Posts(Flushed(p).outbox)) == WithPending(ReadAll(Posts(p.outbox)), p)
    ensures Flushed(p).text == "" && Flushed(p).question.None?
  {
    var r := ReadAll(Posts(p.outbox));
    var p1 := p.(timer := false);
    var p2 := if p1.text == "" then p1 else Enqueued(p1.(text := ""), PostText(p1.text));
    if p1.text != "" { ReadEnqueued(p1.(text := ""), PostText(p1.text)); }
    assert r.text + "" == r.text;
    assert ReadAll(Posts(p2.outbox)) == r.(text := r.text + p.text);
    if p2.question.Some? {
      ReadEnqueued(p2.(question := None), PostQuestion(p2.question.value.id, p2.question.value.body));
    }
  }

  ghost predicate NumberedInOrder(p: Poster) {
    p.number == |p.outbox| && forall i :: 0 <= i < |p.outbox| ==> p.outbox[i].number == i + 1
  }

  lemma FlushNumbers(p: Poster)
    requires NumberedInOrder(p)
    ensures NumberedInOrder(Flushed(p))
  {
  }

  /** What every run keeps: numbers in order, and the posts with what is pending read like the plain stream. */
  ghost predicate Faithful(steps: seq<Step>) {
    var p, activities := Run(steps), Pushes(steps);
    && NumberedInOrder(p)
    && p.parameters == NotedAll(activities)
    && Written(p) == ReadAll(Plain(activities))
  }

  /** Everything written so far, posted or pending. */
  function Written(p: Poster): Reading { WithPending(ReadAll(Posts(p.outbox)), p) }

  lemma PlainMore(activities: seq<Activity>, a: Activity)
    ensures NotedAll(activities + [a]) == Noted(a, NotedAll(activities))
    ensures var post := PlainPost(a, NotedAll(activities + [a]));
            ReadAll(Plain(activities + [a])) == if post.None? then ReadAll(Plain(activities))
              else Read(ReadAll(Plain(activities)), post.value)
  {
    var all := activities + [a];
    assert all[..|all| - 1] == activities;
    var post := PlainPost(a, NotedAll(all));
    if post.None? {
      assert Plain(all) == Plain(activities);
    } else {
      ReadMore(Plain(activities), post.value);
    }
  }

  lemma SendReads(p: Poster, post: Post)
    requires !post.PostText? && !post.PostQuestion?
    ensures Written(Enqueued(Flushed(p), post)) == Read(Written(p), post)
  {
    FlushReads(p);
    ReadEnqueued(Flushed(p), post);
  }

  lemma SentIsStructural(a: Activity, parameters: map<string, string>)
    ensures Sent(a, parameters).Some? ==>
        !Sent(a, parameters).value.PostText? && !Sent(a, parameters).value.PostQuestion?
  {
  }

  lemma PushOther(p: Poster, a: Activity)
    requires !a.TextDelta? && !a.QuestionDelta?
    ensures var post := Sent(a, Noted(a, p.parameters)); var p' := Pushed(p, a);
            && p'.parameters == Noted(a, p.parameters)
            && Written(p') == if post.None? then Written(p) else Read(Written(p), post.value)
  {
    var q := p.(parameters := Noted(a, p.parameters), ended := p.ended || Ends(a));
    var post := Sent(a, q.parameters);
    assert Pushed(p, a) == if post.None? then q else Enqueued(Flushed(q), post.value);
    assert Written(q) == Written(p);
    SentIsStructural(a, q.parameters);
    if post.Some? {
      SendReads(q, post.value);
      assert Flushed(q).parameters == q.parameters;
    }
  }

  lemma PushReads(p: Poster, a: Activity)
    ensures var post := PlainPost(a, Noted(a, p.parameters)); var p' := Pushed(p, a);
            && p'.parameters == Noted(a, p.parameters)
            && Written(p') == if post.None? then Written(p) else Read(Written(p), post.value)
  {
    if a.TextDelta? {
      var r := ReadAll(Posts(p.outbox));
      assert r.text + (p.text + a.delta) == (r.text + p.text) + a.delta;
    } else if !a.QuestionDelta? {
      PushOther(p, a);
    }
  }

  lemma PushNumbers(p: Poster, a: Activity)
    requires NumberedInOrder(p)
    ensures NumberedInOrder(Pushed(p, a))
  {
    FlushNumbers(p.(parameters := Noted(a, p.parameters), ended := p.ended || Ends(a)));
  }

  lemma {:induction false} RunFaithful(steps: seq<Step>)
    ensures Faithful(steps)
  {
    if steps != [] {
      var before, step := steps[..|steps| - 1], steps[|steps| - 1];
      RunFaithful(before);
      var p := Run(before);
      match step
      case Push(a) =>
        PushReads(p, a);
        PushNumbers(p, a);
        PlainMore(Pushes(before), a);
      case Timer =>
        TimerReads(p);
        assert Pushes(steps) == Pushes(before);
    }
  }

  lemma TimerReads(p: Poster)
    requires NumberedInOrder(p)
    ensures NumberedInOrder(Flushed(p)) && Flushed(p).parameters == p.parameters
    ensures Written(Flushed(p)) == Written(p)
  {
    FlushReads(p);
    FlushNumbers(p);
    assert Written(p).text + "" == Written(p).text;
  }

  /**
   Every run of pushes and timers, once drained: the posts are numbered 1 to n without gaps, and they read like the
   plain stream. The structural posts are the same, in order; the text before each is the same text, and the last
   question in each segment is the last one pushed.
   */
  lemma CoalescingRefines(steps: seq<Step>)
    ensures var p := Flushed(Run(steps));
            && (forall i :: 0 <= i < |p.outbox| ==> p.outbox[i].number == i + 1)
            && ReadAll(Posts(p.outbox)) == ReadAll(Plain(Pushes(steps)))
  {
    RunFaithful(steps);
    FlushReads(Run(steps));
    FlushNumbers(Run(steps));
  }
}
