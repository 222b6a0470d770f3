/**
 What Flow publishes over a run of turns, told from the turns: which turns commit, exactly what their commits change,
 and which turns are pushed.
 */
module CommitRuns {
  import opened Basics
  import opened Workspace

  /**
   The path is the turn's to publish: it was clean before the turn, or the turn changed it or asked to include what it
   found.
   */
  ghost predicate Publishable(before: Repo, t: Turn, mark: Fingerprint, p: Path) {
    t.includeLeftovers || !IsDirty(before, p) || mark(At(before.work, p)) != mark(At(t.after.work, p))
  }

  /** The turn's commit takes the path: it is the turn's to publish, and its file is not as in HEAD. */
  ghost predicate Takes(before: Repo, t: Turn, mark: Fingerprint, p: Path) {
    At(t.after.work, p) != At(t.after.head, p) && Publishable(before, t, mark, p)
  }

  /** A writing turn stages the paths that are its to publish, unless that fails. */
  ghost predicate Stages(before: Repo, t: Turn, mark: Fingerprint, p: Path) {
    t.scope.Write? && !t.fault.NotStaged? && Publishable(before, t, mark, p)
  }

  /** A writing turn with something to take whose commit works. */
  ghost predicate CommitsIn(before: Repo, t: Turn, mark: Fingerprint) {
    t.scope.Write? && t.fault.NoFault? && exists p :: Takes(before, t, mark, p)
  }

  /** A writing turn with a commit, of Flow or of the agent, and a push that works. */
  ghost predicate PushesIn(before: Repo, t: Turn, mark: Fingerprint) {
    t.scope.Write? && t.pushWorks && (CommitsIn(before, t, mark) || t.agentCommits)
  }

  ghost predicate TakesExactly(changes: map<Path, Option<Content>>, before: Repo, t: Turn, mark: Fingerprint) {
    && (forall p :: p in changes <==> Takes(before, t, mark, p))
    && forall p :: p in changes ==> changes[p] == At(t.after.work, p)
  }

  // ----- one turn -----

  lemma ChangesTake(before: Repo, t: Turn, mark: Fingerprint)
    ensures TakesExactly(Changes(t.after, Own(before, t, mark)), before, t, mark)
  {
    var changes := Changes(t.after, Own(before, t, mark));
    forall p ensures p in changes <==> Takes(before, t, mark, p) {
      assert At(t.after.work, p) != At(t.after.head, p) ==> IsDirty(t.after, p);
      assert p in Dirty(before) <==> IsDirty(before, p);
    }
  }

  /** What a turn adds to the commits and pushes, and when it moves HEAD. */
  lemma TurnPublishes(f: Flow, t: Turn, mark: Fingerprint)
    ensures var g := EndTurn(f, t, mark);
            && g.turns == f.turns + 1
            && (CommitsIn(f.repo, t, mark) ==>
                 && |g.commits| == |f.commits| + 1 && g.commits[..|f.commits|] == f.commits
                 && g.commits[|f.commits|].turn == f.turns
                 && TakesExactly(g.commits[|f.commits|].changes, f.repo, t, mark)
                 && g.repo.sha == t.sha)
            && (!CommitsIn(f.repo, t, mark) ==>
                 g.commits == f.commits && g.repo.sha == t.after.sha && g.repo.head == t.after.head)
            && g.pushes == f.pushes + if PushesIn(f.repo, t, mark) then [f.turns] else []
  {
    var changes := Changes(t.after, Own(f.repo, t, mark));
    ChangesTake(f.repo, t, mark);
    assert changes != map[] <==> exists p :: p in changes;
  }

  /** What a turn stages, whether or not its commit works. */
  lemma TurnStages(f: Flow, t: Turn, mark: Fingerprint)
    ensures forall p :: At(EndTurn(f, t, mark).repo.index, p) ==
                        At(if Stages(f.repo, t, mark, p) then t.after.work else t.after.index, p)
  {
    forall p ensures p in Own(f.repo, t, mark) <==> IsDirty(t.after, p) && Publishable(f.repo, t, mark, p) {
      assert p in Dirty(f.repo) <==> IsDirty(f.repo, p);
    }
  }

  // ----- every run of turns -----

  /** The numbers of the turns that commit. */
  ghost function Committing(repo: Repo, turns: seq<Turn>, mark: Fingerprint): seq<nat> {
    if turns == [] then []
    else
      var n := |turns| - 1;
      Committing(repo, turns[..n], mark)
      + (if CommitsIn(Before(repo, turns, n, mark), turns[n], mark) then [n] else [])
  }

  /** The numbers of the turns that are pushed. */
  ghost function Pushing(repo: Repo, turns: seq<Turn>, mark: Fingerprint): seq<nat> {
    if turns == [] then []
    else
      var n := |turns| - 1;
      Pushing(repo, turns[..n], mark)
      + (if PushesIn(Before(repo, turns, n, mark), turns[n], mark) then [n] else [])
  }

  ghost predicate RightCommit(c: Commit, repo: Repo, turns: seq<Turn>, n: nat, mark: Fingerprint) {
    n < |turns| && c.turn == n && TakesExactly(c.changes, Before(repo, turns, n, mark), turns[n], mark)
  }

  /**
   Over every run of turns of mixed scopes: Flow commits once in each turn that should, in order, each commit changes
   exactly the paths to take, to what the agent left there, and exactly the turns that should be are pushed.
   */
  lemma {:induction false} PublishesExactly(repo: Repo, turns: seq<Turn>, mark: Fingerprint)
    ensures var f := Run(repo, turns, mark); var committing := Committing(repo, turns, mark);
            && f.turns == |turns|
            && f.pushes == Pushing(repo, turns, mark)
            && |f.commits| == |committing|
            && forall i :: 0 <= i < |committing| ==> RightCommit(f.commits[i], repo, turns, committing[i], mark)
  {
    if turns != [] {
      var n := |turns| - 1;
      var init, t := turns[..n], turns[n];
      var f, before := Run(repo, init, mark), Committing(repo, init, mark);
      PublishesExactly(repo, init, mark);
      TurnPublishes(f, t, mark);
      assert Before(repo, turns, n, mark) == f.repo;
      forall i | 0 <= i < |before| ensures RightCommit(f.commits[i], repo, turns, before[i], mark) {
        assert RightCommit(f.commits[i], repo, init, before[i], mark);
        assert init[..before[i]] == turns[..before[i]];
      }
    }
  }
}
