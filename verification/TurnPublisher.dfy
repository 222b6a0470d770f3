/** The end of a turn as the session does it: commit everything, or only the turn's own paths, then push. */
module TurnPublishing {
  import opened Workspace

  lemma CopiedAll(r: Repo)
    ensures Copied(r.index, r.work, Dirty(r)) == r.work && Copied(r.head, r.work, Dirty(r)) == r.work
    ensures Changes(r, Dirty(r)) == map[] <==> r.work == r.head
  {
    SameTree(Copied(r.index, r.work, Dirty(r)), r.work);
    SameTree(Copied(r.head, r.work, Dirty(r)), r.work);
    if Changes(r, Dirty(r)) == map[] {
      NothingStaged(r, Dirty(r));
      assert forall p :: p !in Dirty(r) ==> !IsDirty(r, p);
      SameTree(r.work, r.head);
    }
  }

  lemma CopiedNone(r: Repo, fault: Fault, sha: string)
    ensures Committed(r, {}, fault, sha) == r && Changes(r, {}) == map[]
  {
    SameTree(Copied(r.index, r.work, {}), r.index);
  }

  lemma NothingStaged(r: Repo, paths: set<Path>)
    ensures Changes(r, paths) == map[] <==> forall p :: p in paths ==> At(r.work, p) == At(r.head, p)
  {
    if Changes(r, paths) == map[] {
      forall p | p in paths ensures At(r.work, p) == At(r.head, p) {
        assert p !in Changes(r, paths);
      }
    }
  }

  class TurnPublisher {
    const mark: Fingerprint
    var repo: Repo
    var turns: nat
    var commits: seq<Commit>
    var pushes: seq<nat>

    ghost function State(): Flow
      reads this
    {
      Flow(repo, turns, commits, pushes)
    }

    constructor (repo: Repo, mark: Fingerprint)
      ensures State() == Run(repo, [], mark) && this.mark == mark
    {
      this.repo, this.mark := repo, mark;
      turns, commits, pushes := 0, [], [];
    }

    /** Stages all changes and commits them, if there are any. */
    method CommitAll(fault: Fault, sha: string) returns (committed: bool)
      modifies this`repo, this`commits
      ensures repo == Committed(old(repo), Dirty(old(repo)), fault, sha)
      ensures committed == (fault.NoFault? && Changes(old(repo), Dirty(old(repo))) != map[])
      ensures commits == old(commits) + if committed then [Commit(turns, Changes(old(repo), Dirty(old(repo))))] else []
    {
      committed := false;
      if fault.NotStaged? { return; }
      CopiedAll(repo);
      var changes := Changes(repo, Dirty(repo));
      repo := repo.(index := repo.work);
      if fault.NotCommitted? || repo.index == repo.head { return; }
      repo := repo.(head := repo.index, sha := sha);
      commits := commits + [Commit(turns, changes)];
      committed := true;
    }

    /** Stages and commits only these paths. */
    method CommitPaths(paths: set<Path>, fault: Fault, sha: string) returns (committed: bool)
      modifies this`repo, this`commits
      ensures repo == Committed(old(repo), paths, fault, sha)
      ensures committed == (fault.NoFault? && Changes(old(repo), paths) != map[])
      ensures commits == old(commits) + if committed then [Commit(turns, Changes(old(repo), paths))] else []
    {
      committed := false;
      if paths == {} {
        CopiedNone(repo, fault, sha);
        return;
      }
      if fault.NotStaged? { return; }
      var before := repo;
      NothingStaged(before, paths);
      repo := repo.(index := Copied(repo.index, repo.work, paths));
      var staged := exists p :: p in paths && At(repo.index, p) != At(repo.head, p);
      if fault.NotCommitted? || !staged { return; }
      repo := repo.(head := Copied(repo.head, repo.work, paths), sha := sha);
      commits := commits + [Commit(turns, Changes(before, paths))];
      committed := true;
    }

    /** One turn: the agent leaves the repository as t.after, then Flow publishes what the scope allows. */
    method RunTurn(t: Turn)
      modifies this
      ensures State() == EndTurn(old(State()), t, mark)
    {
      var before := repo;
      repo := t.after;
      var committed := false;
      if t.scope.Write? {
        var leftovers := Dirty(before);
        if leftovers == {} || t.includeLeftovers {
          committed := CommitAll(t.fault, t.sha);
        } else {
          var touched := Touched(before, repo, mark);
          var own := set p | p in Dirty(repo) && (p !in leftovers || p in touched);
          committed := CommitPaths(own, t.fault, t.sha);
        }
        if (committed || t.agentCommits) && t.pushWorks {
          pushes := pushes + [turns];
        }
      }
      turns := turns + 1;
    }
  }
}
