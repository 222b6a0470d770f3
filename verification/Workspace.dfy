/**
 What Flow commits at the end of a turn. A repository is its HEAD, its index and its working tree; the agent may do
 anything to it during a turn, and Flow's own commit is what the turn's scope and the earlier uncommitted changes allow.
 */
module Workspace {
  import opened Basics

  type Path = string
  type Content = string

  /** A tree: the paths it has, each with its content and mode. */
  type Tree = map<Path, Content>

  /** `head` is the tree of the commit `sha`. */
  datatype Repo = Repo(sha: string, branch: string, head: Tree, index: Tree, work: Tree)

  /** The fingerprint of a path, by what is there. */
  type Fingerprint = Option<Content> -> string

  datatype Scope = Write | NoPublish | ReadOnly

  function At(tree: Tree, path: Path): Option<Content> {
    if path in tree then Some(tree[path]) else None
  }

  /** A path with uncommitted changes, staged or not, tracked or not. */
  predicate IsDirty(r: Repo, path: Path) {
    At(r.index, path) != At(r.head, path) || At(r.work, path) != At(r.index, path)
  }

  function Dirty(r: Repo): (d: set<Path>)
    ensures forall p :: p in d <==> IsDirty(r, p)
  {
    set p | p in r.head.Keys + r.index.Keys + r.work.Keys && IsDirty(r, p)
  }

  /** `tree` with the given paths as they are in `source`. */
  function Copied(tree: Tree, source: Tree, paths: set<Path>): (r: Tree)
    ensures forall p :: At(r, p) == if p in paths then At(source, p) else At(tree, p)
  {
    map p | p in (tree.Keys - paths) + (source.Keys * paths) :: if p in paths then source[p] else tree[p]
  }

  lemma SameTree(a: Tree, b: Tree)
    requires forall p :: At(a, p) == At(b, p)
    ensures a == b
  {
    assert forall p :: p in a <==> At(a, p).Some?;
    assert forall p :: p in b <==> At(b, p).Some?;
    assert forall p :: p in a ==> At(a, p) == Some(a[p]) && At(b, p) == Some(b[p]);
  }

  // ----- the end of a turn -----

  /** How a commit goes: it may fail before anything is staged, or after. */
  datatype Fault = NoFault | NotStaged | NotCommitted

  /**
   A turn: its scope, whether it asks to include earlier changes, the repository as the agent leaves it, whether the
   agent made commits, how Flow's commit and push go, and the commit's name.
   */
  datatype Turn = Turn(scope: Scope, includeLeftovers: bool, after: Repo, agentCommits: bool, fault: Fault,
      pushWorks: bool, sha: string)

  /** A commit of Flow's, of turn number `turn`: what it changes, None for a deleted path. */
  datatype Commit = Commit(turn: nat, changes: map<Path, Option<Content>>)

  datatype Flow = Flow(repo: Repo, turns: nat, commits: seq<Commit>, pushes: seq<nat>)

  /** The leftovers (dirty before the turn) whose fingerprint differs at its end. */
  function Touched(before: Repo, after: Repo, mark: Fingerprint): set<Path> {
    set p | p in Dirty(before) && mark(At(before.work, p)) != mark(At(after.work, p))
  }

  /** The paths a writing turn commits. */
  function Own(before: Repo, t: Turn, mark: Fingerprint): set<Path> {
    if Dirty(before) == {} || t.includeLeftovers then Dirty(t.after)
    else set p | p in Dirty(t.after) && (p !in Dirty(before) || p in Touched(before, t.after, mark))
  }

  /** The leftovers a writing turn leaves uncommitted. */
  function Left(before: Repo, t: Turn, mark: Fingerprint): set<Path> {
    if t.includeLeftovers then {}
    else set p | p in Dirty(before) && p in Dirty(t.after) && p !in Touched(before, t.after, mark)
  }

  /** What a commit of these paths changes. */
  function Changes(r: Repo, paths: set<Path>): map<Path, Option<Content>> {
    map p | p in paths && At(r.work, p) != At(r.head, p) :: At(r.work, p)
  }

  /** The repository after staging and committing the paths, as far as it gets. */
  function Committed(r: Repo, paths: set<Path>, fault: Fault, sha: string): Repo {
    match fault
    case NotStaged => r
    case NotCommitted => r.(index := Copied(r.index, r.work, paths))
    case NoFault =>
      var staged := r.(index := Copied(r.index, r.work, paths));
      if Changes(r, paths) == map[] then staged else staged.(head := Copied(r.head, r.work, paths), sha := sha)
  }

  function EndTurn(f: Flow, t: Turn, mark: Fingerprint): Flow {
    if !t.scope.Write? then f.(repo := t.after, turns := f.turns + 1)
    else
      var own := Own(f.repo, t, mark);
      var changes := Changes(t.after, own);
      var commits := t.fault.NoFault? && changes != map[];
      Flow(Committed(t.after, own, t.fault, t.sha), f.turns + 1,
           if commits then f.commits + [Commit(f.turns, changes)] else f.commits,
           if (commits || t.agentCommits) && t.pushWorks then f.pushes + [f.turns] else f.pushes)
  }

  function Run(repo: Repo, turns: seq<Turn>, mark: Fingerprint): Flow {
    if turns == [] then Flow(repo, 0, [], [])
      else EndTurn(Run(repo, turns[..|turns| - 1], mark), turns[|turns| - 1], mark)
  }

  // ----- one turn -----

  /** The paths committed and the paths left behind are the dirty paths, each in one of the two. */
  lemma Partition(before: Repo, t: Turn, mark: Fingerprint)
    ensures Own(before, t, mark) !! Left(before, t, mark)
    ensures Own(before, t, mark) + Left(before, t, mark) == Dirty(t.after)
  {
  }

  /**
   A writing turn whose commit works leaves exactly the untouched leftovers dirty. Whatever the scope and however the
   commit goes, the working tree is the agent's, and paths outside the commit keep their HEAD and index entries.
   */
  lemma WhatIsLeft(f: Flow, t: Turn, mark: Fingerprint)
    ensures var r := EndTurn(f, t, mark).repo;
            && r.work == t.after.work
            && (t.scope.Write? && t.fault.NoFault? ==> Dirty(r) == Left(f.repo, t, mark))
            && (!t.scope.Write? ==> r == t.after)
            && forall p :: p !in Own(f.repo, t, mark) ==>
                 At(r.head, p) == At(t.after.head, p) && At(r.index, p) == At(t.after.index, p)
  {
    if t.scope.Write? && t.fault.NoFault? {
      var own := Own(f.repo, t, mark);
      var r := EndTurn(f, t, mark).repo;
      CommittedIsClean(t.after, own, t.sha);
      Partition(f.repo, t, mark);
      assert forall p :: p in Dirty(r) <==> p in Dirty(t.after) && p !in own;
      assert Dirty(r) == Left(f.repo, t, mark);
    }
  }

  lemma CommittedIsClean(r: Repo, paths: set<Path>, sha: string)
    ensures var c := Committed(r, paths, NoFault, sha);
            forall p :: IsDirty(c, p) <==> IsDirty(r, p) && p !in paths
  {
    var c := Committed(r, paths, NoFault, sha);
    forall p ensures IsDirty(c, p) <==> IsDirty(r, p) && p !in paths {
      if p in paths && At(r.work, p) != At(r.head, p) {
        assert p in Changes(r, paths);
      }
    }
  }

  // ----- every run of turns -----

  /** How the repository was before turn number n. */
  function Before(repo: Repo, turns: seq<Turn>, n: nat, mark: Fingerprint): Repo
    requires n <= |turns|
  {
    Run(repo, turns[..n], mark).repo
  }

  /**
   A commit of turn `t`, which found the repository as `before`: of a writing turn, and an earlier uncommitted path is
   in it only if the turn changed its content or asked to include it.
   */
  ghost predicate Rightful(c: Commit, before: Repo, t: Turn) {
    && t.scope.Write?
    && forall p :: p in c.changes && IsDirty(before, p) ==>
         t.includeLeftovers || At(before.work, p) != At(t.after.work, p)
  }

  ghost predicate AllRightful(commits: seq<Commit>, repo: Repo, turns: seq<Turn>, mark: Fingerprint) {
    forall i :: 0 <= i < |commits| ==>
      commits[i].turn < |turns|
        && Rightful(commits[i], Before(repo, turns, commits[i].turn, mark), turns[commits[i].turn])
  }

  lemma OwnIsRightful(f: Flow, t: Turn, mark: Fingerprint)
    requires t.scope.Write?
    ensures Rightful(Commit(f.turns, Changes(t.after, Own(f.repo, t, mark))), f.repo, t)
  {
    forall p | p in Changes(t.after, Own(f.repo, t, mark)) && IsDirty(f.repo, p)
      ensures t.includeLeftovers || At(f.repo.work, p) != At(t.after.work, p)
    {
      assert p in Dirty(f.repo) && p in Own(f.repo, t, mark);
    }
  }

  lemma RightfulStays(commits: seq<Commit>, repo: Repo, turns: seq<Turn>, t: Turn, mark: Fingerprint)
    requires AllRightful(commits, repo, turns, mark)
    ensures AllRightful(commits, repo, turns + [t], mark)
  {
    forall i | 0 <= i < |commits|
      ensures commits[i].turn < |turns + [t]| &&
              Rightful(commits[i], Before(repo, turns + [t], commits[i].turn, mark), (turns + [t])[commits[i].turn])
    {
      assert (turns + [t])[..commits[i].turn] == turns[..commits[i].turn];
    }
  }

  /** Over every run of turns of mixed scopes: every commit is rightful, and only writing turns push. */
  lemma {:induction false} CommitsAreRightful(repo: Repo, turns: seq<Turn>, mark: Fingerprint)
    ensures var f := Run(repo, turns, mark);
            && f.turns == |turns|
            && AllRightful(f.commits, repo, turns, mark)
            && forall i :: 0 <= i < |f.pushes| ==> f.pushes[i] < |turns| && turns[f.pushes[i]].scope.Write?
  {
    if turns != [] {
      var n := |turns| - 1;
      var init, t := turns[..n], turns[n];
      CommitsAreRightful(repo, init, mark);
      assert turns == init + [t];
      var f := Run(repo, init, mark);
      RightfulStays(f.commits, repo, init, t, mark);
      if t.scope.Write? {
        OwnIsRightful(f, t, mark);
        assert Before(repo, turns, n, mark) == f.repo;
      }
    }
  }

  /** The turn leaves the path as it found it: in HEAD, in the index and in the working tree. */
  predicate LeavesAlone(before: Repo, t: Turn, p: Path) {
    At(t.after.head, p) == At(before.head, p) && At(t.after.index, p) == At(before.index, p)
      && At(t.after.work, p) == At(before.work, p)
  }

  ghost predicate AloneAllAlong(repo: Repo, turns: seq<Turn>, p: Path, mark: Fingerprint) {
    forall n :: 0 <= n < |turns| ==>
      LeavesAlone(Before(repo, turns, n, mark), turns[n], p) && !(turns[n].scope.Write? && turns[n].includeLeftovers)
  }

  lemma AloneBefore(repo: Repo, turns: seq<Turn>, p: Path, mark: Fingerprint)
    requires AloneAllAlong(repo, turns, p, mark) && turns != []
    ensures AloneAllAlong(repo, turns[..|turns| - 1], p, mark)
  {
    var init := turns[..|turns| - 1];
    forall k | 0 <= k < |init|
      ensures LeavesAlone(Before(repo, init, k, mark), init[k], p)
      ensures !(init[k].scope.Write? && init[k].includeLeftovers)
    {
      assert init[..k] == turns[..k];
    }
  }

  /**
   An uncommitted change that no turn touches or asks to include survives every run of turns: it is in no commit of
   Flow's, and its HEAD, index and working tree entries are what they were.
   */
  lemma {:induction false} LeftoverSurvives(repo: Repo, turns: seq<Turn>, p: Path, mark: Fingerprint)
    requires IsDirty(repo, p) && AloneAllAlong(repo, turns, p, mark)
    ensures var f := Run(repo, turns, mark);
            && At(f.repo.head, p) == At(repo.head, p)
            && At(f.repo.index, p) == At(repo.index, p)
            && At(f.repo.work, p) == At(repo.work, p)
            && forall i :: 0 <= i < |f.commits| ==> p !in f.commits[i].changes
  {
    if turns != [] {
      var n := |turns| - 1;
      var init, t := turns[..n], turns[n];
      AloneBefore(repo, turns, p, mark);
      LeftoverSurvives(repo, init, p, mark);
      var f := Run(repo, init, mark);
      assert Before(repo, turns, n, mark) == f.repo;
      assert p in Dirty(f.repo);
      WhatIsLeft(f, t, mark);
    }
  }
}
