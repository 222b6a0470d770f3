/**
 The end of a turn that must not publish: the workspace's fingerprints before and after the turn are compared, and a
 turn that changed what it had to keep is failed. Hashes are injective here.
 */
module ReadOnlyTurns {
  import opened Basics
  import opened Workspace
  import opened TurnScope
  import SessionTurns

  const UNTRACKED := "??"

  datatype WorkspaceState = WorkspaceState(head: string, branch: string, index: string, worktree: string, dirty: Paths)

  datatype Violation = HeadMoved | BranchChanged | IndexChanged | TrackedChanged(paths: seq<Path>)

  function Filter(keys: seq<Path>, keep: Path -> bool): (r: seq<Path>)
    ensures forall p :: p in r <==> p in keys && keep(p)
  {
    if keys == [] then []
    else
      var init, last := Filter(keys[..|keys| - 1], keep), keys[|keys| - 1];
      assert keys == keys[..|keys| - 1] + [last];
      if keep(last) then init + [last] else init
  }

  function Letters(m: Paths, p: Path): Option<string> {
    if p in m.xy then Some(m.xy[p]) else None
  }

  /** The dirty paths that are not untracked. */
  function Tracked(m: Paths): seq<Path> { Filter(m.keys, p => Letters(m, p) != Some(UNTRACKED)) }

  function Changed(before: Paths, after: Paths): seq<Path> {
    Filter(Tracked(after), p => Letters(before, p) != Letters(after, p))
  }

  function When(holds: bool, v: Violation): (r: seq<Violation>)
    ensures forall x :: x in r <==> holds && x == v
  {
    if holds then [v] else []
  }

  predicate TrackedDiffers(before: WorkspaceState, after: WorkspaceState) {
    after.worktree != before.worktree || Tracked(after.dirty) != Tracked(before.dirty)
  }

  function Violations(before: WorkspaceState, after: WorkspaceState): seq<Violation> {
    When(after.head != before.head, HeadMoved) + When(after.branch != before.branch, BranchChanged)
    + When(after.index != before.index, IndexChanged)
    + When(TrackedDiffers(before, after), TrackedChanged(Changed(before.dirty, after.dirty)))
  }

  lemma ViolationsAre(before: WorkspaceState, after: WorkspaceState)
    ensures var v := Violations(before, after);
            && (HeadMoved in v <==> after.head != before.head)
            && (BranchChanged in v <==> after.branch != before.branch)
            && (v == [] <==> after.head == before.head && after.branch == before.branch && after.index == before.index
                             && !TrackedDiffers(before, after))
  {
  }

  /** Lists of non-empty texts without NUL are equal if their joins are. */
  lemma JoinInjective(a: seq<Path>, b: seq<Path>)
    requires NoNul(a) && NoNul(b) && "" !in a && "" !in b && Join(a, NUL) == Join(b, NUL)
    ensures a == b
  {
    if a != [] && b != [] {
      SplitJoin(a);
      SplitJoin(b);
    } else if a != [] {
      JoinNotEmpty(a);
    } else if b != [] {
      JoinNotEmpty(b);
    }
  }

  lemma JoinNotEmpty(a: seq<Path>)
    requires a != [] && "" !in a
    ensures Join(a, NUL) != ""
  {
    assert a[0] in a;
  }

  lemma TrackedNames(m: Paths)
    requires Clean(m)
    ensures NoNul(Tracked(m)) && "" !in Tracked(m)
  {
    var t := Tracked(m);
    forall i | 0 <= i < |t| ensures NUL !in t[i] {
      assert t[i] in t;
    }
  }

  lemma SameJoin(before: WorkspaceState, after: WorkspaceState)
    requires Clean(before.dirty) && Clean(after.dirty)
    ensures Join(Tracked(after.dirty), NUL) == Join(Tracked(before.dirty), NUL) <==>
        Tracked(after.dirty) == Tracked(before.dirty)
  {
    if Join(Tracked(after.dirty), NUL) == Join(Tracked(before.dirty), NUL) {
      TrackedNames(before.dirty);
      TrackedNames(after.dirty);
      JoinInjective(Tracked(after.dirty), Tracked(before.dirty));
    }
  }

  /** The comparison, with the lists of tracked paths compared as one text. */
  method ReadOnlyViolations(before: WorkspaceState, after: WorkspaceState)
    returns (violations: seq<Violation>, untracked: seq<Path>)
    requires Clean(before.dirty) && Clean(after.dirty)
    ensures violations == Violations(before, after)
    ensures forall p :: p in untracked <==> Letters(after.dirty, p) == Some(UNTRACKED) && p !in before.dirty.xy
  {
    violations := When(after.head != before.head, HeadMoved) + When(after.branch != before.branch, BranchChanged);
    violations := violations + When(after.index != before.index, IndexChanged);
    var differs := after.worktree != before.worktree
      || Join(Tracked(after.dirty), NUL) != Join(Tracked(before.dirty), NUL);
    SameJoin(before, after);
    violations := violations + When(differs, TrackedChanged(Changed(before.dirty, after.dirty)));
    untracked := Filter(after.dirty.keys, p => Letters(after.dirty, p) == Some(UNTRACKED) && p !in before.dirty.xy);
  }

  // ----- what the fingerprints say about the repository -----

  type Diff = map<Path, Option<Content>>

  function Between(a: Tree, b: Tree): (d: Diff)
    ensures forall p :: p in d <==> At(a, p) != At(b, p)
    ensures forall p :: p in d ==> d[p] == At(b, p)
  {
    map p | p in a.Keys + b.Keys && At(a, p) != At(b, p) :: At(b, p)
  }

  /** The unstaged changes of tracked files. */
  function Unstaged(r: Repo): (d: Diff)
    ensures forall p :: p in d <==> p in r.index && At(r.work, p) != At(r.index, p)
    ensures forall p :: p in d ==> d[p] == At(r.work, p)
  {
    map p | p in r.index && At(r.work, p) != At(r.index, p) :: At(r.work, p)
  }

  /**
   Listed with letters other than "??": changed paths of the index, and paths only HEAD has. A path taken out of the
   index that is still in the working tree is listed twice, and the second listing, "??", stays.
   */
  predicate IsTracked(r: Repo, p: Path) {
    if p in r.index then IsDirty(r, p) else p in r.head && p !in r.work
  }

  function TrackedSet(r: Repo): (s: set<Path>)
    ensures forall p :: p in s <==> IsTracked(r, p)
  {
    set p | p in r.index.Keys + r.head.Keys && IsTracked(r, p)
  }

  /**
   The status listing of the repository: its tracked changes in git's order, and anything else it lists under "??".
   */
  ghost predicate ListsStatus(m: Paths, r: Repo, order: set<Path> -> seq<Path>) {
    && (forall p :: p in m.keys ==> p in m.xy && (m.xy[p] == "??" <==> !IsTracked(r, p)))
    && Filter(m.keys, p => IsTracked(r, p)) == order(TrackedSet(r))
  }

  lemma {:induction false} FilterAlike(keys: seq<Path>, f: Path -> bool, g: Path -> bool)
    requires forall p :: p in keys ==> f(p) == g(p)
    ensures Filter(keys, f) == Filter(keys, g)
  {
    if keys != [] {
      var init := keys[..|keys| - 1];
      assert keys == init + [keys[|keys| - 1]];
      FilterAlike(init, f, g);
    }
  }

  /** The paths compared are the tracked changes. */
  lemma TrackedListed(m: Paths, r: Repo, order: set<Path> -> seq<Path>)
    requires ListsStatus(m, r, order)
    ensures Tracked(m) == order(TrackedSet(r))
  {
    FilterAlike(m.keys, p => Letters(m, p) != Some(UNTRACKED), p => IsTracked(r, p));
  }

  /** The paths named as changed: listed after the turn as tracked, with other letters than before, or new there. */
  lemma ChangedNames(before: Paths, after: Paths)
    requires Clean(after)
    ensures forall p :: p in Changed(before, after) <==>
              p in after.xy && after.xy[p] != "??" && (p in before.xy ==> before.xy[p] != after.xy[p])
  {
  }

  /** `s` is what readWorkspaceState reads from the repository; `order` lists a set of paths. */
  ghost predicate Reads(s: WorkspaceState, r: Repo, hash: Diff -> string, order: set<Path> -> seq<Path>) {
    && s.head == r.sha
    && s.branch == r.branch
    && s.index == hash(Between(r.head, r.index))
    && s.worktree == hash(Unstaged(r))
    && ListsStatus(s.dirty, r, order)
  }

  ghost predicate Injective(hash: Diff -> string) {
    forall a, b :: hash(a) == hash(b) ==> a == b
  }

  ghost predicate Lists(order: set<Path> -> seq<Path>) {
    forall s, p :: p in order(s) <==> p in s
  }

  /**
   HEAD, branch, index and the files of the index are the same, and so are the files only HEAD has, if they are there.
   */
  ghost predicate Unchanged(a: Repo, b: Repo) {
    && a.sha == b.sha && a.branch == b.branch && a.index == b.index
    && (forall p :: p in a.index ==> At(a.work, p) == At(b.work, p))
    && forall p :: p in a.head && p !in a.index ==> (p in a.work <==> p in b.work)
  }

  lemma SameIndex(a: Repo, b: Repo)
    requires a.head == b.head && Between(a.head, a.index) == Between(b.head, b.index)
    ensures a.index == b.index
  {
    var d, e := Between(a.head, a.index), Between(b.head, b.index);
    forall p ensures At(a.index, p) == At(b.index, p) {
      assert p in d <==> p in e;
    }
    SameTree(a.index, b.index);
  }

  lemma SameFiles(a: Repo, b: Repo)
    requires a.index == b.index && Unstaged(a) == Unstaged(b)
    ensures forall p :: p in a.index ==> At(a.work, p) == At(b.work, p)
  {
    var d, e := Unstaged(a), Unstaged(b);
    forall p | p in a.index ensures At(a.work, p) == At(b.work, p) {
      assert p in d <==> p in e;
    }
  }

  /**
   A turn's comparison finds nothing if and only if the turn left HEAD, branch, index and tracked files as they were.
   A commit's name stands for one tree.
   */
  lemma NothingFound(before: Repo, after: Repo, s: WorkspaceState, t: WorkspaceState, hash: Diff -> string,
      order: set<Path> -> seq<Path>)
    requires Injective(hash) && Lists(order) && (before.sha == after.sha ==> before.head == after.head)
    requires Reads(s, before, hash, order) && Reads(t, after, hash, order)
    ensures Violations(s, t) == [] <==> Unchanged(before, after)
  {
    ViolationsAre(s, t);
    TrackedListed(s.dirty, before, order);
    TrackedListed(t.dirty, after, order);
    if Violations(s, t) == [] {
      FoundNothing(before, after, hash, order);
    }
    if Unchanged(before, after) {
      UnchangedReads(before, after);
    }
  }

  lemma UnchangedReads(before: Repo, after: Repo)
    requires Unchanged(before, after) && before.head == after.head
    ensures Unstaged(before) == Unstaged(after) && TrackedSet(before) == TrackedSet(after)
  {
    forall p ensures IsTracked(before, p) <==> IsTracked(after, p) {
    }
  }

  lemma FoundNothing(before: Repo, after: Repo, hash: Diff -> string, order: set<Path> -> seq<Path>)
    requires Injective(hash) && Lists(order) && before.sha == after.sha && before.branch == after.branch
        && before.head == after.head
    requires hash(Between(before.head, before.index)) == hash(Between(after.head, after.index))
    requires hash(Unstaged(before)) == hash(Unstaged(after)) && order(TrackedSet(before)) == order(TrackedSet(after))
    ensures Unchanged(before, after)
  {
    SameIndex(before, after);
    SameFiles(before, after);
    forall p | p in before.head && p !in before.index ensures p in before.work <==> p in after.work {
      assert p in order(TrackedSet(before)) <==> p in TrackedSet(before);
      assert p in order(TrackedSet(after)) <==> p in TrackedSet(after);
    }
  }

  // ----- the end of the turn -----

  /** The violations a turn that may edit but not publish answers for. */
  function OnlyHeadAndBranch(v: seq<Violation>): (r: seq<Violation>)
    ensures forall x :: x in r <==> x in v && (x.HeadMoved? || x.BranchChanged?)
  {
    if v == [] then []
    else (if v[0].HeadMoved? || v[0].BranchChanged? then [v[0]] else []) + OnlyHeadAndBranch(v[1..])
  }

  /** What a read-only turn answers for besides HEAD and branch. */
  predicate MoreDiffers(before: WorkspaceState, after: WorkspaceState) {
    after.index != before.index || TrackedDiffers(before, after)
  }

  lemma Answers(scope: Scope, before: WorkspaceState, after: WorkspaceState)
    ensures var v := Violations(before, after); var mine := if scope.NoPublish? then OnlyHeadAndBranch(v) else v;
            && (HeadMoved in mine <==> after.head != before.head)
            && (mine == [] <==> after.head == before.head && after.branch == before.branch
                                && (scope.NoPublish? || !MoreDiffers(before, after)))
  {
    ViolationsAre(before, after);
    var kept := OnlyHeadAndBranch(Violations(before, after));
    assert kept != [] ==> kept[0] in kept;
  }

  predicate Violated(scope: Scope, startHead: string, headNow: string, before: WorkspaceState, after: WorkspaceState) {
    || headNow != startHead
    || after.head != before.head || after.branch != before.branch
    || (scope.ReadOnly? && MoreDiffers(before, after))
  }

  /**
   Completes a turn without publishing: it keeps its status if and only if what its scope protects is unchanged;
   a turn that had already failed or was stopped stays so.
   */
  method CompleteWithoutPublishing(scope: Scope, startHead: string, headNow: string, before: WorkspaceState,
                                   after: WorkspaceState, initial: SessionTurns.Status)
    returns (status: SessionTurns.Status, pushed: bool)
    requires !scope.Write? && Clean(before.dirty) && Clean(after.dirty)
    ensures !pushed
    ensures status == initial <==>
        initial.Failed? || initial.Stopped? || !Violated(scope, startHead, headNow, before, after)
    ensures status == initial || status == SessionTurns.Failed
  {
    status := initial;
    var violations, untracked := ReadOnlyViolations(before, after);
    Answers(scope, before, after);
    if scope.NoPublish? {
      violations := OnlyHeadAndBranch(violations);
    }
    if headNow != startHead && HeadMoved !in violations {
      violations := [HeadMoved] + violations;
    }
    if violations != [] && (status.Success? || status.AwaitingInput?) {
      status := SessionTurns.Failed;
    }
    pushed := false;
  }

  /**
   What fails a read-only turn in CompleteWithoutPublishing: it does if and only if the repository is not unchanged.
   HEAD is read once more before and after the turn; the two readings agree with the others.
   */
  lemma ReadOnlyKeepsStatus(before: Repo, after: Repo, s: WorkspaceState, t: WorkspaceState, hash: Diff -> string,
                            order: set<Path> -> seq<Path>)
    requires Injective(hash) && Lists(order) && (before.sha == after.sha ==> before.head == after.head)
    requires Reads(s, before, hash, order) && Reads(t, after, hash, order)
    ensures Violated(ReadOnly, before.sha, after.sha, s, t) <==> !Unchanged(before, after)
  {
    NothingFound(before, after, s, t, hash, order);
    ReadOnlyViolated(s, t);
  }

  lemma ReadOnlyViolated(s: WorkspaceState, t: WorkspaceState)
    ensures Violated(ReadOnly, s.head, t.head, s, t) <==> Violations(s, t) != []
  {
    ViolationsAre(s, t);
  }

  /** A turn that may edit but not publish fails if and only if HEAD or the branch is another one. */
  lemma NoPublishKeepsStatus(before: Repo, after: Repo, s: WorkspaceState, t: WorkspaceState, hash: Diff -> string,
                             order: set<Path> -> seq<Path>)
    requires Reads(s, before, hash, order) && Reads(t, after, hash, order)
    ensures Violated(NoPublish, before.sha, after.sha, s, t) <==>
            before.sha != after.sha || before.branch != after.branch
  {
  }
}
