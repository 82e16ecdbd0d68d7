/**
 * The repository side of `GitManager` (src/git.rs): staging, the staged
 * diff, commit signatures and commits, over an abstract repository made of
 * a commit history, an index and a working directory.
 */
module Git {
  import opened Results
  import opened GitStatus
  import opened GitPatch
  import opened Calls

  /** The content of a tree: file path to file content. */
  type Tree = map<Path, string>

  /** The identity that authors and commits a commit (`Signature::now`, timestamp left out). */
  datatype Signature = Signature(name: string, email: string)

  /** The identity used when the repository configuration has no complete identity. */
  const DefaultSignature: Signature := Signature("Distill", "distill@example.com")

  /** A commit object; `parents` are positions of earlier commits in the history. */
  datatype CommitObject = CommitObject(tree: Tree, parents: seq<nat>, author: Signature, committer: Signature, message: string)

  /**
   * A repository: its commits in creation order (HEAD is the last one; no
   * commits means HEAD is unborn), the index, the working directory, the
   * paths that ignore rules match, and the configuration (`None` when it
   * cannot be read).
   */
  datatype RepoState = RepoState(
    history: seq<CommitObject>,
    index: Tree,
    workdir: Tree,
    ignored: set<Path>,
    config: Option<map<string, string>>)

  /** The failure of `repo.head()` when HEAD does not point to a commit yet. */
  datatype GitError = UnbornHead

  /** The tree of the HEAD commit; the empty tree while HEAD is unborn. */
  function HeadTree(s: RepoState): Tree {
    if |s.history| == 0 then map[] else s.history[|s.history| - 1].tree
  }

  /** Every parent of a commit was made before it. */
  predicate WellFormed(history: seq<CommitObject>) {
    forall i, j :: 0 <= i < |history| && 0 <= j < |history[i].parents| ==> history[i].parents[j] < i
  }

  // ---------------------------------------------------------------- status

  /** The flags comparing the index with HEAD for one path. */
  function IndexStatus(head: Tree, index: Tree, p: Path): set<StatusFlag> {
    if p in index && p !in head then {IndexNew}
    else if p !in index && p in head then {IndexDeleted}
    else if p in index && p in head && index[p] != head[p] then {IndexModified}
    else {}
  }

  /** The flags comparing the working directory with the index for one path. */
  function WorktreeStatus(s: RepoState, p: Path): set<StatusFlag> {
    if p in s.index && p !in s.workdir then {WtDeleted}
    else if p in s.index && s.workdir[p] != s.index[p] then {WtModified}
    else if p !in s.index && p in s.workdir then (if p in s.ignored then {Ignored} else {WtNew})
    else {}
  }

  /** Every path HEAD, the index or the working directory knows. */
  function AllPaths(s: RepoState): set<Path> {
    HeadTree(s).Keys + s.index.Keys + s.workdir.Keys
  }

  /**
   * The status reported for a path with `include_untracked(false)` and
   * `include_ignored(false)`: untracked and ignored files are not reported.
   */
  function ReportedStatus(s: RepoState, p: Path): set<StatusFlag> {
    (IndexStatus(HeadTree(s), s.index, p) + WorktreeStatus(s, p)) - {WtNew, Ignored}
  }

  /** Some reported path carries an index flag: what the status scan looks for. */
  predicate StatusShowsStaged(s: RepoState) {
    exists p | p in AllPaths(s) :: IsStaged(ReportedStatus(s, p))
  }

  /** Something is staged: the index differs from the HEAD tree. */
  predicate HasStaged(s: RepoState) {
    s.index != HeadTree(s)
  }

  /** The index and HEAD hold the same entry for `p` (both lack it, or both have the same content). */
  predicate SameEntry(a: Tree, b: Tree, p: Path) {
    (p in a <==> p in b) && (p in a ==> a[p] == b[p])
  }

  /** A path is reported as staged exactly when the index and HEAD disagree about it. */
  lemma StagedPathIffEntryDiffers(s: RepoState, p: Path)
    ensures IsStaged(ReportedStatus(s, p)) <==> !SameEntry(s.index, HeadTree(s), p)
  {
    var wt := WorktreeStatus(s, p);
    assert wt * IndexFlags == {};
    var st := IndexStatus(HeadTree(s), s.index, p);
    assert ReportedStatus(s, p) * IndexFlags == st;
  }

  /** The status scan finds an index flag exactly when the index differs from the HEAD tree. */
  lemma StatusShowsStagedIffIndexDiffers(s: RepoState)
    ensures StatusShowsStaged(s) <==> s.index != HeadTree(s)
  {
    var head := HeadTree(s);
    if StatusShowsStaged(s) {
      var p :| p in AllPaths(s) && IsStaged(ReportedStatus(s, p));
      StagedPathIffEntryDiffers(s, p);
    } else {
      forall p ensures (p in s.index <==> p in head) && (p in s.index ==> s.index[p] == head[p]) {
        if p in AllPaths(s) { StagedPathIffEntryDiffers(s, p); }
      }
      assert s.index.Keys == head.Keys;
      assert forall p :: p in s.index ==> s.index[p] == head[p];
    }
  }

  /** A path neither HEAD nor the index tracks is never reported, whatever the working directory holds. */
  lemma UntrackedNeverReported(s: RepoState, p: Path)
    requires p !in s.index && p !in HeadTree(s)
    ensures ReportedStatus(s, p) == {}
  {
  }

  // --------------------------------------------------------------- staging

  /**
   * `stage_all_changes`: `index.add_all(["*"])` then `index.write()`. Every
   * working-directory file is staged except untracked ignored ones, and
   * tracked files missing from the working directory leave the index.
   */
  function StageAll(s: RepoState): RepoState {
    s.(index := map p | p in s.workdir && (p in s.index || p !in s.ignored) :: s.workdir[p])
  }

  /**
   * What staging everything does: only the index changes; it then holds
   * exactly the working-directory files that are tracked or not ignored,
   * with their working-directory content.
   */
  lemma StageAllContents(s: RepoState)
    ensures var t := StageAll(s);
      t.history == s.history && t.workdir == s.workdir && t.ignored == s.ignored && t.config == s.config &&
      (forall p :: p in t.index <==> p in s.workdir && (p in s.index || p !in s.ignored)) &&
      (forall p :: p in t.index ==> t.index[p] == s.workdir[p])
  {
  }

  /** After staging everything, no tracked or unignored file differs between the index and the working directory. */
  lemma StageAllLeavesNothingUnstaged(s: RepoState, p: Path)
    ensures WorktreeStatus(StageAll(s), p) <= {Ignored}
  {
  }

  /** Staging everything twice is staging everything once. */
  lemma StageAllIdempotent(s: RepoState)
    ensures StageAll(StageAll(s)) == StageAll(s)
  {
    var once := StageAll(s);
    var twice := StageAll(once);
    assert twice.index == once.index;
  }

  /**
   * With nothing staged, auto-staging yields staged changes exactly when the
   * working directory holds a change git would report: a new unignored file,
   * a modified file or a deleted file.
   */
  lemma StageAllFindsWork(s: RepoState)
    requires !HasStaged(s)
    ensures HasStaged(StageAll(s)) <==>
      exists p | p in AllPaths(s) :: WorktreeStatus(s, p) * {WtNew, WtModified, WtDeleted} != {}
  {
    StageAllContents(s);
    var t := StageAll(s);
    assert HeadTree(t) == s.index;
    if t.index != s.index {
      var p: Path;
      if t.index.Keys != s.index.Keys {
        p :| p in t.index.Keys + s.index.Keys && !(p in t.index.Keys && p in s.index.Keys);
        if p in t.index {
          assert p in s.workdir && p !in s.ignored;
          assert WtNew in WorktreeStatus(s, p) * {WtNew, WtModified, WtDeleted};
        } else {
          assert p !in s.workdir;
          assert WtDeleted in WorktreeStatus(s, p) * {WtNew, WtModified, WtDeleted};
        }
      } else {
        p :| p in t.index && t.index[p] != s.index[p];
        assert p in s.workdir && s.workdir[p] != s.index[p];
        assert WtModified in WorktreeStatus(s, p) * {WtNew, WtModified, WtDeleted};
      }
      assert p in AllPaths(s) && WorktreeStatus(s, p) * {WtNew, WtModified, WtDeleted} != {};
      assert HasStaged(t);
    } else {
      forall p | p in AllPaths(s) ensures WorktreeStatus(s, p) * {WtNew, WtModified, WtDeleted} == {} {
        assert SameEntry(t.index, s.index, p);
      }
    }
  }

  // ------------------------------------------------------------------ diff

  /**
   * `get_staged_diff`: the patch text of HEAD's tree against the index's
   * tree. `diffOf` stands for git2's tree-to-tree diff, the lines it prints.
   */
  function DiffText(s: RepoState, diffOf: (Tree, Tree) -> seq<DiffLine>): Result<string, GitError> {
    if |s.history| == 0 then Err(UnbornHead) else Ok(Render(diffOf(HeadTree(s), s.index)))
  }

  // ---------------------------------------------------------------- commit

  /** The configuration holds both `user.name` and `user.email`. */
  predicate HasIdentity(config: Option<map<string, string>>) {
    config.Some? && "user.name" in config.value && "user.email" in config.value
  }

  /** `get_signature`: the configured identity when it is complete, the default identity otherwise. */
  function GetSignature(config: Option<map<string, string>>): (sig: Signature)
    ensures HasIdentity(config) ==> sig.name == config.value["user.name"] && sig.email == config.value["user.email"]
    ensures !HasIdentity(config) ==> sig == DefaultSignature
  {
    if config.Some? && "user.name" in config.value && "user.email" in config.value then
      Signature(config.value["user.name"], config.value["user.email"])
    else
      DefaultSignature
  }

  /** A name without an email (or the reverse) is never mixed with the default: the default is used whole. */
  lemma PartialIdentityFallsBack(config: map<string, string>)
    requires ("user.name" in config) != ("user.email" in config)
    ensures GetSignature(Some(config)) == Signature("Distill", "distill@example.com")
  {
  }

  /**
   * `commit`: a new commit of the index's tree whose only parent is the HEAD
   * commit, authored and committed by the signature, with the message as
   * given; HEAD moves to it. Fails while HEAD is unborn.
   */
  function CommitState(s: RepoState, message: string): Result<RepoState, GitError> {
    if |s.history| == 0 then Err(UnbornHead)
    else
      var signature := GetSignature(s.config);
      var c := CommitObject(s.index, [|s.history| - 1], signature, signature, message);
      Ok(s.(history := s.history + [c]))
  }

  /**
   * What a commit does: it fails exactly while HEAD is unborn; otherwise it
   * appends one commit whose only parent is the old HEAD commit, whose
   * author and committer are both the signature, whose message is the one
   * given and whose tree is the index, and it changes nothing else.
   */
  lemma CommitEffect(s: RepoState, message: string)
    ensures var r := CommitState(s, message);
      (r.Err? <==> |s.history| == 0) &&
      (r.Ok? ==>
        var t := r.value;
        var n := |s.history|;
        |t.history| == n + 1 && t.history[..n] == s.history &&
        t.history[n].parents == [n - 1] &&
        t.history[n].author == t.history[n].committer == GetSignature(s.config) &&
        t.history[n].message == message &&
        HeadTree(t) == s.index &&
        t.index == s.index && t.workdir == s.workdir && t.ignored == s.ignored && t.config == s.config)
  {
    if |s.history| > 0 {
      assert CommitState(s, message).value.history[..|s.history|] == s.history;
    }
  }

  /** A commit keeps the history well formed. */
  lemma CommitKeepsWellFormed(s: RepoState, message: string)
    requires WellFormed(s.history) && CommitState(s, message).Ok?
    ensures WellFormed(CommitState(s, message).value.history)
  {
    CommitEffect(s, message);
    var h := CommitState(s, message).value.history;
    forall i, j | 0 <= i < |h| && 0 <= j < |h[i].parents| ensures h[i].parents[j] < i {
      if i < |s.history| { assert h[i] == s.history[i]; }
    }
  }

  /** After a commit nothing is staged any more. */
  lemma CommitClearsStaged(s: RepoState, message: string)
    requires CommitState(s, message).Ok?
    ensures !StatusShowsStaged(CommitState(s, message).value)
  {
    CommitEffect(s, message);
    StatusShowsStagedIffIndexDiffers(CommitState(s, message).value);
  }

  // ------------------------------------------------------------ repository

  /**
   * `GitManager`: an open repository whose state the operations below change
   * in place. Each operation `main` calls records itself in `log`.
   */
  class Repository {
    var history: seq<CommitObject>
    var index: Tree
    var workdir: Tree
    var ignored: set<Path>
    var config: Option<map<string, string>>
    ghost const log: Log

    /** `GitManager::new`: the repository found, in the state `s`. */
    constructor(s: RepoState, ghost log: Log)
      ensures State() == s && this.log == log
    {
      history, index, workdir, ignored, config := s.history, s.index, s.workdir, s.ignored, s.config;
      this.log := log;
    }

    /** The repository's current state as a value. */
    function State(): RepoState
      reads this
    {
      RepoState(history, index, workdir, ignored, config)
    }

    /** `repo.statuses(..)` with untracked and ignored files excluded: one entry per reported path. */
    method Statuses() returns (entries: seq<StatusEntry>)
      ensures forall i :: 0 <= i < |entries| ==>
        entries[i].path in AllPaths(State()) && entries[i].status == ReportedStatus(State(), entries[i].path) &&
        entries[i].status != {}
      ensures forall p :: p in AllPaths(State()) && ReportedStatus(State(), p) != {} ==>
        exists i :: 0 <= i < |entries| && entries[i].path == p
      ensures forall i, j :: 0 <= i < j < |entries| ==> entries[i].path != entries[j].path
    {
      var s := State();
      entries := [];
      var todo := AllPaths(s);
      while todo != {}
        invariant todo <= AllPaths(s)
        invariant forall i :: 0 <= i < |entries| ==>
          entries[i].path in AllPaths(s) && entries[i].status == ReportedStatus(s, entries[i].path) &&
          entries[i].status != {}
        invariant forall p :: p in AllPaths(s) - todo && ReportedStatus(s, p) != {} ==>
          exists i :: 0 <= i < |entries| && entries[i].path == p
        invariant forall i :: 0 <= i < |entries| ==> entries[i].path !in todo
        invariant forall i, j :: 0 <= i < j < |entries| ==> entries[i].path != entries[j].path
        decreases todo
      {
        var p :| p in todo;
        var status := ReportedStatus(s, p);
        ghost var before := entries;
        if status != {} {
          entries := entries + [StatusEntry(p, status)];
        }
        forall q | q in AllPaths(s) - (todo - {p}) && ReportedStatus(s, q) != {}
          ensures exists i :: 0 <= i < |entries| && entries[i].path == q
        {
          if q == p {
            assert entries[|entries| - 1].path == q;
          } else {
            var i :| 0 <= i < |before| && before[i].path == q;
            assert entries[i] == before[i];
          }
        }
        todo := todo - {p};
      }
    }

    /** `has_staged_changes`: scan the reported statuses for an index flag. */
    method HasStagedChanges() returns (staged: bool)
      modifies log
      ensures staged == StatusShowsStaged(State())
      ensures staged == HasStaged(State())
      ensures State() == old(State()) && log.steps == old(log.steps) + [StatusQuery]
    {
      log.steps := log.steps + [StatusQuery];
      var entries := Statuses();
      staged := ScanForStaged(entries);
      if staged {
        var i :| 0 <= i < |entries| && IsStaged(entries[i].status);
        assert IsStaged(ReportedStatus(State(), entries[i].path));
      }
      StatusShowsStagedIffIndexDiffers(State());
    }

    /** `stage_all_changes`: bring every change of the working directory into the index. */
    method StageAllChanges()
      modifies this, log
      ensures State() == StageAll(old(State()))
      ensures log.steps == old(log.steps) + [StageAllCall]
    {
      log.steps := log.steps + [StageAllCall];
      index := map p | p in workdir && (p in index || p !in ignored) :: workdir[p];
    }

    /** `get_staged_diff`: render the lines of the HEAD-to-index diff. */
    method GetStagedDiff(diffOf: (Tree, Tree) -> seq<DiffLine>) returns (r: Result<string, GitError>)
      modifies log
      ensures r == DiffText(State(), diffOf)
      ensures State() == old(State()) && log.steps == old(log.steps) + [DiffQuery]
    {
      log.steps := log.steps + [DiffQuery];
      if |history| == 0 {
        return Err(UnbornHead);
      }
      var text := RenderPatch(diffOf(HeadTree(State()), index));
      return Ok(text);
    }

    /** `commit`: record the index as a new commit on top of HEAD. */
    method Commit(message: string) returns (r: Outcome<GitError>)
      modifies this, log
      ensures var c := CommitState(old(State()), message);
        if c.Ok? then r == Pass && State() == c.value else r == Fail(c.error) && State() == old(State())
      ensures WellFormed(old(history)) ==> WellFormed(history)
      ensures log.steps == old(log.steps) + [CommitCall(message)]
    {
      log.steps := log.steps + [CommitCall(message)];
      if |history| > 0 && WellFormed(history) {
        CommitKeepsWellFormed(State(), message);
      }
      var signature := GetSignature(config);
      if |history| == 0 {
        return Fail(UnbornHead);
      }
      var parent := |history| - 1;
      history := history + [CommitObject(index, [parent], signature, signature, message)];
      return Pass;
    }
  }
}
