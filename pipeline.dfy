/**
 * The run of the command (src/main.rs): load the configuration, open the
 * repository, make sure something is staged (staging everything when
 * allowed), read the staged diff, have a message generated and commit it
 * unless this is a dry run. Every step that fails ends the run.
 *
 * `Expected` says what a run does as a value; `Run` performs it on a
 * `Repository` and an `OpenRouterClient`, which record the calls made in a
 * shared log, and is proved to agree with it: same outcome, same final
 * state, and the log grows by exactly the calls `Expected` lists. The lemmas
 * state the guarantees of the pipeline about `Expected`.
 */
module Pipeline {
  import opened Results
  import opened Text
  import Config
  import opened GitPatch
  import opened Git
  import opened Calls
  import opened OpenRouter

  /** The command-line flags; `verbose` only selects the log level. */
  datatype Args = Args(noAutoStage: bool, dryRun: bool, verbose: bool)

  /** Why a run failed; each is one `?` or `bail!` exit of `main`. */
  datatype Failure =
    | ConfigFailure(cause: Config.ConfigError)
    | NotARepository
    | NothingStaged
    | NothingAfterStaging
    | DiffFailure(diffError: GitError)
    | EmptyDiff
    | GenerationFailure(detail: string)
    | CommitFailure(commitError: GitError)

  /** How a run ends: committed, generated only (dry run), or failed. */
  datatype RunOutcome = Committed(message: string) | Previewed(message: string) | Failed(failure: Failure)

  /** A run as a value: its outcome, the calls it made and the repository state it leaves. */
  datatype RunRecord = RunRecord(outcome: RunOutcome, trace: seq<Step>, repo: Option<RepoState>)

  /** git2's diff of two trees, as the lines it prints. */
  type Differ = (Tree, Tree) -> seq<DiffLine>

  /** The index after the staging phase: as the user left it, or with everything staged. */
  function Staged(s: RepoState): RepoState {
    if HasStaged(s) then s else StageAll(s)
  }

  /** The repository calls of the staging phase. */
  function StagingTrace(s: RepoState): seq<Step> {
    if HasStaged(s) then [StatusQuery] else [StatusQuery, StageAllCall, StatusQuery]
  }

  /** What a run does, given the API-key variable, the repository found (if any) and the two services. */
  function Expected(args: Args, envKey: Option<string>, start: Option<RepoState>, diffOf: Differ, generate: Generator): RunRecord {
    match Config.Load(envKey)
    case Err(e) => RunRecord(Failed(ConfigFailure(e)), [ConfigLoad], start)
    case Ok(config) =>
      if start.None? then RunRecord(Failed(NotARepository), [ConfigLoad, RepoOpen], None)
      else
        var rest := WithRepository(args, config.openrouterApiKey, start.value, diffOf, generate);
        RunRecord(rest.outcome, [ConfigLoad, RepoOpen] + rest.trace, rest.repo)
  }

  /**
   * The run once the configuration is loaded and the repository open: the
   * staging phase, then the rest. Its trace holds only the calls made from
   * the first status query on.
   */
  function WithRepository(args: Args, apiKey: string, start: RepoState, diffOf: Differ, generate: Generator): RunRecord {
    if !HasStaged(start) && args.noAutoStage then
      RunRecord(Failed(NothingStaged), [StatusQuery], Some(start))
    else
      var s := Staged(start);
      if !HasStaged(s) then RunRecord(Failed(NothingAfterStaging), StagingTrace(start), Some(s))
      else
        var rest := AfterStaging(args, apiKey, s, diffOf, generate);
        RunRecord(rest.outcome, StagingTrace(start) + rest.trace, rest.repo)
  }

  /** The run from the diff on, once something is staged; its trace holds only the calls made from there. */
  function AfterStaging(args: Args, apiKey: string, s: RepoState, diffOf: Differ, generate: Generator): RunRecord {
    match DiffText(s, diffOf)
    case Err(e) => RunRecord(Failed(DiffFailure(e)), [DiffQuery], Some(s))
    case Ok(diff) =>
      if IsBlank(diff) then RunRecord(Failed(EmptyDiff), [DiffQuery], Some(s))
      else
        var rest := Delivered(args, apiKey, s, diff, generate);
        RunRecord(rest.outcome, [DiffQuery] + rest.trace, rest.repo)
  }

  /**
   * The run once a non-blank diff was read: generate a message from it, then
   * commit it unless in a dry run. Its trace starts at the generation call.
   */
  function Delivered(args: Args, apiKey: string, s: RepoState, diff: string, generate: Generator): RunRecord {
    match generate(apiKey, diff)
    case Err(detail) => RunRecord(Failed(GenerationFailure(detail)), [GenerateCall(diff)], Some(s))
    case Ok(message) =>
      if args.dryRun then RunRecord(Previewed(message), [GenerateCall(diff)], Some(s))
      else
        match CommitState(s, message)
        case Err(e) => RunRecord(Failed(CommitFailure(e)), [GenerateCall(diff), CommitCall(message)], Some(s))
        case Ok(t) => RunRecord(Committed(message), [GenerateCall(diff), CommitCall(message)], Some(t))
  }

  /** The objects a run may change: the repository, when one was found. */
  function Found(found: Option<Repository>): set<Repository> {
    if found.Some? then {found.value} else {}
  }

  /** The state of the repository found, if any. */
  function StateOf(found: Option<Repository>): Option<RepoState>
    reads Found(found)
  {
    if found.Some? then Some(found.value.State()) else None
  }

  /**
   * `main` from line 44 on: each step in order, leaving at the first failure.
   * The repository found and the message client record their own calls in
   * `log`; loading the configuration and opening the repository are recorded
   * here, where they happen.
   */
  method Run(args: Args, envKey: Option<string>, found: Option<Repository>, diffOf: Differ, generate: Generator, ghost log: Log)
    returns (outcome: RunOutcome)
    requires found.Some? ==> found.value.log == log
    modifies Found(found), log
    ensures var r := Expected(args, envKey, old(StateOf(found)), diffOf, generate);
      outcome == r.outcome && log.steps == old(log.steps) + r.trace && StateOf(found) == r.repo
  {
    ghost var before := log.steps;
    ghost var start := StateOf(found);
    log.steps := log.steps + [ConfigLoad];
    var config := Config.Load(envKey);
    if config.Err? {
      assert Expected(args, envKey, start, diffOf, generate) == RunRecord(Failed(ConfigFailure(config.error)), [ConfigLoad], start);
      return Failed(ConfigFailure(config.error));
    }
    log.steps := log.steps + [RepoOpen];
    if found.None? {
      return Failed(NotARepository);
    }
    var repo := found.value;
    ghost var rest := WithRepository(args, config.value.openrouterApiKey, repo.State(), diffOf, generate);
    assert Expected(args, envKey, start, diffOf, generate) == RunRecord(rest.outcome, [ConfigLoad, RepoOpen] + rest.trace, rest.repo);
    assert log.steps == before + [ConfigLoad, RepoOpen];
    outcome := Proceed(args, config.value.openrouterApiKey, repo, diffOf, generate);
    AppendTwice(before, [ConfigLoad, RepoOpen], rest.trace);
  }

  /** `main` from line 51 on: stage everything if nothing is staged and that is allowed, then finish. */
  method Proceed(args: Args, apiKey: string, repo: Repository, diffOf: Differ, generate: Generator)
    returns (outcome: RunOutcome)
    modifies repo, repo.log
    ensures var r := WithRepository(args, apiKey, old(repo.State()), diffOf, generate);
      outcome == r.outcome && repo.log.steps == old(repo.log.steps) + r.trace && Some(repo.State()) == r.repo
  {
    ghost var start := repo.State();
    ghost var before := repo.log.steps;
    var staged := repo.HasStagedChanges();
    if !staged {
      if args.noAutoStage {
        return Failed(NothingStaged);
      }
      repo.StageAllChanges();
      staged := repo.HasStagedChanges();
      if !staged {
        return Failed(NothingAfterStaging);
      }
    }
    ghost var staging := repo.log.steps;
    assert repo.State() == Staged(start) && staging == before + StagingTrace(start);
    ghost var rest := AfterStaging(args, apiKey, Staged(start), diffOf, generate);
    outcome := Finish(args, apiKey, repo, diffOf, generate);
    AppendTwice(before, StagingTrace(start), rest.trace);
  }

  /** Appending two runs of calls one after the other appends their concatenation. */
  lemma AppendTwice(steps: seq<Step>, a: seq<Step>, b: seq<Step>)
    ensures (steps + a) + b == steps + (a + b)
  {
  }

  /** `main` from line 69 on, once something is staged: diff, generate, then commit unless in a dry run. */
  method Finish(args: Args, apiKey: string, repo: Repository, diffOf: Differ, generate: Generator)
    returns (outcome: RunOutcome)
    modifies repo, repo.log
    ensures var r := AfterStaging(args, apiKey, old(repo.State()), diffOf, generate);
      outcome == r.outcome && repo.log.steps == old(repo.log.steps) + r.trace && Some(repo.State()) == r.repo
  {
    ghost var s := repo.State();
    ghost var before := repo.log.steps;
    var diff := repo.GetStagedDiff(diffOf);
    if diff.Err? {
      return Failed(DiffFailure(diff.error));
    }
    TrimEmptyIffBlank(diff.value);
    if Trim(diff.value) == [] {
      return Failed(EmptyDiff);
    }
    ghost var rest := Delivered(args, apiKey, s, diff.value, generate);
    outcome := Deliver(args, apiKey, repo, diff.value, generate);
    AppendTwice(before, [DiffQuery], rest.trace);
  }

  /**
   * `main` from line 77 on: have a client bound to the key generate a message
   * from a diff HEAD's tree was compared with, then commit unless in a dry run.
   */
  method Deliver(args: Args, apiKey: string, repo: Repository, diff: string, generate: Generator)
    returns (outcome: RunOutcome)
    requires |repo.history| > 0
    modifies repo, repo.log
    ensures var r := Delivered(args, apiKey, old(repo.State()), diff, generate);
      outcome == r.outcome && repo.log.steps == old(repo.log.steps) + r.trace && Some(repo.State()) == r.repo
  {
    ghost var s := repo.State();
    var client := new OpenRouterClient(apiKey, generate, repo.log);
    var generated := client.GenerateCommitMessage(diff);
    if generated.Err? {
      return Failed(GenerationFailure(generated.error));
    }
    var message := generated.value;
    if args.dryRun {
      return Previewed(message);
    }
    CommitEffect(s, message);
    var committed := repo.Commit(message);
    if committed.Fail? {
      // HEAD is born, so the commit has a parent and cannot fail
      assert false;
    }
    return Committed(message);
  }

  // ------------------------------------------------------------ guarantees

  /** The run did not call `stage_all_changes`. */
  predicate NoStaging(trace: seq<Step>) {
    forall i :: 0 <= i < |trace| ==> trace[i] != StageAllCall
  }

  /** The run made no generation call. */
  predicate NoGeneration(trace: seq<Step>) {
    forall i :: 0 <= i < |trace| ==> !trace[i].GenerateCall?
  }

  /** The run made no commit call. */
  predicate NoCommit(trace: seq<Step>) {
    forall i :: 0 <= i < |trace| ==> !trace[i].CommitCall?
  }

  /**
   * The last phase: it reads the diff; a failed or blank diff ends it; else
   * it calls the generation service once on that diff; a failed generation
   * or a dry run ends it; else it commits the generated message, which
   * succeeds. The repository changes only by that commit.
   */
  lemma AfterStagingShape(args: Args, apiKey: string, s: RepoState, diffOf: Differ, generate: Generator)
    ensures var r := AfterStaging(args, apiKey, s, diffOf, generate);
      1 <= |r.trace| <= 3 && r.trace[0] == DiffQuery && r.repo.Some? &&
      (r.outcome == Failed(EmptyDiff) <==> DiffText(s, diffOf).Ok? && IsBlank(DiffText(s, diffOf).value)) &&
      (|r.trace| == 1 ==> r.outcome.Failed? && r.repo == Some(s))
    ensures var r := AfterStaging(args, apiKey, s, diffOf, generate);
      var d := DiffText(s, diffOf);
      |r.trace| >= 2 ==>
        d.Ok? && !IsBlank(d.value) && r.trace[1] == GenerateCall(d.value) &&
        (|r.trace| == 2 ==>
          (r.repo == Some(s) &&
           (generate(apiKey, d.value).Err? ==> r.outcome == Failed(GenerationFailure(generate(apiKey, d.value).error))) &&
           (generate(apiKey, d.value).Ok? ==> args.dryRun && r.outcome == Previewed(generate(apiKey, d.value).value)))) &&
        (|r.trace| == 3 ==>
          (!args.dryRun && generate(apiKey, d.value).Ok? &&
           r.outcome == Committed(generate(apiKey, d.value).value) &&
           r.trace[2] == CommitCall(r.outcome.message) &&
           CommitState(s, r.outcome.message).Ok? && r.repo == Some(CommitState(s, r.outcome.message).value)))
  {
    match DiffText(s, diffOf)
    case Err(_) =>
    case Ok(diff) =>
      if !IsBlank(diff) {
        match generate(apiKey, diff)
        case Err(_) =>
        case Ok(message) =>
          if !args.dryRun {
            assert CommitState(s, message).Ok?;
          }
      }
  }

  /**
   * Once something is staged, the run is the staging calls followed by the
   * last phase: its outcome and final state are the last phase's.
   */
  lemma Composed(args: Args, apiKey: string, start: RepoState, diffOf: Differ, generate: Generator)
    requires !(!HasStaged(start) && args.noAutoStage) && HasStaged(Staged(start))
    ensures var r := WithRepository(args, apiKey, start, diffOf, generate);
      var rest := AfterStaging(args, apiKey, Staged(start), diffOf, generate);
      var prefix := StagingTrace(start);
      r.outcome == rest.outcome && r.repo == rest.repo && |r.trace| == |prefix| + |rest.trace| &&
      (forall i :: 0 <= i < |prefix| ==> r.trace[i] == prefix[i]) &&
      (forall i :: 0 <= i < |rest.trace| ==> r.trace[|prefix| + i] == rest.trace[i])
  {
  }

  /**
   * The configuration is loaded first; when it fails the run stops there,
   * before the repository is opened, so nothing is read, staged, generated
   * or committed. When it loads and a repository is found, the run is the
   * run on that repository with the key exactly as loaded.
   */
  lemma ConfigurationFirst(args: Args, envKey: Option<string>, start: Option<RepoState>, diffOf: Differ, generate: Generator)
    ensures var r := Expected(args, envKey, start, diffOf, generate);
      |r.trace| >= 1 && r.trace[0] == ConfigLoad &&
      (Config.Load(envKey).Err? ==>
        r == RunRecord(Failed(ConfigFailure(Config.Load(envKey).error)), [ConfigLoad], start)) &&
      (|r.trace| > 1 ==> Config.Load(envKey).Ok? && r.trace[1] == RepoOpen) &&
      (|r.trace| > 2 ==> start.Some?) &&
      (Config.Load(envKey).Ok? && start.Some? ==>
        var w := WithRepository(args, envKey.value, start.value, diffOf, generate);
        r == RunRecord(w.outcome, [ConfigLoad, RepoOpen] + w.trace, w.repo))
  {
  }

  /** On a repository, the run starts with the configuration, the opening and the status query. */
  lemma StagingPrefix(args: Args, envKey: Option<string>, start: Option<RepoState>, diffOf: Differ, generate: Generator)
    requires Config.Load(envKey).Ok? && start.Some?
    ensures var r := Expected(args, envKey, start, diffOf, generate);
      |r.trace| >= 3 && r.trace[0] == ConfigLoad && r.trace[1] == RepoOpen && r.trace[2] == StatusQuery
  {
  }

  /**
   * Changes the user staged are kept: `stage_all_changes` is not called, the
   * index is left as it was, and a commit records exactly that index.
   */
  lemma StagedChangesKept(args: Args, apiKey: string, start: RepoState, diffOf: Differ, generate: Generator)
    requires HasStaged(start)
    ensures var r := WithRepository(args, apiKey, start, diffOf, generate);
      NoStaging(r.trace) && r.repo.Some? && r.repo.value.index == start.index &&
      (r.outcome.Committed? ==> HeadTree(r.repo.value) == start.index)
  {
    AfterStagingShape(args, apiKey, start, diffOf, generate);
    Composed(args, apiKey, start, diffOf, generate);
  }

  /** With nothing staged and auto-staging disabled the run fails at once, changing nothing and calling no service. */
  lemma NoAutoStageRefuses(args: Args, apiKey: string, start: RepoState, diffOf: Differ, generate: Generator)
    requires !HasStaged(start) && args.noAutoStage
    ensures var r := WithRepository(args, apiKey, start, diffOf, generate);
      r == RunRecord(Failed(NothingStaged), [StatusQuery], Some(start)) &&
      NoStaging(r.trace) && NoGeneration(r.trace) && NoCommit(r.trace)
  {
  }

  /**
   * With nothing staged and auto-staging allowed, `stage_all_changes` runs
   * exactly once, right after the first status query and before the second;
   * when the re-check still finds nothing staged, the run fails without
   * generating or committing.
   */
  lemma AutoStageOnce(args: Args, apiKey: string, start: RepoState, diffOf: Differ, generate: Generator)
    requires !HasStaged(start) && !args.noAutoStage
    ensures var r := WithRepository(args, apiKey, start, diffOf, generate);
      |r.trace| >= 3 && r.trace[0] == StatusQuery && r.trace[1] == StageAllCall && r.trace[2] == StatusQuery &&
      (forall i :: 0 <= i < |r.trace| && i != 1 ==> r.trace[i] != StageAllCall) &&
      r.repo.Some? && r.repo.value.index == StageAll(start).index &&
      (!HasStaged(StageAll(start)) ==>
        r.outcome == Failed(NothingAfterStaging) && NoGeneration(r.trace) && NoCommit(r.trace) &&
        r.repo == Some(StageAll(start)))
  {
    if HasStaged(StageAll(start)) {
      AfterStagingShape(args, apiKey, StageAll(start), diffOf, generate);
      Composed(args, apiKey, start, diffOf, generate);
    }
  }

  /**
   * The generation service is called at most once, and only on the staged
   * diff after it was found not blank: a blank diff ends the run before
   * generation.
   */
  lemma GenerationOnlyOnNonBlankDiff(args: Args, apiKey: string, start: RepoState, diffOf: Differ, generate: Generator)
    ensures var r := WithRepository(args, apiKey, start, diffOf, generate);
      (r.outcome == Failed(EmptyDiff) ==> NoGeneration(r.trace) && NoCommit(r.trace)) &&
      forall i :: 0 <= i < |r.trace| && r.trace[i].GenerateCall? ==>
        DiffText(Staged(start), diffOf) == Ok(r.trace[i].diff) && !IsBlank(r.trace[i].diff) &&
        forall j :: 0 <= j < |r.trace| && j != i ==> !r.trace[j].GenerateCall?
  {
    if !(!HasStaged(start) && args.noAutoStage) && HasStaged(Staged(start)) {
      var r := WithRepository(args, apiKey, start, diffOf, generate);
      var rest := AfterStaging(args, apiKey, Staged(start), diffOf, generate);
      var k := |StagingTrace(start)|;
      AfterStagingShape(args, apiKey, Staged(start), diffOf, generate);
      GenerationSecondInPhase(args, apiKey, Staged(start), diffOf, generate);
      Composed(args, apiKey, start, diffOf, generate);
      forall i | 0 <= i < |r.trace| && r.trace[i].GenerateCall?
        ensures i == k + 1 && DiffText(Staged(start), diffOf) == Ok(r.trace[i].diff) && !IsBlank(r.trace[i].diff)
      {
        assert r.trace[i] == rest.trace[i - k];
      }
    }
  }

  /** In the last phase the only generation call is the second step, made on the non-blank diff. */
  lemma GenerationSecondInPhase(args: Args, apiKey: string, s: RepoState, diffOf: Differ, generate: Generator)
    ensures var r := AfterStaging(args, apiKey, s, diffOf, generate);
      forall i :: 0 <= i < |r.trace| && r.trace[i].GenerateCall? ==>
        i == 1 && DiffText(s, diffOf) == Ok(r.trace[i].diff) && !IsBlank(r.trace[i].diff)
  {
    AfterStagingShape(args, apiKey, s, diffOf, generate);
  }

  /**
   * A failed generation ends the run before the commit step: HEAD and the
   * commit history stay as they were.
   */
  lemma GenerationFailureNeverCommits(args: Args, apiKey: string, start: RepoState, diffOf: Differ, generate: Generator)
    ensures var r := WithRepository(args, apiKey, start, diffOf, generate);
      r.outcome.Failed? && r.outcome.failure.GenerationFailure? ==>
        NoCommit(r.trace) && r.repo.Some? && r.repo.value.history == start.history
  {
    if !(!HasStaged(start) && args.noAutoStage) && HasStaged(Staged(start)) {
      var s := Staged(start);
      var rest := AfterStaging(args, apiKey, s, diffOf, generate);
      var prefix := StagingTrace(start);
      assert WithRepository(args, apiKey, start, diffOf, generate) == RunRecord(rest.outcome, prefix + rest.trace, rest.repo);
      OnlyCommitChangesHistory(args, apiKey, s, diffOf, generate);
      NoCommitConcat(prefix, rest.trace);
    }
  }

  /** The last phase makes a commit call only when it commits, and otherwise leaves the repository as it was. */
  lemma OnlyCommitChangesHistory(args: Args, apiKey: string, s: RepoState, diffOf: Differ, generate: Generator)
    ensures var r := AfterStaging(args, apiKey, s, diffOf, generate);
      !r.outcome.Committed? ==> NoCommit(r.trace) && r.repo == Some(s)
  {
  }

  /** No commit call in either part means none in the whole. */
  lemma NoCommitConcat(a: seq<Step>, b: seq<Step>)
    ensures NoCommit(a + b) <==> NoCommit(a) && NoCommit(b)
  {
    assert forall i :: 0 <= i < |a| ==> (a + b)[i] == a[i];
    assert forall i :: 0 <= i < |b| ==> (a + b)[|a| + i] == b[i];
  }

  /**
   * A dry run never commits: HEAD and the history are unchanged; once the
   * generation service is called the repository stays as staging left it,
   * and a generated message makes the run succeed with that message.
   */
  lemma DryRunNeverCommits(args: Args, apiKey: string, start: RepoState, diffOf: Differ, generate: Generator)
    requires args.dryRun
    ensures var r := WithRepository(args, apiKey, start, diffOf, generate);
      NoCommit(r.trace) && !r.outcome.Committed? && r.repo.Some? && r.repo.value.history == start.history &&
      forall i :: 0 <= i < |r.trace| && r.trace[i].GenerateCall? ==>
        r.repo == Some(Staged(start)) &&
        (generate(apiKey, r.trace[i].diff).Ok? ==> r.outcome == Previewed(generate(apiKey, r.trace[i].diff).value))
  {
    if !(!HasStaged(start) && args.noAutoStage) && HasStaged(Staged(start)) {
      var s := Staged(start);
      var rest := AfterStaging(args, apiKey, s, diffOf, generate);
      var prefix := StagingTrace(start);
      assert WithRepository(args, apiKey, start, diffOf, generate) == RunRecord(rest.outcome, prefix + rest.trace, rest.repo);
      AfterStagingShape(args, apiKey, s, diffOf, generate);
      assert !rest.outcome.Committed?;
      OnlyCommitChangesHistory(args, apiKey, s, diffOf, generate);
      NoCommitConcat(prefix, rest.trace);
      forall i | 0 <= i < |prefix + rest.trace| && (prefix + rest.trace)[i].GenerateCall?
        ensures generate(apiKey, (prefix + rest.trace)[i].diff).Ok? ==>
          rest.outcome == Previewed(generate(apiKey, (prefix + rest.trace)[i].diff).value)
      {
        assert (prefix + rest.trace)[i] == rest.trace[i - |prefix|];
      }
    }
  }

  /**
   * A commit happens only at the end of a successful run that is not a dry
   * run: exactly one commit call, carrying the generated message unchanged,
   * which adds one commit of the staged index on top of HEAD. Every other
   * run leaves the history as it was; no run changes the working directory.
   */
  lemma CommitCarriesGeneratedMessage(args: Args, apiKey: string, start: RepoState, diffOf: Differ, generate: Generator)
    ensures var r := WithRepository(args, apiKey, start, diffOf, generate);
      r.repo.Some? && r.repo.value.workdir == start.workdir &&
      (!r.outcome.Committed? ==> r.repo.value.history == start.history) &&
      (r.outcome.Committed? ==>
        !args.dryRun && |r.trace| >= 2 &&
        r.trace[|r.trace| - 1] == CommitCall(r.outcome.message) &&
        (forall i :: 0 <= i < |r.trace| - 1 ==> !r.trace[i].CommitCall?) &&
        r.trace[|r.trace| - 2].GenerateCall? &&
        generate(apiKey, r.trace[|r.trace| - 2].diff) == Ok(r.outcome.message) &&
        r.repo == Some(CommitState(Staged(start), r.outcome.message).value))
  {
    if !(!HasStaged(start) && args.noAutoStage) && HasStaged(Staged(start)) {
      AfterStagingShape(args, apiKey, Staged(start), diffOf, generate);
      Composed(args, apiKey, start, diffOf, generate);
    }
  }
}
