# distill, modelled in Dafny

distill is a command-line tool that turns the staged changes of a git
repository into a commit message written by a language model (through
OpenRouter) and commits with that message. This project models its core:

- **the run of `main`** (`Pipeline`): load the configuration, open the
  repository, check for staged changes, stage everything when nothing is
  staged and `--no-auto-stage` is not given, re-check, read the staged diff,
  refuse a diff that is empty after trimming, generate a message, then commit
  it unless `--dry-run` is given. Every failing step ends the run.
  - `Expected` states what a run does as a value: its outcome, the calls it
    made and the repository it leaves.
  - `Run` performs the run on a `Repository` object and an `OpenRouterClient`
    and is proved to agree with `Expected`. It is split into `Proceed`,
    `Finish` and `Deliver`, one method per phase.
  - The calls are recorded where they are made. Each repository operation and
    each generation request appends its own step to a shared ghost log
    (`Calls.Log`). `Run` itself records loading the configuration and opening
    the repository, since neither is an operation on those objects. `Run`
    promises that the log grows by exactly the calls `Expected` lists, in
    that order.
  - The lemmas state the run's guarantees about `Expected`: ordering, staging
    at most once, no generation on a blank diff, no commit after a failure or
    in a dry run, and the generated message committed unchanged.
- **the git adapter** (`GitStatus`, `GitPatch`, `Git`):
  - `has_staged_changes` scans the status list for an index flag;
  - `stage_all_changes` stages the working directory;
  - `get_staged_diff` renders the HEAD-to-index diff line by line through the
    print callback;
  - `get_signature` falls back to a default identity;
  - `commit` adds one single-parent commit on top of HEAD.

  The repository is an abstract value (`RepoState`): the commit history, the
  index, the working directory, the ignored paths and the configuration. A
  `Repository` class holds these as fields that its methods update.
- **configuration** (`Config`): `Config::load` validates the
  `OPENROUTER_API_KEY` value. It rejects a missing value and a blank one, and
  keeps any other value verbatim.
- **text** (`Text`): Rust's `char::is_whitespace` (the 25 Unicode White_Space
  characters) and `str::trim`, which the key check and the empty-diff check
  use.

The model treats the following as parameters:
- the environment value;
- the repository found (or none);
- git2's tree-to-tree diff (`diffOf`, from two trees to the lines it prints);
- the message generator (`generate`, from the API key and the diff to a
  message or an error).

What main.rs and git.rs do, as the model states it:
- main.rs and git.rs do no truncation or normalisation. The diff read is
  passed whole to `generate_commit_message` (src/main.rs:81), and its answer
  is committed unchanged (src/main.rs:96). Whatever src/openrouter.rs does to
  the diff or the message is part of `generate`.
- There is no "no changes" success outcome. Nothing staged, nothing staged
  after auto-staging, and a blank diff are all errors (`Failed`).
- There is no missing-identity failure at commit time. When the git
  configuration lacks `user.name` or `user.email`, or cannot be read, the
  commit uses the default identity ("Distill", "distill@example.com")
  (src/git.rs:161-165).

A behaviour of the code that the model keeps: `get_staged_diff` asks for HEAD
first. On a repository without commits (an unborn HEAD) the run therefore
fails at the diff step, and the tool cannot make a first commit.
`GenerationOnlyOnNonBlankDiff`, `AfterStagingShape` and `Pipeline.Finish` show
this. Because that step already rejects an unborn HEAD, the commit step can
never fail in the model.

## Model

| member | source | states |
|---|---|---|
| Text.TrimStart | src/config.rs:16 | the result is a suffix of the input, everything cut before it is whitespace, and it does not start with whitespace |
| Text.TrimEnd | src/config.rs:16 | the result is a prefix of the input, everything cut after it is whitespace, and it does not end with whitespace |
| Text.IsWhitespace | src/config.rs:16 | `char::is_whitespace`: membership in the 25 characters with the Unicode White_Space property |
| Text.Trim | src/config.rs:16 | the result is no longer than the input; a non-empty result starts and ends with a non-whitespace character |
| Text.TrimCutsOnlyWhitespace | src/config.rs:16 | the trimmed text is a slice of the input with only whitespace on both sides |
| Text.TrimEmptyIffBlank | src/main.rs:73 | `s.trim().is_empty()` holds exactly when every character of `s` is whitespace |
| Text.NonWhitespaceSurvivesTrim | src/main.rs:73 | a text holding one non-whitespace character never trims to empty |
| Config.Load | src/config.rs:12-23 | a missing value gives `KeyNotSet`, and only then; an empty or whitespace-only value gives `KeyBlank`, and only then; otherwise the key is the value read, unchanged, and it is not blank |
| Config.LoadKeepsWhitespace | src/config.rs:20-22 | a value with leading whitespace is accepted as is: the key differs from its trimmed form |
| GitStatus.IsStaged | src/git.rs:31-37 | a status counts as staged when it shares a flag with INDEX_NEW, INDEX_MODIFIED, INDEX_DELETED, INDEX_RENAMED and INDEX_TYPECHANGE (`intersects`) |
| GitStatus.ScanForStaged | src/git.rs:29-42 | the loop answers true exactly when some entry intersects the five index flags, with a witness; on false no entry has an index flag |
| GitStatus.StagedIffIndexFlag | src/git.rs:31-37 | an entry counts as staged exactly when it carries INDEX_NEW, INDEX_MODIFIED, INDEX_DELETED, INDEX_RENAMED or INDEX_TYPECHANGE |
| GitStatus.WorktreeOnlyNotStaged | src/git.rs:31-37 | entries with only worktree, ignored or conflict flags never count as staged |
| GitPatch.Contribution | src/git.rs:84-107 | the callback's text per origin: `+`, `-` and space give the origin character followed by the content, or the origin alone when the content does not decode; `F` gives `"--- "` and the content, `H` gives `"@@ "` and the content, each nothing at all when the content does not decode; every other origin gives nothing |
| GitPatch.Print | src/git.rs:83-108 | `diff.print`: the callback's text for every line, appended in callback order; the callback always answers `true`, so no line is skipped |
| GitPatch.Render | src/git.rs:81-109 | the patch text is `diff.print` with the callback above |
| GitPatch.RenderPatch | src/git.rs:81-109 | the string built with `push`/`push_str` in the callback is the rendering of all lines, in callback order |
| GitPatch.PrintConcat | src/git.rs:82-109 | printing two runs of lines gives the concatenation of their texts, whatever the callback |
| GitPatch.PrintAt | src/git.rs:82-109 | every line's callback text sits between the text of the lines before it and the text of the lines after it: no line is skipped |
| GitPatch.PrintBlank | src/git.rs:82-109 | the printed text is blank exactly when every line's callback text is blank |
| GitPatch.HeaderLineKeepsPrefix | src/git.rs:92-104 | a decodable `F` line writes `"--- "` and its content at its position, a decodable `H` line `"@@ "` and its content |
| GitPatch.SilentLinesIgnored | src/git.rs:106 | lines whose origin is not `+`, `-`, space, `F` or `H` leave no trace: rendering only the handled lines gives the same text |
| GitPatch.ChangeLineKeepsOrigin | src/git.rs:85-91 | a `+`, `-` or space line writes its origin character at its position, followed by its content when it decodes, and only the origin when it does not |
| GitPatch.UndecodableHeaderSilent | src/git.rs:92-104 | an `F` or `H` line whose content does not decode writes nothing, not even its prefix |
| GitPatch.ChangedLineNotBlank | src/git.rs:85-91 | a diff holding a `+` or `-` line is never empty after trimming |
| Git.IndexStatus | src/git.rs:26 | the index flags `statuses` reports for a path: `INDEX_NEW` when only the index has it, `INDEX_DELETED` when only HEAD has it, `INDEX_MODIFIED` when both have it with different content, none otherwise |
| Git.WorktreeStatus | src/git.rs:26 | the worktree flags for a path: `WT_DELETED` when the index has it and the working directory does not, `WT_MODIFIED` when their contents differ, `WT_NEW` (or `IGNORED` when an ignore rule matches) when only the working directory has it, none otherwise |
| Git.ReportedStatus | src/git.rs:22-26 | the status `statuses` reports with `include_untracked(false)` and `include_ignored(false)`: the index and worktree flags without `WT_NEW` and `IGNORED` |
| Git.HasStaged | src/git.rs:21-43 | something is staged: the index differs from HEAD's tree (the empty tree while HEAD is unborn); `StatusShowsStagedIffIndexDiffers` proves the scan answers exactly this |
| Git.StagedPathIffEntryDiffers | src/git.rs:29-37 | a path's reported status has an index flag exactly when the index and HEAD disagree about that path |
| Git.StatusShowsStagedIffIndexDiffers | src/git.rs:21-43 | the status scan finds a staged entry exactly when the index differs from the HEAD tree |
| Git.UntrackedNeverReported | src/git.rs:22-24 | a path neither HEAD nor the index tracks is never reported, so untracked and ignored files never count |
| Git.StageAll | src/git.rs:46-60 | staging everything: the index becomes the working-directory files that are tracked or not ignored, with their working-directory content; history, working directory, ignore rules and configuration stay |
| Git.StageAllContents | src/git.rs:46-60 | after staging, the index holds exactly the working-directory files that are tracked or not ignored, with their content, and nothing else changes |
| Git.StageAllLeavesNothingUnstaged | src/git.rs:46-60 | after staging, no path is reported new, modified or deleted in the working directory |
| Git.StageAllIdempotent | src/git.rs:46-60 | staging everything twice is the same as staging once |
| Git.StageAllFindsWork | src/main.rs:60-66 | with nothing staged, auto-staging yields staged changes exactly when some path is new and not ignored, modified, or deleted in the working directory |
| Git.DiffText | src/git.rs:63-113 | the staged diff: the unborn-HEAD error when there is no commit, otherwise the rendering of the lines git2 prints for HEAD's tree against the index's tree |
| Git.GetSignature | src/git.rs:149-166 | the configured name and email when both are set; otherwise exactly ("Distill", "distill@example.com") |
| Git.PartialIdentityFallsBack | src/git.rs:151-165 | a name without an email, or the reverse, gives the default signature, not a mix |
| Git.CommitState | src/git.rs:116-146 | the unborn-HEAD error when there is no commit; otherwise the history gains one commit of the index's tree, whose only parent is the HEAD commit, authored and committed by `GetSignature` of the configuration, with the message as given |
| Git.CommitEffect | src/git.rs:116-146 | commit fails exactly while HEAD is unborn; otherwise it appends one commit of the index tree whose only parent is the old HEAD, with author equal to committer equal to the signature and the given message, and changes nothing else |
| Git.CommitKeepsWellFormed | src/git.rs:135-142 | every parent of every commit was made before it, and a commit keeps this so (also promised by `Git.Repository.Commit`) |
| Git.CommitClearsStaged | src/git.rs:135-142 | right after a commit the status scan finds nothing staged |
| Git.Repository.constructor | src/git.rs:13-18 | `GitManager::new` on the repository found: the object holds that repository's state and records its calls in the given log |
| Git.Repository.Statuses | src/git.rs:22-27 | one entry per path with a non-empty reported status: every such path has an entry, no path has two, and each entry carries that path's reported status |
| Git.Repository.HasStagedChanges | src/git.rs:21-43 | the answer is the status-scan predicate, and equals "the index differs from the HEAD tree"; the repository is unchanged and one status query is logged |
| Git.Repository.StageAllChanges | src/git.rs:46-60 | the new state is the old state with everything staged; one staging call is logged |
| Git.Repository.GetStagedDiff | src/git.rs:63-113 | an unborn HEAD is an error; otherwise the rendering of the HEAD-to-index diff lines; the repository is unchanged and one diff query is logged |
| Git.Repository.Commit | src/git.rs:116-146 | the new state is the commit's effect on the old state, or the state is unchanged and the error is returned; a well-formed history stays well formed; one commit call carrying the message is logged |
| OpenRouter.OpenRouterClient.constructor | src/main.rs:78 | `OpenRouterClient::new`: a client bound to the API key as loaded, recording its requests in the given log |
| OpenRouter.OpenRouterClient.GenerateCommitMessage | src/main.rs:81-82 | the answer is the service's answer for the client's key and the diff, and one generation request carrying that diff is logged |
| Pipeline.Expected | src/main.rs:44-49 | a configuration error ends the run after loading, with the repository untouched; no repository ends it after the open; otherwise the run continues as `WithRepository` with the key as loaded |
| Pipeline.WithRepository | src/main.rs:51-67 | with nothing staged and `--no-auto-stage`: `NothingStaged` after one status query; with nothing staged otherwise: stage everything, query again, and `NothingAfterStaging` if still nothing is staged; then the last phase on the staged state, its calls after the staging calls |
| Pipeline.AfterStaging | src/main.rs:69-75 | read the diff: its error ends the run, a blank diff ends it with `EmptyDiff`; otherwise continue as `Delivered` on that diff |
| Pipeline.Delivered | src/main.rs:77-96 | one generation call on the diff: its error ends the run with `GenerationFailure`; in a dry run the message is `Previewed`; otherwise one commit call with the message, `Committed` on the committed state (`CommitFailure` if the commit fails) |
| Pipeline.Run | src/main.rs:44-96 | the outcome and final repository state are those of `Expected` on the initial state, and the call log grows by exactly `Expected`'s calls, in order: a configuration error leaves only the load step, with no repository call |
| Pipeline.Proceed | src/main.rs:51-96 | from the status check on, the outcome and final state are `WithRepository`'s, and the repository and client append exactly its calls to the log |
| Pipeline.Finish | src/main.rs:69-96 | from the diff on, the outcome and final state are `AfterStaging`'s, and exactly its calls are logged: a blank diff logs no generation request; the commit step cannot fail there |
| Pipeline.Deliver | src/main.rs:77-96 | from the generation call on, the outcome and final state are `Delivered`'s, and exactly its calls are logged: one generation request, then at most one commit |
| Pipeline.AfterStagingShape | src/main.rs:69-96 | the last phase reads the diff, then (when the diff is not blank) calls generation once on it, then (unless a dry run) commits the message, which succeeds; a blank diff is the only way to `EmptyDiff` |
| Pipeline.Composed | src/main.rs:51-96 | once something is staged, the run is the staging calls followed by the last phase, with its outcome and final state |
| Pipeline.ConfigurationFirst | src/main.rs:44-49 | the configuration is loaded first; when it fails the run stops there, before the repository is opened; when it loads, the rest runs with the key exactly as read |
| Pipeline.StagingPrefix | src/main.rs:44-53 | with a valid key and a repository, the run starts with loading the configuration, opening the repository and querying the status |
| Pipeline.StagedChangesKept | src/main.rs:52-55 | with changes already staged, `stage_all_changes` is never called, the index stays as the user left it, and a commit records that index |
| Pipeline.NoAutoStageRefuses | src/main.rs:55-58 | nothing staged with `--no-auto-stage`: the run fails at once with no staging, no generation and no commit, the repository unchanged |
| Pipeline.AutoStageOnce | src/main.rs:60-66 | nothing staged and auto-staging allowed: `stage_all_changes` runs exactly once, between the two status queries; if still nothing is staged the run fails with no generation and no commit |
| Pipeline.GenerationOnlyOnNonBlankDiff | src/main.rs:73-82 | a blank diff ends the run with no generation and no commit; generation is called at most once, on the staged diff, which is not blank |
| Pipeline.GenerationSecondInPhase | src/main.rs:69-82 | in the last phase the only generation call comes right after the diff query, on the non-blank diff |
| Pipeline.GenerationFailureNeverCommits | src/main.rs:81-82 | a generation failure ends the run with no commit call and the history unchanged |
| Pipeline.OnlyCommitChangesHistory | src/main.rs:69-96 | a last phase that does not commit makes no commit call and leaves the repository as it was |
| Pipeline.DryRunNeverCommits | src/main.rs:89-92 | a dry run never commits and keeps the history; once generation is called the repository stays as staging left it, and a generated message ends the run as `Previewed` with that message |
| Pipeline.CommitCarriesGeneratedMessage | src/main.rs:96 | a committed run is not a dry run and ends with exactly one commit call carrying the generated message unchanged, which commits the staged index on top of HEAD; other runs keep the history; no run touches the working directory |

## Left out

- Failures of git2's own operations are not modelled. These are opening the index, `statuses`, `add_all`, `index.write`, `write_tree`, `find_tree`, `peel_to_tree`, `peel_to_commit`, `diff.print` and `repo.commit`. They are foreign calls whose code is not visible. The only git failure modelled is the unborn HEAD.
- `Repository::open` is not modelled. The repository found is a parameter (`None` when there is none), and `Git.Repository.constructor` only wraps it.
- `index.add_all(["*"])` is modelled by its abstract effect. The index becomes the working-directory files that are tracked or not ignored, and tracked files missing from the working directory leave the index. Its glob and pathspec semantics, conflicts and submodules are left out.
- Rename, type-change, unreadable and conflict detection are left out. The status model derives only the new, modified, deleted and ignored flags, although the flag set and the scan cover all of them.
- The order of status entries is not modelled: `Statuses` returns the reported paths in an arbitrary order.
- `diff_tree_to_tree` is a parameter: the lines it prints for two trees. UTF-8 decoding of a line's content is an `Option<string>`: `None` means the content does not decode.
- `Signature::now` is modelled by name and email only. Its timestamp and its failure on invalid names are left out.
- An unreadable git configuration and missing keys both lead to the default signature. Both are modelled; the reasons `get_string` fails are not.
- `env::var` is taken as an `Option<string>`. An unset variable and one that is not valid Unicode are both `None`, because both give the same error.
- The OpenRouter service is a parameter (`respond`), from the key and the diff to a message or an error. src/openrouter.rs is not part of this model: its HTTP call, its prompt, and any shortening of the diff or reshaping of the message it may do are left out, folded into `respond`.
- `clap` parsing, `env_logger` setup, `tokio`, and `println!`, `info!`, `debug!` and `warn!` output are left out. `verbose` only selects the log level.
- Pipeline.Finish: the `CommitFailure` outcome exists, but no run of the model reaches it, because the diff step already rejects an unborn HEAD.
