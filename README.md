# Cadmium core, modelled in Dafny

Cadmium is a cluster of web nodes that serve content from a git
repository. This project models the parts of it that make decisions:

- **The content update pipeline.** A two-stage chain, `CreateNewRenderedDirectoryTask`
  followed by `UpdateConfigTask`. The first stage stages a fresh content directory
  by cloning the local checkout into it. The second stage rotates the node's
  persisted configuration (current → previous values), removes the "updating.to"
  markers, logs a history event and writes `config.properties`.
- **Command dispatch.** `CommandMapProvider` maps the seven protocol message kinds
  to their actions. `MaintenanceCommandAction` turns the site-down page on or off
  and logs the toggle.
- **The git wrapper's branch logic** in `GitService`: switching branches, hard
  resets, creating and pushing a new branch, cloning, and locating a repository.
  The repository is abstract state: the current branch, the local and
  remote-tracking branch tips, the upstream configuration, the ids of the commits held locally, and
  the origin's own branches.
- **The `history` command-line helpers** in `HistoryCommand`:
  - which entries are displayed;
  - how a live time is rendered;
  - how a comment is wrapped at 154 columns;
  - the addresses polled;
  - the outcome of waiting for a token, over a given trace of polls.

The model does the following with Java's semantics:

- Java `null` becomes `Option`, and an exception becomes a `Result`/`Outcome` error.
- Mutable Java objects become classes. These are the string tables, the history
  manager, the site-down service, the git service and the two tasks.
- Java's truncating `/` and `%` are modelled explicitly. So are the `int` and
  `long` wrap-arounds the code can reach.

Three behaviours of the code worth noting:

- `waitForToken` accepts a body that equals "true" after trimming and ignoring case,
  not only exactly "true". A remote failure carries the trimmed body, or "Command
  failed!" when there is none.
- `UpdateConfigTask.call` returns `true` even when both the history log and the
  configuration write fail.
- The maintenance action logs the comment only when a `state` parameter is present
  as well.

## Model

| member | source | states |
|---|---|---|
| Files.ChildDirectoryIfExists | core/src/main/java/com/meltmedia/cadmium/core/git/GitService.java:49-55 | the `.git` child lookup gives a directory exactly when the parent has one |
| History.HistoryManager.LogEvent | core/src/main/java/com/meltmedia/cadmium/core/worker/UpdateConfigTask.java:65-71 | logging appends exactly the given event, or throws and leaves the log unchanged |
| Tasks.StringTable.Remove | core/src/main/java/com/meltmedia/cadmium/core/worker/UpdateConfigTask.java:72-77 | `remove(key)` drops that key and nothing else |
| Tasks.PredecessorError | core/src/main/java/com/meltmedia/cadmium/core/worker/UpdateConfigTask.java:36-41 | a stage stops exactly when its predecessor returned false ("Previous task failed") or threw; a null or true result lets it proceed |
| Tasks.AsPredecessor | core/src/main/java/com/meltmedia/cadmium/core/worker/CreateNewRenderedDirectoryTask.java:30-35 | a stage's successor proceeds exactly when the stage returned true |
| CreateNewRenderedDirectory.CreateNewRenderedDirectoryTask.Call | core/src/main/java/com/meltmedia/cadmium/core/worker/CreateNewRenderedDirectoryTask.java:29-58 | predecessor failure throws with no effect; no directory, an existing target, a failed clone or a failed delete give false with `properties` unchanged; no directory or an existing target touches nothing on disk, a clone that throws leaves only the attempted clone; no exception escapes; success returns true, publishes `nextDirectory` as its only write, and clones from the local git directory, closes the clone, then deletes the new directory's `.git` child as `getChildDirectoryIfExists` finds it (also when that deletion throws) |
| UpdateConfig.Rotate | core/src/main/java/com/meltmedia/cadmium/core/worker/UpdateConfigTask.java:49-52 | one rotation step: the new value is recorded, and the old value is kept under the "previous" key exactly when there was one |
| UpdateConfig.RotatedConfig | core/src/main/java/com/meltmedia/cadmium/core/worker/UpdateConfigTask.java:47-63 | the written table holds the three current values, plus `previous`/`branch.last`/`git.ref.sha.last` equal to the old values exactly when those keys existed, and no other key |
| UpdateConfig.CommittedConfig | core/src/main/java/com/meltmedia/cadmium/core/worker/UpdateConfigTask.java:53-77 | afterwards the three keys hold the new directory, branch and revision; the markers are absent; every other key is unchanged |
| UpdateConfig.Operator | core/src/main/java/com/meltmedia/cadmium/core/worker/UpdateConfigTask.java:67 | the logged operator is "AUTO" when the comment is "SYNC", else the `openId` property |
| UpdateConfig.Revertible | core/src/main/java/com/meltmedia/cadmium/core/worker/UpdateConfigTask.java:67 | revertible is the negation of `nonRevertible` equalling "true" ignoring case; an absent value gives true |
| UpdateConfig.UpdateEventFor | core/src/main/java/com/meltmedia/cadmium/core/worker/UpdateConfigTask.java:67 | the logged update carries the new branch, revision and directory and the run's comment; a "SYNC" comment logs the operator "AUTO", any other the `openId` property; no `nonRevertible` property logs a revertible update |
| UpdateConfig.UpdateConfigTask.RemoveMarkers | core/src/main/java/com/meltmedia/cadmium/core/worker/UpdateConfigTask.java:72-77 | both "updating.to" markers are removed, nothing else changes |
| UpdateConfig.UpdateConfigTask.Call | core/src/main/java/com/meltmedia/cadmium/core/worker/UpdateConfigTask.java:35-85 | predecessor failure throws with nothing changed; a missing `nextDirectory` throws before any change; a branch without a commit throws after two updates; otherwise true, the config becomes CommittedConfig, RotatedConfig is written unless the write fails, and one event is logged unless the manager is null or failing |
| UpdateConfig.RunStages | core/src/main/java/com/meltmedia/cadmium/core/worker/UpdateConfigTask.java:36-41 | with the two stages chained, a staging stage that does not return true leaves the configuration, the log and the written file untouched and the config stage fails; a successful staging stage's directory becomes the last-updated directory |
| Git.GitService.BranchName | core/src/main/java/com/meltmedia/cadmium/core/git/GitService.java:168-170 | the branch HEAD points at; it has a commit whenever the current revision exists |
| Git.GitService.CurrentRevision | core/src/main/java/com/meltmedia/cadmium/core/git/GitService.java:172-174 | the commit of the checked-out branch; none (a null dereference) when that branch has no ref |
| Git.GitService.SwitchBranch | core/src/main/java/com/meltmedia/cadmium/core/git/GitService.java:116-130 | no-op for null or the current branch; checks out an existing local branch unchanged; otherwise creates it from `origin/<name>` with that upstream and checks it out, or fails on a missing start point; on success the branch is `name` |
| Git.GitService.ResetToRev | core/src/main/java/com/meltmedia/cadmium/core/git/GitService.java:132-137 | null does nothing; a known revision moves the current branch there; an unknown one fails with nothing changed |
| Git.GitService.ListRefs | core/src/main/java/com/meltmedia/cadmium/core/git/GitService.java:148 | lists exactly the local and remote-tracking ref names |
| Git.RefNamesOf | core/src/main/java/com/meltmedia/cadmium/core/git/GitService.java:148 | the listed ref names are exactly "refs/heads/" + each local branch and "refs/remotes/origin/" + each remote-tracking branch |
| Git.BranchTaken | core/src/main/java/com/meltmedia/cadmium/core/git/GitService.java:149-157 | a name is taken when a local or remote-tracking branch has exactly that name; nothing is taken when there are no refs |
| Git.AnyRefEndsWith | core/src/main/java/com/meltmedia/cadmium/core/git/GitService.java:149-157 | the loop finds a match exactly when some listed ref ends with "/" + name |
| Git.GitService.NewRemoteBranch | core/src/main/java/com/meltmedia/cadmium/core/git/GitService.java:139-166 | an unreachable remote gives false with nothing changed; otherwise the pruning fetch makes the remote-tracking branches the origin's and adds the origin's commits to the local ones; a taken name then gives false with no branch created or pushed, a name git refuses fails with `InvalidRefName` and nothing created, an unborn HEAD fails, otherwise the branch is created at HEAD and pushed and the result is true; every branch keeps pointing at a local commit |
| Git.BranchNameRule | core/src/main/java/com/meltmedia/cadmium/core/git/GitService.java:159 | the name check `branchCreate` applies to "refs/heads/" + name holds exactly for a non-empty name not ending in ".lock" that passes the character scan as a component after '/' |
| Git.RefusedBranchNames | core/src/main/java/com/meltmedia/cadmium/core/git/GitService.java:159 | the empty name, any name ending in ".lock", and any name holding "..", a space, a control character or one of ~ ^ : ? [ * \ DEL is refused |
| Git.AcceptedBranchNames | core/src/main/java/com/meltmedia/cadmium/core/git/GitService.java:159 | every non-empty name of lower-case letters is accepted |
| Git.GitService.CloneRepo | core/src/main/java/com/meltmedia/cadmium/core/git/GitService.java:66-80 | an existing target gives null and does nothing; otherwise a fresh service on the clone of `uri`, or the clone's exception |
| Git.CreateGitService | core/src/main/java/com/meltmedia/cadmium/core/git/GitService.java:46-64 | a path ending in ".git" is used as is, any other resolves to its `.git` child; the result is accepted exactly when it is a readable, writable directory, else "Invalid git repo" |
| Git.EndsWithSlashName | core/src/main/java/com/meltmedia/cadmium/core/git/GitService.java:152 | after a prefix ending in '/', a ref ends in "/name" exactly when its branch is `name` or ends in "/name" |
| Git.BranchTakenWithoutSlash | core/src/main/java/com/meltmedia/cadmium/core/git/GitService.java:148-158 | for a plain name, the existence test holds exactly when a local or remote branch is that name or ends in "/name" |
| Git.NestedBranchBlocksCreation | core/src/main/java/com/meltmedia/cadmium/core/git/GitService.java:152-158 | a branch "team/x" alone keeps "x" from being created |
| Commands.SiteDownService.Start | core/src/main/java/com/meltmedia/cadmium/core/commands/MaintenanceCommandAction.java:38 | starting puts the site-down page on |
| Commands.SiteDownService.Stop | core/src/main/java/com/meltmedia/cadmium/core/commands/MaintenanceCommandAction.java:42 | stopping takes it off |
| Commands.SiteDownService.IsOn | core/src/main/java/com/meltmedia/cadmium/core/commands/MaintenanceCommandAction.java:45 | reports the current flag |
| Commands.StateIs | core/src/main/java/com/meltmedia/cadmium/core/commands/MaintenanceCommandAction.java:31-40 | the state test holds only for a present `state` of the word's length, and holds for the word itself |
| Commands.LoggedComment | core/src/main/java/com/meltmedia/cadmium/core/commands/MaintenanceCommandAction.java:30-35 | the comment is logged only when both `state` and `comment` are present; otherwise "" even if a comment came alone |
| Commands.FlagAfter | core/src/main/java/com/meltmedia/cadmium/core/commands/MaintenanceCommandAction.java:31-43 | "on" (any case) turns the page on, "off" turns it off, anything else or no state leaves it |
| Commands.MaintenanceCommandAction.Execute | core/src/main/java/com/meltmedia/cadmium/core/commands/MaintenanceCommandAction.java:27-47 | the flag becomes FlagAfter; exactly one event with the resulting flag, openId "" and LoggedComment is appended; the result is true unless logging throws |
| Commands.MaintenanceCommandAction.HandleFailure | core/src/main/java/com/meltmedia/cadmium/core/commands/MaintenanceCommandAction.java:50-52 | changes nothing |
| Commands.KindName | core/src/main/java/com/meltmedia/cadmium/core/commands/CommandMapProvider.java:18-44 | each kind's action is bound under the kind's own name, which reads back as that kind, so no two kinds share a binding |
| Commands.CommandMapProvider.constructor | core/src/main/java/com/meltmedia/cadmium/core/commands/CommandMapProvider.java:18-48 | each field holds the action bound under its kind's name; no table yet |
| Commands.CommandMapProvider.Get | core/src/main/java/com/meltmedia/cadmium/core/commands/CommandMapProvider.java:51-65 | the table has every one of the seven kinds as a key, each mapped to the action bound under the same name; it is built on the first call only and later calls return the same table |
| HistoryCli.Passing | cli/src/main/java/com/meltmedia/cadmium/cli/HistoryCommand.java:97-98 | exactly the entries that pass the filter: all of them, or only the revertible ones |
| HistoryCli.Shown | cli/src/main/java/com/meltmedia/cadmium/cli/HistoryCommand.java:96-100 | the loop's selection never holds more entries than the history |
| HistoryCli.ShownSelectsPassing | cli/src/main/java/com/meltmedia/cadmium/cli/HistoryCommand.java:97-99 | whatever the limit, every entry shown passes the filter, and no more entries are shown than pass |
| HistoryCli.ShownUnlimited | cli/src/main/java/com/meltmedia/cadmium/cli/HistoryCommand.java:96-100 | with no limit every passing entry is shown, in order |
| HistoryCli.ShownNonePassing | cli/src/main/java/com/meltmedia/cadmium/cli/HistoryCommand.java:96-100 | when nothing passes the filter nothing is shown, whatever the limit |
| HistoryCli.ShownLimited | cli/src/main/java/com/meltmedia/cadmium/cli/HistoryCommand.java:96-100 | while the number of passing entries is at most v − Integer.MIN_VALUE + 1 (so the decrementing counter cannot wrap before the last of them), a limit v shows the first v passing entries, none when v <= 0; the limit counts passing entries only |
| HistoryCli.ShownMinValue | cli/src/main/java/com/meltmedia/cadmium/cli/HistoryCommand.java:99 | a limit of Integer.MIN_VALUE hides the first passing entry, then wraps and shows all the rest |
| HistoryCli.Visit | cli/src/main/java/com/meltmedia/cadmium/cli/HistoryCommand.java:98-99 | an entry is printed exactly when it passes the filter and there is no limit or the limit read before decrementing is positive; the limit is decremented (with `int` wrap-around) only for entries that pass the filter |
| HistoryCli.ShownStep | cli/src/main/java/com/meltmedia/cadmium/cli/HistoryCommand.java:97-103 | one loop step keeps the decremented limit inside the `int` range and splits the selection into the first entry's verdict followed by the selection of the rest |
| HistoryCli.DisplayHistory | cli/src/main/java/com/meltmedia/cadmium/cli/HistoryCommand.java:89-124 | the displayed entries are the selection above; "No history to show" is printed exactly when nothing is displayed, including a null or empty history |
| HistoryCli.FormatTimeLive | cli/src/main/java/com/meltmedia/cadmium/cli/HistoryCommand.java:286-306 | the rendering always ends with `t % 1000` followed by "ms" |
| HistoryCli.Decompose | cli/src/main/java/com/meltmedia/cadmium/cli/HistoryCommand.java:288-300 | ms < 1000, s < 60, m < 60, h < 24, and d·86400000 + h·3600000 + m·60000 + s·1000 + ms = t |
| HistoryCli.DivisionChain | cli/src/main/java/com/meltmedia/cadmium/cli/HistoryCommand.java:289-298 | the successive divisions by 1000, 60, 60 and 24 are divisions by the unit sizes |
| HistoryCli.FormatTimeLiveSpan | cli/src/main/java/com/meltmedia/cadmium/cli/HistoryCommand.java:286-306 | for t >= 0 the rendering prints the Decompose components, each unit exactly when t reaches it |
| HistoryCli.FormatTimeLiveNegative | cli/src/main/java/com/meltmedia/cadmium/cli/HistoryCommand.java:287-290 | a negative duration prints only its non-positive millisecond remainder |
| HistoryCli.TimeLiveShown | cli/src/main/java/com/meltmedia/cadmium/cli/HistoryCommand.java:109 | a recorded live time of 0 is replaced by now − timestamp, as a Java long |
| HistoryCli.WindowEnd | cli/src/main/java/com/meltmedia/cadmium/cli/HistoryCommand.java:252 | the window is at most 154 characters and never runs past the comment |
| HistoryCli.Cut | cli/src/main/java/com/meltmedia/cadmium/cli/HistoryCommand.java:254-270 | the printed segment ends inside its window and is never empty |
| HistoryCli.Step | cli/src/main/java/com/meltmedia/cadmium/cli/HistoryCommand.java:249-277 | every round moves the position forward, so the loop terminates |
| HistoryCli.StepShape | cli/src/main/java/com/meltmedia/cadmium/cli/HistoryCommand.java:252-276 | a round prints a non-empty piece of at most 154 characters starting at the position, and steps over at most one character after it, a whitespace character |
| HistoryCli.Wrap | cli/src/main/java/com/meltmedia/cadmium/cli/HistoryCommand.java:248-278 | the printed segments are each 1 to 154 characters long, and there are no more of them than characters from the starting position on |
| HistoryCli.WrapTiles | cli/src/main/java/com/meltmedia/cadmium/cli/HistoryCommand.java:248-278 | the printed segments are contiguous pieces of the comment, in order, each 1 to 154 characters, with only single whitespace characters dropped between them |
| HistoryCli.BlankLineKeptInSegment | cli/src/main/java/com/meltmedia/cadmium/cli/HistoryCommand.java:255-262 | a line break at the start of a window is not a line end: "a\n\nb" prints "a" then "\nb" |
| HistoryCli.CommentRound | cli/src/main/java/com/meltmedia/cadmium/cli/HistoryCommand.java:252-276 | one pass of the loop body performs exactly one round |
| HistoryCli.PrintComments | cli/src/main/java/com/meltmedia/cadmium/cli/HistoryCommand.java:248-278 | the loop prints the rounds' segments, and they tile the comment |
| HistoryCli.HistoryUrl | cli/src/main/java/com/meltmedia/cadmium/cli/HistoryCommand.java:137-139 | the address ends with "/system/history", which is appended only when missing |
| HistoryCli.HistoryUrlIdempotent | cli/src/main/java/com/meltmedia/cadmium/cli/HistoryCommand.java:192-194 | normalising twice is normalising once |
| HistoryCli.TokenUrl | cli/src/main/java/com/meltmedia/cadmium/cli/HistoryCommand.java:137-143 | the address is exactly the endpoint, "/", the token ("null" when absent) and, when since is given, "/" and its decimal digits; it always starts with the endpoint |
| HistoryCli.TokenUrlSinceRoundTrip | cli/src/main/java/com/meltmedia/cadmium/cli/HistoryCommand.java:141-143 | the `since` value can be parsed back from the end of the address |
| HistoryCli.QueryParameters | cli/src/main/java/com/meltmedia/cadmium/cli/HistoryCommand.java:202-207 | `limit` is sent exactly when limit > 0, `filter=true` exactly when filter is set, and nothing else |
| HistoryCli.Accepted | cli/src/main/java/com/meltmedia/cadmium/cli/HistoryCommand.java:153-156 | a poll counts as done only for a body that trims to four characters ("true" in any case); the body "true" is accepted |
| HistoryCli.Retry | cli/src/main/java/com/meltmedia/cadmium/cli/HistoryCommand.java:153-168 | the loop goes on only after an OK answer that is not "true", polled before the deadline; an accepted body, another status or a late poll stops it |
| HistoryCli.FailureMessage | cli/src/main/java/com/meltmedia/cadmium/cli/HistoryCommand.java:161-166 | a failed poll raises the trimmed body, or "Command failed!" for no body |
| HistoryCli.WaitForToken | cli/src/main/java/com/meltmedia/cadmium/cli/HistoryCommand.java:135-172 | every poll before the last is an OK, not-"true" answer taken before the deadline (start + timeout as a long); the last one gives completion on "true", a remote failure on a non-OK status, or a timeout once the clock read before that poll reached the deadline |

## Left out

- I/O is not modelled: logging, `System.out` output and the column layout of the
  history table, `System.exit`, HTTP requests, content-type checks and JSON decoding.
  The history list, the poll responses and the clock readings are given as inputs.
- `Thread.sleep` and the real clock in `waitForToken` are not modelled. The polls
  are a finite trace, and a trace that runs out before the loop decides gives
  `Undecided`.
- `FileSystemManager` is not part of this model. Its answers are inputs: the
  allocated directory, which paths exist, directory and permission checks, the
  `.git` child, and whether `deleteDeep` throws. The naming of sequence
  directories and `getParent` are not modelled.
- `HistoryManager` is not part of this model. Logging appends an opaque event or
  throws; indices, persistence and queries are not modelled. The parameter order
  of the three-argument `logEvent` overload is assumed to be (maintenance,
  openId, comment).
- The `SiteDownService` implementation is not part of this model. `start`/`stop`
  set and clear a flag, and `isOn` reads it.
- JGit is modelled only as abstract repository state. Tags, symbolic refs, the
  working tree, merge conflicts in checkout, transport errors other than an
  unreachable remote, SSH setup (`setupSsh`), `init`, `pull`, `close`,
  `getRepositoryDirectory` and `getBaseDirectory` are left out.
- Git.GitService.NewRemoteBranch: the name check follows the character rules of
  JGit's `Repository.isValidRefName`; its extra check that the name is a legal path
  on the local platform is not modelled.
- Git.GitService.ResetToRev: a revision resolves only as a full commit id held
  locally; JGit also resolves abbreviated ids, ref names and revision expressions.
- Git.GitService.SwitchBranch: JGit's `getRef` also finds tags and remote names by
  short name; the model looks only at local branches.
- `Future`, the executor and concurrency are not modelled. A predecessor's result
  is an input: none or null, a boolean, or an exception.
- The config file write is the table written plus a may-fail flag; the file
  format of `Properties.store` is not modelled.
- UpdateConfig.UpdateConfigTask.Call: an exception from `getBaseDirectory` is not
  modelled; the target directory is a parameter.
- HistoryCli.PrintComments: positions and lengths count Unicode scalar values, while
  Java's `length`, `substring` and `indexOf` count UTF-16 code units; the two agree
  only for text inside the Basic Multilingual Plane (a comment of 100 emoji is 200
  units in Java, printed as two pieces, but one segment here).
- HistoryCli.PrintComments: a null comment (a NullPointerException in the source)
  is not modelled, nor `int` overflow of the positions for comments longer than
  2^31 − 154 characters.
- HistoryCli.WaitForToken: null `timeout` or `siteUri` arguments (a
  NullPointerException) are not modelled, and the `HttpStatus.SC_OK` constant is
  taken to be 200.
- `String.equalsIgnoreCase` is modelled by ASCII case folding. For the literals
  compared ("true", "on", "off") this matches Java's result.
- `HistoryCommand.execute` and its URI pattern check, `addAuthHeader`,
  `Jsr250Utils`, `CommandBodyMapProvider` and the JAX-RS `UpdateService` are not
  part of this model. They are reflection, injection and transport code.
- The dispatch loop that looks up and runs an action (and calls `handleFailure`)
  is not part of the core modelled here. Only the table it uses is modelled.
