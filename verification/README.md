# BaryoVM: protocols and transformations, proved

BaryoVM runs Docker Compose stacks on virtual machines over SSH. Most of it is plumbing. This project
models the parts that promise something over a whole run, and proves those promises for every input,
every order of commands and every place a run can be cut off.

- **Releases** (`ReleaseState`, `ReleaseWorld`, `ReleaseSafety`, `ReleaseNames`, `ReleaseOrder`, `ReleasePlan`,
  `ReleaseOutcomes`, `RollbackSafety`, `RollbackHistory`, `ReleaseCommands`, `ReleaseRun`). `stack release`, `--resume`, `--clear`, `stack rollback` and `stack update` share a
  progress record and a rollback record on the host. The host is a state with a log; every write may be
  acknowledged, lost, or land without an acknowledgement, and the client may be cut off between any two
  of its steps. `ReleaseRun` holds the commands as methods on a host object; each is proved to do what
  the functions of `ReleaseWorld` say, and the safety theorems are about those.
- **Backups** (`BackupNames`, `BackupSteps`, `BackupRuns`, `BackupSkips`, `BackupFrame`, `BackupPull`). The generated scripts as lines over a
  directory, with names as strings, because retention, restore and pull all select by name.
- **Host keys** (`HostKeys`). Trust on first use over an own file, the user's own known_hosts and pins.
- **Guard** (`DiffScan`, `GitAlias`, `PushArgs`, `GlobPattern`, `Globs`). The parsers that decide whether a commit, a
  push or a deploy is let through.
- **Fleet file** (`FleetJson`, `FleetUnknown`). Loading and saving with a program that knows fewer fields.
- **Runner and patch** (`RunnerScripts`, `RunnerInstall`, `RunnerProbe`, `PatchRun`). Installing a GitHub runner step by step on a host
  where anything may stop, and patching a host whose answers are arbitrary.
- **Laws** (`EnvFile`, `Versions`). The awk programs over an env file as a map, and version order
  against section 11 of Semantic Versioning 2.0.0.

`Text` holds the pieces of the Go standard library the others need.

Check the project with `dafny verify dfyconfig.toml`.

## What turned out not to hold

Where a promise is false of the code, the model keeps the code, and a lemma says exactly when it holds.

- A step recorded done runs again in a fresh release when the manifest lists a `sync` entry twice, or
  the same image in two builds: both get one step name, and a fresh release does not ask its own record
  (`ReleasePlan.NeverRerunsIff`, `ReleaseNames.PlanDistinctIff`).
- Between a half-applied release and its clear, an update may overwrite the rollback record with what the
  broken deploy left running, and the clear then protects that. The recorded images survive, over any
  commands up to the next finish or applied rollback, exactly when no update saved over them, or the last
  that did saved the same ones (`RollbackSafety.StillHeldIff`; `RollbackSafety.BrokenImagesCaptured` is a
  host where they are lost).
- The printed hint says to roll back and then clear. In that order the clear protects the record again that
  the rollback has just released, exactly when it can read both records and its write takes effect
  (`RollbackSafety.ClearAfterRollbackIff`); over any commands after the rollback, exactly when one of them is
  such a clear (`RollbackSafety.ReleasedUntilCleared`).
- A backup that skips a strategy keeps the newest complete set exactly when every strategy it runs still has
  room for that set's artifact among the newest it retains, this run's included; otherwise no complete set
  is left (`BackupSkips.SkippingKeepsASetIff`). With one of each kind retained it never has
  (`BackupSkips.SkippingLosesTheSet`).
- The keys handed to rsync's ssh differ from those a connection accepts when the user's known_hosts
  cannot be read or revokes one of them, or when an entry under the address speaks against a pin
  (`HostKeys.RsyncAgreesIff`).
- A diff header whose path ends in a quote or in white space is read back changed
  (`DiffScan.HeaderReadsIff`).
- `git push --repo x y` is read as two different destinations by the two loops
  (`PushArgs.SameDestinationIff`, `PushArgs.RepoAndAWord`).
- encoding/json matches keys without regard to case, captureUnknown does not, so a preserved key in
  another case can take a field's place after a save (`FleetUnknown.LosslessIff`,
  `FleetUnknown.StrayCaseWins`).
- When svc.sh cannot stop the unit it runs on, and when svc.sh cannot uninstall it no later install can
  succeed; the removal succeeds either way (`RunnerInstall.ReinstallAfterRemoveIff`).
- Version identifiers of a hyphen and digits are compared as negative numbers when they fit an int, and
  numbers that do not fit one are clamped or compared as text (`Versions.AgreesIff`).
- A glob beyond ASCII is taken apart into bytes: a glob is read right on every path without a line break
  exactly when it is ASCII or has a line break itself (`Globs.AsciiIff`, `Globs.NameMatchesItselfIffAscii`).
  And `.` in a generated expression does not match a line break: a path is read right for every ASCII glob
  exactly when it has none (`Globs.NoLineBreakIff`).

## Model

| member | source | states |
|---|---|---|
| ReleaseState.State.Mark | internal/releasestate/releasestate.go:75-89 | a mark replaces the step of that name or appends it |
| ReleaseState.State.CheckDone | internal/releasestate/releasestate.go:102-109 | true exactly when the step is there and done |
| ReleaseState.State.CheckUnsafe | internal/releasestate/releasestate.go:116-123 | true exactly when a step that cannot be repeated is listed and not done |
| ReleaseState.MarkedChangesOne | internal/releasestate/releasestate.go:75-89 | a mark changes the status of one name and of no other |
| ReleaseSafety.ReleasesAreWriteAhead | internal/cli/stack_release_state.go:46-65 | over every chain of releases, resumes, clears, updates and rollbacks, cut anywhere and with any plans of distinct names: every action began after the host's record called it started, no step recorded done ran again, and compose up began at most once per record |
| ReleaseOutcomes.DoneMeansSucceeded | internal/cli/stack_release_state.go:46-65 | over every chain, cut anywhere and with any plans: a step is recorded done only if its action succeeded under that record, and the record lists every step begun and calls none done or failed but by how its last action went |
| ReleaseOutcomes.StepLeaves | internal/cli/stack_release_state.go:46-65 | the action runs only once the mark is acknowledged; the record then calls the step failed, done or still started by how it went and what was written; the release goes on only after an acknowledged success |
| ReleaseOutcomes.FailedIsRefused | internal/cli/stack.go:545-583 | over every chain: once compose up or the vhost swap began and did not succeed, no resume and no fresh release changes anything |
| ReleaseOutcomes.ResumeRunsWhatFailed | internal/cli/stack.go:545-583 | after any chain at one plan, a resume that goes well runs again every step whose last action did not succeed, and none recorded done |
| ReleaseNames.PlanDistinctIff | internal/cli/stack.go:586-795 | the steps of a release have distinct names exactly when no sync entry and no built image is listed twice |
| ReleaseOrder.PlanIs | internal/cli/stack.go:586-795 | every manifest's plan stands in the order snapshot, backup, syncs, name check, saving the images, builds, hooks, deploy, vhost, hooks, verify, and has of each exactly what the manifest and its flags ask for |
| ReleaseOrder.PlanHasIff | internal/cli/stack.go:586-795 | step by step, when a release has it |
| ReleasePlan.NeverRerunsIff | internal/cli/stack_release_state.go:46-65 | a step recorded done never runs again, over all chains of attempts at a plan, exactly when the plan has no name twice |
| ReleasePlan.DoneIsAlwaysAPrefix | internal/cli/stack.go:545-583 | over every chain of cut attempts at one plan, the done steps of the host's record are a prefix of the plan |
| ReleasePlan.CleanResumeRunsTheRest | internal/cli/stack.go:545-583 | after any such chain a resume that nothing goes wrong in begins exactly the steps not recorded done, in plan order, and finishes the release |
| ReleaseCommands.RefusedChangesNothing | internal/cli/stack.go:545-583 | a release over a record, a resume without one, of one that may still be running, is unsafe or is at another commit, and either under a lock, leave the record, the rollback record, what runs and the log as they were, and the lock free when the host acknowledged it |
| ReleaseCommands.CleanReleaseRunsAll | internal/cli/stack.go:573-812 | a release in which nothing goes wrong begins every step of its plan in order, ends, and leaves no record and the rollback record free |
| ReleaseCommands.StoppedBeforeAnyStep | internal/cli/stack.go:459-470 | an attempt that stops before any step is marked takes its record away |
| ReleaseCommands.RecordIsAtItsCommit | internal/cli/stack.go:533-583 | no command changes the commit a record was begun at |
| ReleaseCommands.BackupIsNoted | internal/cli/stack.go:632-650 | the backup's file is in the record from the first write after it that took effect |
| ReleaseCommands.FinishReleasesIff | internal/cli/stack.go:795-812 | an attempt changes whether the rollback record is protected only by ending, and then frees it unless it is cut, cannot read it, or loses the write |
| ReleaseCommands.ClearDropsIff | internal/cli/stack_release_state.go:118-155 | exactly when a clear drops the record, and that it changes nothing else |
| ReleaseCommands.RecordedIs | internal/rollback/rollback.go:47-56 | an image is recorded as often as it was listed exactly when it has an id and a tag |
| ReleaseCommands.WantedIs | internal/compose/compose.go:288-327 | an image is read exactly when its service is named or no service is |
| ReleaseCommands.UpdateLeaves | internal/cli/stack_update.go:142-262 | when an update replaces the rollback record and with what, and that it leaves the release's record alone |
| ReleaseCommands.RollbackLeaves | internal/cli/stack_rollback.go:38-105 | when a rollback changes what runs, and when it frees the record it applied |
| RollbackSafety.GuardedExactly | internal/cli/stack_release_state.go:118-171 | the rollback record of a half-applied release, through its clear and whatever follows, until a release finishes or a rollback is applied, holds the images it held or those the last overwriting update read, and is protected once the release is cleared |
| RollbackSafety.StillHeldIff | internal/cli/stack_update.go:233-243 | so the images recorded before are still held exactly when no update saved over them, or the last that did saved the same ones |
| RollbackSafety.BrokenImagesCaptured | internal/cli/stack_update.go:233-243 | a host, a release cut in its deploy, an update and a clear after which the broken images are the protected ones |
| RollbackSafety.ClearProtects | internal/cli/stack_release_state.go:118-155 | a half-applied release's record is dropped only with the rollback record protected, or with none there |
| RollbackSafety.ClearedStaysProtected | internal/rollback/rollback.go:61-92 | after the clear nothing replaces the record, updates included, until a release finishes or a rollback is applied |
| RollbackSafety.ReleasedUntilCleared | internal/cli/stack_rollback.go:79-105 | after an applied rollback that released the record, it is protected again, over any commands up to the next finish or applied rollback, exactly when one of them is a clear that finds the release half applied, reads both records and writes |
| RollbackSafety.ClearAfterRollbackIff | internal/cli/stack_release_state.go:95-155 | the commands in the hint's order, with any answers of the host: protected again exactly when the clear reads both records and its write takes effect |
| RollbackSafety.RollbackThenClearReprotects | internal/rollback/rollback.go:61-92 | and then no update replaces the record until a release finishes or a rollback is applied |
| RollbackHistory.PlanSavesFirst | internal/cli/stack.go:586-795 | every manifest's plan saves the images, if at all, before it deploys |
| RollbackHistory.ReleasesSaveBeforeDeploy | internal/cli/stack.go:586-795 | over every chain of commands with such plans, no release saves images once the deploy of its record has begun, in whatever attempt |
| RollbackHistory.HoldsWhatWasBeforeDeploy | internal/cli/stack_release_state.go:118-171 | once a record's deploy has begun, and until an update saves, the rollback record holds what was recorded before that deploy |
| RollbackHistory.ClearedRecordPredatesDeploy | internal/cli/stack_release_state.go:118-171 | the same through the clear and after it, until a release finishes or a rollback is applied: never what the broken deploy left running |
| ReleaseRun.RelRun.Step | internal/cli/stack_release_state.go:46-65 | mark and write started, run, mark and write the outcome; nothing at all when a resume finds the step done |
| ReleaseRun.RelRun.RunPlan | internal/cli/stack.go:586-795 | the items in order, stopping at the first failure or where the client is cut |
| ReleaseRun.Finish | internal/cli/stack.go:795-812 | the record is removed and the rollback record released |
| ReleaseRun.Begin | internal/releasestate/releasestate.go:300-316 | a new record under the lock, or the existing one and nothing written |
| ReleaseRun.Reopen | internal/cli/stack.go:545-573 | the existing record, refused when it is unsafe or of another commit |
| ReleaseRun.ReleaseStack | internal/cli/stack.go:427-833 | the whole command is the attempt the theorems are about |
| ReleaseRun.ReleaseClear | internal/cli/stack_release_state.go:118-155 | protects before it removes, and stops when it cannot protect |
| ReleaseRun.StackRollback | internal/cli/stack_rollback.go:38-105 | applies the recorded images, then releases the record |
| ReleaseRun.ReadImages | internal/compose/compose.go:288-327 | the images of the services asked for, of all of them when none is named |
| ReleaseRun.RecordingRunner.Images | internal/cli/stack_update.go:324-330 | the images of the requested services are read first and kept for saving |
| ReleaseRun.RecordingRunner.Up | internal/cli/stack_update.go:332-338 | they are saved before the first compose up and only then |
| ReleaseRun.StackUpdate | internal/cli/stack_update.go:142-262 | the whole update, its undo included, as one operation on the host |
| ReleaseRun.Host.SaveTarget | internal/rollback/rollback.go:61-70 | a protected or unreadable record is kept |
| ReleaseRun.Host.Protect | internal/rollback/rollback.go:82-92 | the flag is set on the record that is there |
| ReleaseRun.FromCompose | internal/rollback/rollback.go:47-56 | exactly the services with a running image and a tag to put it under |
| BackupNames.Artifacts | internal/backup/strategy.go:228-247 | the names of a list of strategies, the first postgres keeping the old one |
| BackupNames.GlobPicksOwn | internal/backup/strategy.go:381-396 | for every list, strategy i's pattern picks strategy j's artifact only when i is j, picks no half-written dump, and the names are distinct |
| BackupNames.SameNameIff | internal/backup/strategy.go:228-247 | no two templates and no two timestamps give one name |
| BackupNames.StampOfName | internal/backup/strategy.go:403-444 | the timestamp read back from an artifact's name is the one it was made with |
| BackupRuns.BackupsKeepTheNewestSet | internal/backup/strategy.go:340-398 | after any backups, each stopped at any line, every artifact under a final name is a finished dump, and the newest set ever completed is whole and finished |
| BackupRuns.RestorePicksTheNewestSet | internal/backup/strategy.go:403-444 | restore without a file picks exactly that set, or finds nothing when none was completed |
| BackupRuns.RestoreAfterBackups | internal/backup/strategy.go:403-444 | both together, from a fresh directory on |
| BackupRuns.SingleRestorePicksTheNewest | internal/backup/backup.go:302-323 | the single-database form picks by modification time and finds the newest completed dump |
| BackupRuns.RestoreByFile | internal/backup/strategy.go:403-444 | naming any artifact of a complete set restores that set, every file a finished dump |
| BackupRuns.CleanBackup | internal/backup/strategy.go:340-398 | a run nothing goes wrong in completes its set and leaves at most keep artifacts of each strategy |
| BackupSkips.SkippingKeepsASetIff | internal/backup/strategy.go:464-481 | a run that leaves a strategy out keeps the newest complete set exactly when every strategy run has room for it among those it retains, told from the directory beforehand; otherwise no complete set is left |
| BackupSkips.SkippingLosesTheSet | internal/backup/strategy.go:464-481 | with one of each kind retained, any run that leaves a strategy out leaves no complete set |
| BackupRuns.StrategiesAreUsable | internal/backup/strategy.go:228-247 | every non-empty list of strategies meets what the backup theorems ask of a configuration |
| BackupRuns.BuildScript | internal/backup/strategy.go:340-398 | the loops write each dump with its rename, then the prunes, each pattern once |
| BackupRuns.PickNewest | internal/backup/strategy.go:403-444 | the loop over the listing keeps the last name whose set is complete |
| BackupRuns.Restore | internal/backup/strategy.go:403-444 | nothing is loaded unless every artifact is there; then the artifacts in order up to the first load that fails, all of them if none does |
| BackupRuns.RestoreNewest | internal/backup/strategy.go:403-444 | from any directory the backups leave, what is loaded is a front part of the newest complete set, every file a finished dump, and the whole set if no load fails |
| BackupRuns.RestoreNamed | internal/backup/strategy.go:403-444 | naming any artifact of a complete set loads that set and no other, however many newer ones there are, up to the load that fails |
| BackupRuns.RestoreRefused | internal/backup/strategy.go:403-444 | a named file that is not there, has no timestamp or is of an incomplete set loads nothing |
| BackupFrame.OtherFilesStay | internal/backup/strategy.go:340-398 | no backup, wherever it stops, touches a file that is not its own |
| BackupFrame.EnvIsCopied | internal/backup/strategy.go:340-398 | a run that goes well leaves its copy of the env file, and of the earlier copies exactly those among the newest retained |
| BackupPull.SetTimestampReadsBack | internal/backup/pull.go:16-30 | whatever else a run prints, the timestamp read from its report is the run's |
| BackupPull.FirstStampIsSaid | internal/backup/pull.go:16-30 | a timestamp read from any output is one, and stands after a dash in the first word behind the mark of one of its lines |
| BackupPull.SetFiles | internal/backup/pull.go:46-59 | the chosen names of the listing, in order |
| BackupPull.SetFilesPicksTheRun | internal/backup/pull.go:46-59 | from a directory of runs, env copies, half-written dumps and the rollback record, exactly the run's artifacts and env copy |
| BackupPull.ChosenAreSafe | internal/backup/pull.go:46-59 | whatever the listing, a name is chosen exactly when it can be joined onto a local directory, is no half-written dump, and carries the timestamp |
| HostKeys.OwnKeysChange | internal/hostkeys/hostkeys.go:423-437 | a command changes a host's own keys only from none to the one offered, or by Forget to none |
| HostKeys.AcceptedIff | internal/hostkeys/hostkeys.go:138-209 | in every reachable state, by what the two files hold, exactly which keys an unpinned connection accepts, when one is learned, and what is in the own file afterwards |
| HostKeys.PinnedAcceptedIff | internal/hostkeys/hostkeys.go:138-209 | under a pin exactly the pinned key, when no file speaks against it for the host or the address; nothing is written |
| HostKeys.PinnedIff | internal/hostkeys/hostkeys.go:467-489 | a pin is set exactly for a plain key no file speaks against |
| HostKeys.TrustOnFirstUse | internal/hostkeys/hostkeys.go:138-209 | once an unpinned connection accepted a key, every key accepted later is that key until Forget |
| HostKeys.StrictNeverLearns | internal/hostkeys/hostkeys.go:138-209 | over every run in strict mode, a host's own keys are among those it had and those the user's file holds |
| HostKeys.PinsNeverReachDisk | internal/hostkeys/hostkeys.go:454-489 | over every run, a key in the own file was there before or came in by an accepted connection made while the host had no pin |
| HostKeys.RsyncAgreesIff | internal/hostkeys/hostkeys.go:548-581 | in every reachable state, when the keys handed to rsync's ssh are exactly those accepted without learning |
| HostKeys.AlgorithmsAreTheKeys | internal/hostkeys/hostkeys.go:288-316 | the recorded types are those of the keys the file holds for the host |
| HostKeys.Store.Callback | internal/hostkeys/hostkeys.go:138-209 | the verdict and the new state, for a pinned, a recorded and an unknown host |
| HostKeys.Store.PinForRun | internal/hostkeys/hostkeys.go:467-489 | a pin is set only when no file contradicts it |
| HostKeys.Store.ResetSessionPins | internal/hostkeys/hostkeys.go:454-458 | every pin is gone and nothing else changes |
| HostKeys.Store.ForgetHost | internal/hostkeys/hostkeys.go:494-539 | the host's lines are dropped and counted, the others stay in order |
| HostKeys.Store.Algorithms | internal/hostkeys/hostkeys.go:254-284 | unpinned, a permutation of what the client supports with the recorded types first |
| DiffScan.ScanDiff | internal/guard/scan.go:94-123 | the loop is the fold of its line step over the lines |
| DiffScan.ScanDiffFindsAddedLines | internal/guard/scan.go:94-158 | for every well-formed diff, exactly the rule hits of the added lines, in order, with file and new line number |
| DiffScan.NoHunkNoHits | internal/guard/scan.go:94-123 | a text without a hunk header has no findings, whatever its lines look like |
| DiffScan.HunkStartReads | internal/guard/scan.go:144-158 | a hunk header's first new line is read back |
| DiffScan.HeaderReadsIff | internal/guard/scan.go:135-141 | a path is read off its header exactly when it ends in no quote and, unquoted, in no white space |
| DiffScan.GitNameIff | internal/guard/scan.go:125-141 | with no name on the +++ line the path is the one of the file's first line, read right exactly when " b/" is not in it |
| GitAlias.AliasWords | internal/guard/rules_git.go:891-926 | the loop with its flags is the lexer of the specification |
| GitAlias.WordsUndoQuoting | internal/guard/rules_git.go:891-926 | splitting undoes quoting for every list of words |
| GitAlias.WordsUndoWriting | internal/guard/rules_git.go:891-926 | however the words are written, bare, behind backslashes, in either quotes or pieced together, with any blanks around, splitting gives them back |
| GitAlias.SplitGit | internal/guard/git.go:54-68 | the loop's globals, subcommand and rest rejoin to the arguments |
| GitAlias.SplitIff | internal/guard/git.go:54-68 | they are the only split that does: options with their words, the first word that is neither, and what follows |
| GitAlias.Check | internal/guard/git.go:90-128 | the recursion ends after the allowed expansions, cyclic tables included |
| GitAlias.ExpandAlias | internal/guard/rules_git.go:47-61 | the loop is the repeated expansion, at most as often as allowed |
| GitAlias.ExpansionIsWhatWasChecked | internal/guard/rules_git.go:47-61 | whenever the check lets arguments through, the expansion is exactly the command it ended on, with nothing left to expand |
| GitAlias.RefusedIff | internal/guard/git.go:90-128 | the check refuses exactly when some command it comes to is refused itself, or the command after the last allowed expansion still has to be looked up |
| GitAlias.LetThroughIff | internal/guard/git.go:90-128 | in terms of the alias table, the refused options and the policy alone: the check comes to a command exactly when a chain of aliases leads there on which no option is refused, no lookup failed, and no shell alias stands that the policy does not name |
| PushArgs.ResolveMeans | internal/guard/git.go:216-233 | a name resolves to itself or to the one known name it abbreviates, and is ambiguous only when it abbreviates two |
| PushArgs.TokensUndoWriting | internal/guard/rules_git.go:98-162 | every list of arguments in the documented forms, written out as words, is read back as what was meant |
| PushArgs.DashesEnd | internal/guard/rules_git.go:98-162 | behind -- every word is a repository or refspec |
| PushArgs.ArgGivesIff | internal/guard/rules_git.go:98-162 | which argument gives which option: a long one its own, a cluster force with f and delete with d |
| PushArgs.KindsAre | internal/guard/rules_git.go:98-162 | the option names the guard looks at |
| PushArgs.SettingsMean | internal/guard/rules_git.go:98-162 | an option counts exactly when some word gives it, wherever it stands |
| PushArgs.ParsePush | internal/guard/rules_git.go:98-162 | parsePush's loop reads what the words mean one by one |
| PushArgs.CheckPush | internal/guard/git.go:416-483 | checkPush's loop reads the same, and refuses exactly when an option is ambiguous |
| PushArgs.SameDestinationIff | internal/guard/git.go:464-483 | the two remotes and refspecs are the same exactly when the last --repo among the words has no value or there is no word that is not an option's |
| PushArgs.RepoAndAWord | internal/guard/rules_git.go:98-162 | at --repo x y one reads the remote y, the other the remote x with the refspec y |
| PushArgs.BothReadings | internal/guard/rules_git.go:98-162 | on every argument list the two loops agree on delete, all, mirror, tags, the words and --repo, and on the destination under that condition on the words |
| GlobPattern.GlobRegexp | internal/guard/cloud.go:639-665 | the loop over the glob's bytes writes the expression of their tokens |
| GlobPattern.MatchesIff | internal/guard/cloud.go:639-665 | for every glob, wherever its stars stand, the expression accepts what the tokens of its bytes take one after the other |
| Globs.GlobIsItsBytes | internal/guard/cloud.go:639-665 | on a path without a line break, the expression of a glob in which `**` stands alone in its segment accepts exactly what the glob matches segment by segment with each byte taken for a character |
| Globs.GlobIsItsSegments | internal/guard/cloud.go:639-665 | for an ASCII glob, exactly what it matches segment by segment, `**` spanning any number of directories |
| Globs.AsciiIff | internal/guard/cloud.go:643-661 | such a glob is read right on every path without a line break exactly when it is ASCII or has a line break itself |
| Globs.NoLineBreakIff | internal/guard/cloud.go:639-665 | a path is read right for every ASCII glob exactly when it has no line break |
| Globs.NameMatchesItselfIffAscii | internal/guard/cloud.go:643-661 | a glob without wildcards matches the path of its name exactly when it is ASCII |
| Globs.Ignored | internal/guard/cloud.go:623-637 | true exactly when some glob matches the path or a directory above it |
| Globs.IgnoredBelow | internal/guard/cloud.go:620-637 | an excluded directory excludes every path under it |
| Globs.IgnoredBySegments | internal/guard/cloud.go:623-637 | ignored in terms of segments, for ASCII globs |
| FleetJson.CaptureUnknown | internal/fleet/unknown.go:35-49 | exactly the keys that are not known |
| FleetJson.MergeUnknown | internal/fleet/unknown.go:53-70 | the preserved keys beside the marshalled fields, a field first |
| FleetUnknown.Lossless | internal/fleet/unknown.go:105-199 | loading and saving with fewer fields and then loading with more gives what loading with more gives, fields and preserved keys, at every level, when the keys keep every field |
| FleetUnknown.LosslessIff | internal/fleet/unknown.go:105-199 | at every level that condition on the keys of an object is exact: where the objects inside lose nothing, it holds if and only if nothing is lost whatever the values |
| FleetUnknown.ExactKeysKeep | internal/fleet/unknown.go:78-100 | keys spelled as the newer program spells them keep every field |
| FleetUnknown.OthersSurviveAnEdit | internal/fleet/unknown.go:177-199 | saving more entries beside the loaded ones leaves those as they were |
| FleetUnknown.TypedWins | internal/fleet/unknown.go:53-70 | a field that is written has its own value in the file, whatever was preserved under its name |
| FleetUnknown.StrayCaseWins | internal/fleet/unknown.go:41-45 | a preserved key in another case that sorts after the field hands its value to the field on the next load |
| EnvFile.RunSet | internal/envfile/envfile.go:68-83 | the set program's loop |
| EnvFile.RunUnset | internal/envfile/envfile.go:86-99 | the unset program's loop |
| EnvFile.RunList | internal/envfile/envfile.go:103-107 | the list program's loop |
| EnvFile.ParseKeys | internal/envfile/envfile.go:139-151 | the first of each valid key, in order |
| EnvFile.AssignedIff | internal/envfile/envfile.go:68-99 | a line is for a key exactly when it is the key, the sign and some value, behind nothing or `export` and blanks |
| EnvFile.ForIffListed | internal/envfile/envfile.go:68-107 | a line is rewritten for a key exactly when it is listed under it |
| EnvFile.SetGivesOneValue | internal/envfile/envfile.go:68-83 | after a set the key has exactly the new value and every other line is kept in order |
| EnvFile.OtherKeysKeepTheirs | internal/envfile/envfile.go:68-99 | no set and no unset changes another key's values |
| EnvFile.SetKeepsThePlace | internal/envfile/envfile.go:68-83 | the line stands where the first line of the key stood, with its `export` prefix, else at the end |
| EnvFile.SetOverwrites | internal/envfile/envfile.go:68-83 | a second set overwrites the first, so a set is idempotent |
| EnvFile.UnsetUndoesSet | internal/envfile/envfile.go:86-99 | unset removes every line of the key and nothing else |
| EnvFile.ListOfSet | internal/envfile/envfile.go:103-107 | listing after a set is the listing plus that key |
| EnvFile.ListOfUnset | internal/envfile/envfile.go:103-107 | listing after an unset is the listing without that key |
| EnvFile.ListingComesBack | internal/envfile/envfile.go:131-151 | the listing parsed from the output is the file's |
| EnvFile.WrittenReadsBack | internal/envfile/envfile.go:68-99 | what set and unset write is read back line by line |
| EnvFile.Host.Set | internal/envfile/envfile.go:110-119 | refused without a change, or the key has exactly the value |
| EnvFile.Host.Unset | internal/envfile/envfile.go:122-128 | refused without a change, or the key has no value; a missing file stays missing |
| EnvFile.Host.List | internal/envfile/envfile.go:131-137 | the keys of the file in order without repeats |
| RunnerInstall.Install | internal/ghrunner/ghrunner.go:216-322 | the state of the VM, the commands sent, the report and the result |
| RunnerInstall.Host.Run | internal/ghrunner/scripts.go:73-160 | a script stops at its first failing line |
| RunnerInstall.AttemptKeeps | internal/ghrunner/ghrunner.go:216-322 | one attempt, wherever it stops: nothing reached is lost, a registered runner is not registered again, and the marker is there only with the dependencies |
| RunnerScripts.InstallSound | internal/ghrunner/scripts.go:73-97 | the marker is written only after the dependencies are installed |
| RunnerInstall.AttemptsKeepSound | internal/ghrunner/ghrunner.go:216-322 | the same over any chain of attempts |
| RunnerInstall.ReadyIsLeftAlone | internal/ghrunner/ghrunner.go:259-272 | a ready runner without the limits flag gets the probe and nothing else |
| RunnerInstall.SendsWhatIsDue | internal/ghrunner/ghrunner.go:216-322 | a repo that is not private gets no connection, an unsupported architecture only the probe, and any other VM a front part of the commands its state is due, all of them when the attempt succeeds |
| RunnerInstall.ReportIsTrue | internal/ghrunner/ghrunner.go:216-322 | the report says installed, configured, started and limits applied exactly when the VM became so; the service counts as installed once its script was sent where there was no unit |
| RunnerInstall.CleanInstallIff | internal/ghrunner/ghrunner.go:216-322 | an attempt in which nothing goes wrong brings the runner up exactly when no unit is orphaned and, if there is something to unpack, the docker group exists |
| RunnerInstall.NextCleanInstallConverges | internal/ghrunner/ghrunner.go:216-322 | after any attempts, each stopped anywhere, the next clean one reaches unpacked, registered, unit installed and active |
| RunnerInstall.Remove | internal/ghrunner/ghrunner.go:341-394 | the removal step by step, each call of svc.sh free to fail, falling back to a local one |
| RunnerInstall.RemovedIff | internal/ghrunner/ghrunner.go:341-394 | exactly when a removal is done, and when only the VM forgot the registration |
| RunnerInstall.RemoveLeaves | internal/ghrunner/ghrunner.go:341-394 | how far it got otherwise: the files go only after the registration |
| RunnerInstall.ReinstallAfterRemoveIff | internal/ghrunner/scripts.go:165-177 | after a removal a clean install succeeds exactly when there was no unit or svc.sh uninstalled it, and the unit still runs exactly when it did and svc.sh did not stop it |
| RunnerProbe.ParseProbe | internal/ghrunner/ghrunner.go:191-212 | the loop over the probe's lines |
| RunnerProbe.ProbeReads | internal/ghrunner/scripts.go:56-66 | the state parsed from the probe's output is what the probe found |
| RunnerProbe.NothingReported | internal/ghrunner/ghrunner.go:191-212 | output without a field reads as a VM with nothing on it |
| RunnerProbe.ExtraLabels | internal/ghrunner/ghrunner.go:101-115 | the loop with its set of labels seen |
| RunnerProbe.ExtraAsked | internal/ghrunner/ghrunner.go:101-115 | no label is added that is built in or was not asked for |
| RunnerProbe.ExtraOnce | internal/ghrunner/ghrunner.go:101-115 | every other label is there once, cases taken together |
| PatchRun.FailedContainers | internal/patch/patch.go:471-493 | the broken containers by name, each as often as it is listed |
| PatchRun.Compare | internal/patch/patch.go:506-520 | empty exactly when every container that ran still runs, healthy unless it was unhealthy before, and nginx is as good as it was; and which problem each finding is |
| PatchRun.NothingBrokeIff | internal/patch/patch.go:471-520 | field by field, what it means that nothing broke |
| PatchRun.RunUpdate | internal/patch/patch.go:396-419 | one start, polls up to the one that sees the unit end or as many as allowed, the unit's log when it failed, and the cleanup; done exactly when it ended well |
| PatchRun.UnitStates | internal/patch/patch.go:276-300 | when a unit still runs and when it ended well |
| PatchRun.Reboot | internal/patch/patch.go:421-445 | at most one reboot command, then as many dials as allowed, each that gets through followed by a look at the boot id; done exactly at the first that is neither empty nor the old one |
| PatchRun.Verify | internal/patch/patch.go:448-465 | snapshots up to the first in which nothing broke or as many as allowed, the last readable one kept |
| PatchRun.Run | internal/patch/patch.go:305-389 | the log of a run by its phases, with the report and the end they force |
| PatchRun.AtMostOnce | internal/patch/patch.go:305-389 | whatever the host answers, the reboot is sent at most once and the update started at most once |
| PatchRun.RebootIsJustified | internal/patch/patch.go:355-370 | a reboot is sent only when the host's last answer was yes, the caller agreed, and the update ended in success or nothing was pending |
| PatchRun.DryRunSendsNothing | internal/patch/patch.go:332-341 | a dry run sends neither update nor reboot |
| PatchRun.RebootedMeansNewBoot | internal/patch/patch.go:421-445 | a reboot is reported exactly when, after the command was taken, the host gave a boot id that is neither empty nor the one it had |
| PatchRun.CleanMeansCameBack | internal/patch/patch.go:373-389 | a run that was compared ends well exactly when its last answer is a snapshot in which nothing broke |
| PatchRun.CleanMeansRebootedAsAgreed | internal/patch/patch.go:355-371 | a run that does not fail rebooted exactly when it was no dry run, the host said yes last and the caller had agreed |
| PatchRun.UpdateIsDue | internal/patch/patch.go:318-353 | an update is started only outside a dry run, with updates counted, on a host whose package manager is known |
| PatchRun.AskedIff | internal/patch/patch.go:360-367 | once the update is done, the caller is asked exactly when the host said yes, asking is possible and no consent was given beforehand |
| Versions.CompareVersions | internal/prove/prove.go:376-427 | the loops compute the order the laws are about |
| Versions.Antisymmetric | internal/prove/prove.go:376-427 | swapping the versions negates the answer |
| Versions.Transitive | internal/prove/prove.go:376-427 | transitive on every three strings |
| Versions.ZerosPad | internal/prove/prove.go:379-395 | zeros at the end of the numeric parts make no difference |
| Versions.RenderReads | internal/prove/prove.go:429-443 | splitting a version's text finds its numbers and prerelease and drops build metadata |
| Versions.Agrees | internal/prove/prove.go:374-427 | the texts of two versions that fit compare exactly by the precedence of section 11, ties included, whatever their build metadata |
| Versions.AgreesIff | internal/prove/prove.go:374-443 | a version's text is ordered right against every version that fits exactly when it fits: its numbers fit an int and no identifier is a hyphen before digits whose value does |
| Versions.Latest | internal/prove/prove.go:342-372 | a recorded version none exceeds, and none only when nothing is recorded |

## Left out

- The recipe form of a release, `releaseRecipe`. The second building of the verification plan failing after the deploy is a cut there.
- The time window in which a record counts as active, and two clients at one record beyond the lock.
- Redaction, hints, JSON envelopes and the notes of a report, `NewKernel` among them.
- What a step of a release does: it is any outcome, cut or not, and any images left running.
- The verification of a rollback after it is applied.
- The commands inside a backup line (pg_dump, tar, zip): a line writes its file whole or in part, or fails.
- ReleaseRun.ReleaseClear: a release record that is not valid JSON makes the clear fail although the message on that record says to clear it; the model follows the code.
- HostKeys.Store.Callback: certificate authority lines and hashed host names are not modelled; keys are values with equality.
- DiffScan.ScanDiffFindsAddedLines: paths git prints with C escapes are not decoded by the code, and a rendered diff here has none.
- The rules themselves: what one added line hits is a parameter.
- GitAlias.Check: the number of expansions is a parameter, five in the source, and an alias's value is given as the readers trim it.
- PushArgs.CheckPush: the list of long options and which take a value are parameters; what follows the loop, from resolving the remote on, is left out.
- GlobPattern.GlobRegexp: path.Clean and the leading "./" are applied before; the regular expressions are syntax trees with their usual meaning, anchored at both ends.
- FleetUnknown.Lossless: a value of the wrong type, which makes a load fail, is not modelled, nor is a null that follows another value of the same field; future fields inside a nested type that keeps none, such as a backup strategy, are lost.
- EnvFile.Host.Set: NUL bytes, file modes, and a rewrite cut off halfway.
- RunnerInstall.NextCleanInstallConverges: svc.sh installs its unit and .service in one step, and a clean install meets a unit that comes up; a cut inside svc.sh is the orphaned unit of CleanInstallIff.
- RunnerInstall.Remove: a cut in the middle of deleting the directory, and the resource limits' drop-in.
- PatchRun.Run: the host's answers are taken as parsed, and a boot id as trimmed; with an unreadable boot id before the reboot any later one counts as new.
- Versions.Latest: which file names hold a valid version is a parameter.
- Health verdicts, validators, fleet lookups, discovery, provisioning and hardening scripts, which would add easy members only.
