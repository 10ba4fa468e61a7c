# Verified models of the CI and evidence framework

This project models the decision-making code of the ModSecurity test framework in Dafny and proves
what that code is relied on for. `dafny verify dfyconfig.toml` checks everything.

| files | component |
|---|---|
| `ProcessTable`, `OwnedTree`, `OwnedTreeSafety`, `OwnedTreeKill`, `OwnedTreeDescent`, `OwnedTreeLimits`, `OwnedTreeReach` | terminating an owned process tree while it forks, exits and is reparented |
| `GitTree`, `AuthenticatedTree`, `AuthenticatedMeaning`, `TreeInventory` | parsing Git tree objects, the bounded, authenticated traversal of a commit, what its texts mean and what its bounds bound |
| `MrtsResults`, `MrtsEvidence`, `MrtsOutcomes`, `NativeReport` | outcome accounting of MRTS runs, the written job, and the report that reads it back |
| `Versions`, `ReleaseResolver`, `ReleaseLines`, `PlanUpdates`, `MaintenanceTransaction` | version order and policies, the release planner, collecting one plan, and the transaction that applies it |
| `Sorting`, `Expectations`, `ExpectationRoundTrip`, `ExpectationMatching`, `ExpectationMeaning`, `ExpectationRules`, `ExpectationRefusals`, `ResultRules` | the closed union of expectations: normal form, matcher, meaning, and what each field may say |
| `TextLines`, `WorkflowEdits`, `WorkflowText` | expanding action calls in workflow sources by line edits, and where every line ends up |
| `CanonicalPins` | reading pin assignments with references |
| `PublicSourceTree`, `MrtsPackage`, `PackageMeaning` | the bounded source walk, and preparing, verifying and materializing packages |
| `Wrappers`, `Collections`, `Characters` | `Option` and `Result`; letters and digits; distinct sequences, members, prefixes, disjoint maps |

Loops and objects of the original are methods and classes here, each proved against a function; what
the framework promises is then proved about those functions.

## What is assumed of the surroundings

* **Processes.** A process identity is the pair of parent pid and start time, start times are unique
  and init has the first one, a reading of `/proc` is atomic, and so is one check-and-signal. Only a
  running process forks, an orphan goes to init, and nobody outside sends SIGCONT. The environment is
  an arbitrary function from the supervisor's next reading to the steps taken before it, so each
  statement covers every interleaving of forks, exits and reaps.
* **Git objects.** A store maps identities to authenticated objects; hashing is not opened up.
* **Releases.** A listing is any list of the distinct stable tags sorted on unpadded number tuples;
  equal tuples may come in any order. Peeling and the runner-build manifest are arbitrary functions.
* **Maintenance.** The edit of `common.sh` and both generator runs may change any tracked file and
  may raise.
* **Packages.** The staged files, the case loader, the scan for rule ids and the port rewriting are
  arbitrary functions; digests are injective only where a lemma says so.
* **Documents.** JSON and YAML are taken as parsed values; marks of the YAML parser are given lines.

## Promises that do not hold as stated

Each of these is kept as the code has it. A lemma gives inputs that show the failure, and another
one says when the promise does hold.

* **Closing the tree.** Leaving the stop loop through the break in round two or later closes the
  selection under every interleaving (`FreezeClosure`). Neither half of that guard can be dropped.
  For every running, childless started process there is an interleaving that leaves the loop in round
  one with a live child that is never selected and outlives the kill phase (`FirstRoundBreakLeaks`).
  And sixteen rounds admit sixteen generations: with no interference at all, every running eighteenth
  member of a line of processes is left unselected by an unsettled loop and outlives the kill phase
  (`DeepTreeLeaks`). Without interference the loop settles if and only if no line has more than sixteen
  members (`QuietLoopSettlesExactlyWhen`), and nobody is left if and only if none has a live eighteenth
  (`QuietTreeDiesExactlyWhen`).
* **Killing the tree.** Three kinds of live descendants escape the kills. Admission skips every pid
  that was ever selected, whoever holds it now, so a child that takes over a selected pid escapes a
  settled loop (`ReusedPidLeaks`). A descendant whose own parent exited before it was admitted has
  init as its parent; such orphans arise below every running process (`OrphansArise`), and under
  every interleaving none of them is ever selected (`OrphanLeaks`). And a started process that lost
  its recorded parent no longer has its recorded identity. When nothing else ends descendants,
  members or members' parents while the kills go out, no descendant is left after a loop settled in
  round two or later if and only if at the freeze there was none of these three
  (`NobodyIsLeftUnlessAstray`); after any loop at all, if and only if every live descendant was a
  member with its recorded identity (`NobodyIsLeftExactlyWhen`). For the processes still attached to
  the started one through current parents, `NothingEscapes` states the first without orphans.
  Unrelated processes on reused pids do no harm.
* **Bounding the inventory.** The traversal compares the inventory with its bound when it takes a
  tree, so the leaves of the tree taken last are never compared: the one at the end of the chain of
  first directories. A commit is accepted if and only if its tree unfolds, and to no more than the
  bound without those leaves (`AuthenticatedFiles`). A root tree of 262144 gitlinks is accepted
  (`FlatCommitIsAccepted`), and so is a flat tree of any readable size (`FlatIsWithinBounds`).
* **The bound candidate.** `apply_safe_updates` compares `common.sh` with the candidate digest before
  the generators run and never again, and `common.sh` is itself an allowed path, so a generator can
  replace it (`GeneratorMayReplaceCandidate`). Every success leaves the candidate if and only if the
  generators' accepted runs keep the digest (`CandidateExactlyWhenDigestIsKept`).
* **Rolling back.** When a generator writes a tracked file outside the allowed set after an edit as
  planned, the path check fails the transaction and then stops the rollback as well: that file keeps
  what was written, and `common.sh` keeps the candidate (`EscapingSyncIsNotUndone`; for an edit that
  escapes, `EscapingEditIsNotUndone`). A rollback completes if and only if the failing steps touched
  no such file (`ApplySafeUpdates`).
* **Shifting left and back.** A text with a line that has text at the margin does not come back
  (`LeftShiftCutsText`). The block comes back if and only if only spaces were cut
  (`ShiftLeftAndBackExactlyWhen`). Shifting right and back always gives the block.
* **Rewriting outputs twice.** Of two calls of one job that rewrite the job's outputs line for line
  only the smaller text stands, and nothing of the other one is lost if and only if the texts are
  equal (`SharedRangeKeepsOne`). If the text applied first does not fill the block, the other one hits
  shifted lines: the lines below survive if and only if it filled the block, or fell short of it at
  the very end of the document (`SharedRangeIsCleanExactlyWhen`). What every document becomes, also
  then, is its overlay (`ExpandWorkflow`).
* **Nested pin references.** A file in which a pin holds its own name and a second pin puts that name
  in brackets is accepted if and only if there are at most four of them, although any number resolves
  (`DeepNestingRefusesTheFile`, `DeepNestingIsRefused`). A value is accepted if and only if unlimited
  resolution reaches one within four passes (`BoundedResolution`).

One promise holds for a reason outside the package code. `prepare` records the case ids before it
rewrites paths and `verify` compares them after it, so a prepared package verifies if and only if the
rewriting left the ids alone (`PreparedVerifiesExactlyWhen`). The repository's loader reads of a case
every field but the provenance, and of `origin` only whether it is in order; for any such loader the
ids stay (`ViewLoaderIgnoresProvenance`, `PreparedVerifies`).

## Model

| member | source | states |
|---|---|---|
| ProcessTable.RunKeeps | modsecurity_test_framework/connector_integration.py:545-563 | any sequence of forks, exits and reaps keeps the process table sound and only moves it forward: identities survive or are lost to init, origins never change |
| ProcessTable.DeliverKeeps | modsecurity_test_framework/connector_integration.py:558-563 | a delivered signal does the same |
| ProcessTable.DescentIsPermanent | modsecurity_test_framework/connector_integration.py:566-590 | once a descendant, always a descendant, through reparenting |
| ProcessTable.DescentGoesForward | modsecurity_test_framework/connector_integration.py:566-590 | a descendant started no earlier than its ancestor |
| OwnedTree.Supervisor.SignalOwnedProcess | modsecurity_test_framework/connector_integration.py:558-563 | signals only a pid whose current identity is the recorded one, after a fresh reading; no identity, no reading |
| OwnedTree.Supervisor.SignalAll | modsecurity_test_framework/connector_integration.py:584-589 | one check-and-signal per member, in order |
| OwnedTree.Supervisor.StopWave | modsecurity_test_framework/connector_integration.py:571-587 | one round: reading, admissions through matching parents, a SIGSTOP to every member, and whether anything was admitted |
| OwnedTree.Supervisor.TerminateOwnedTree | modsecurity_test_framework/connector_integration.py:566-590 | at most sixteen rounds, then SIGKILL in reverse order of admission |
| OwnedTree.AdmissionIsOwned | modsecurity_test_framework/connector_integration.py:573-583 | an admitted pid is a fork of a member that still had its recorded identity, hence a true descendant of the started process |
| OwnedTree.AdmissionTracks | modsecurity_test_framework/connector_integration.py:575-583 | after an admission every member but the first stands behind its parent in the order |
| OwnedTree.TracksIsStable | modsecurity_test_framework/connector_integration.py:566-590 | nothing the environment does falsifies what is recorded about members |
| OwnedTreeSafety.SweepKeeps | modsecurity_test_framework/connector_integration.py:584-589 | a sweep keeps the invariants and sends signals only to members that matched when it began |
| OwnedTreeSafety.StopSweepHolds | modsecurity_test_framework/connector_integration.py:584-585 | after a stop sweep no member with its recorded identity is running |
| OwnedTreeSafety.StoppedParentsDoNotFork | modsecurity_test_framework/connector_integration.py:573-587 | a child seen under a stopped member was already there before the reading |
| OwnedTreeSafety.SettledRoundCloses | modsecurity_test_framework/connector_integration.py:571-587 | a round that admits nothing after an earlier stop wave leaves no live unselected child of a matching member |
| OwnedTreeSafety.RoundsKeep | modsecurity_test_framework/connector_integration.py:571-587 | ownership and admission order hold after every round of every run |
| OwnedTreeSafety.FreezeClosure | modsecurity_test_framework/connector_integration.py:566-587 | leaving the stop loop through the break in round two or later closes the selection, under every interleaving |
| OwnedTreeKill.WaitingMemberKeepsItsParent | modsecurity_test_framework/connector_integration.py:588-590 | killing in reverse admission order never reparents a member that still waits for its signal |
| OwnedTreeKill.KillSweep | modsecurity_test_framework/connector_integration.py:588-590 | when nothing else ends members meanwhile, every member that matched at the start of the kill phase is dead after its turn |
| OwnedTreeKill.MatchingMembersDie | modsecurity_test_framework/connector_integration.py:588-590 | so every matching member is dead at the end |
| OwnedTreeKill.KillPhase | modsecurity_test_framework/connector_integration.py:588-590 | a member alive at the freeze is dead in the end if and only if it still had its recorded identity then |
| OwnedTreeKill.AttachedIsSelected | modsecurity_test_framework/connector_integration.py:571-587 | with closure and no live attached process on a reused selected pid, every live process attached to the started one is selected and matching |
| OwnedTreeKill.HiddenSurvives | modsecurity_test_framework/connector_integration.py:558-590 | a live process on a selected pid with another start time is never signalled and outlives the kill phase |
| OwnedTreeKill.NothingEscapes | modsecurity_test_framework/connector_integration.py:566-590 | after a loop settled in round two or later every process attached to the started one is dead in the end if and only if no live one of them holds a selected pid under another start time and the started process, if it still lives, has its recorded identity; and then none forked after the freeze |
| OwnedTreeKill.EverySignalIsOwned | modsecurity_test_framework/connector_integration.py:558-590 | over a whole run every signal reaches the started process or a true descendant, and SIGKILL only members that matched at the freeze |
| OwnedTreeDescent.DescendantIsMember | modsecurity_test_framework/connector_integration.py:571-587 | in a closed selection in which no live descendant went astray, every live descendant is a member with its recorded identity |
| OwnedTreeDescent.DescendantsAreOld | modsecurity_test_framework/connector_integration.py:584-590 | while no descendant runs, no later process is one: a new descendant would be a fork of a running descendant |
| OwnedTreeDescent.ClosedAllMatchExactlyWhen | modsecurity_test_framework/connector_integration.py:571-587 | in a closed selection every live descendant is a matching member if and only if none is on a reused selected pid, none but the started process has init as parent, and the started process has its recorded identity |
| OwnedTreeDescent.NobodyIsLeftExactlyWhen | modsecurity_test_framework/connector_integration.py:566-590 | after every run, settled or not, no descendant of the started process is alive, old or forked later, if and only if every live descendant was a member with its recorded identity at the freeze |
| OwnedTreeDescent.NobodyIsLeftUnlessAstray | modsecurity_test_framework/connector_integration.py:566-590 | after a loop settled in round two or later, nobody is left if and only if no live descendant was on a reused selected pid, orphaned, or the started process without its recorded identity |
| OwnedTreeLimits.FirstRoundBreakLeaks | modsecurity_test_framework/connector_integration.py:586-587 | for any running childless started process a fork between the first reading and its SIGSTOP is never selected and escapes |
| OwnedTreeLimits.ReusedPidLeaks | modsecurity_test_framework/connector_integration.py:575-582 | a child that reuses a selected pid is never admitted and survives, although the loop settled in round two |
| OwnedTreeLimits.DeepTreeLeaks | modsecurity_test_framework/connector_integration.py:571-590 | without any interference a running eighteenth member of a line from the started process down is left unselected by sixteen unsettled rounds and outlives the kill phase |
| OwnedTreeLimits.OrphanLeaks | modsecurity_test_framework/connector_integration.py:571-590 | under every interleaving a live descendant that has init as its parent before the first reading is never selected and is alive in the end |
| OwnedTreeLimits.OrphansArise | modsecurity_test_framework/connector_integration.py:573-583 | below every running process a fork, a fork of that child and its exit leave such an orphan |
| OwnedTreeReach.QuietLoopSettlesExactlyWhen | modsecurity_test_framework/connector_integration.py:571-587 | without interference the stop loop settles if and only if no line of processes from the started one down has more than sixteen members |
| OwnedTreeReach.QuietTreeDiesExactlyWhen | modsecurity_test_framework/connector_integration.py:566-590 | without interference and orphans no descendant is alive in the end if and only if no line from the started process down has a live eighteenth member |
| GitTree.TreeEntries | modsecurity_test_framework/connector_integration.py:208-227 | the cursor loop computes the row-by-row parse, errors included |
| GitTree.NextEntryPrints | modsecurity_test_framework/connector_integration.py:211-226 | an accepted row is byte for byte the print of its entry, with a safe new name and an allowed mode |
| GitTree.PrintParsed | modsecurity_test_framework/connector_integration.py:208-227 | printing an accepted payload gives it back, its names are unique, and n entries take at least 28n bytes |
| GitTree.ParsePrinted | modsecurity_test_framework/connector_integration.py:208-227 | parsing the print of a valid entry list gives back the list |
| GitTree.AcceptsExactlyPrints | modsecurity_test_framework/connector_integration.py:208-227 | a payload parses to a list if and only if the list is valid and the payload is its print |
| AuthenticatedMeaning.RowIsAcceptedExactlyWhen | modsecurity_test_framework/connector_integration.py:211-226 | a complete row is accepted if and only if the text before its first space is 40000, 100644, 100755, 120000 or 160000 and its name is allowed and new; its mode is what that text spells and its identity the lowercase hexadecimal of its twenty bytes |
| AuthenticatedMeaning.BrokenRowIsRefused | modsecurity_test_framework/connector_integration.py:211-223 | a row without its NUL or its twenty identity bytes is truncated, one without a space is unsafe |
| AuthenticatedMeaning.ReadTreeIsWritten | modsecurity_test_framework/connector_integration.py:208-227 | an accepted tree object is, byte for byte, the mode text, space, name, NUL and identity bytes of its entries |
| AuthenticatedTree.Traversal.CollectEntries | modsecurity_test_framework/connector_integration.py:230-239 | takes over every leaf and child exactly when every non-gitlink blob authenticates, with the `seen` shortcut |
| AuthenticatedTree.MeasureSplits | modsecurity_test_framework/connector_integration.py:230-239 | the unfolded size of a tree is its leaves plus what its children unfold to |
| AuthenticatedTree.ExploreStep | modsecurity_test_framework/connector_integration.py:242-257 | expanding one popped tree keeps map, pending list and reachable paths in step, and no assignment overwrites another |
| AuthenticatedTree.Traversal.Expand | modsecurity_test_framework/connector_integration.py:230-257 | one accepted pop accounts for every tree and leaf it adds; a failure means the commit is not within bounds |
| AuthenticatedTree.LastAheadStep | modsecurity_test_framework/connector_integration.py:251-256 | the bottom of the work list always leads, by first directories, to the one tree whose leaves are not compared with the bound |
| AuthenticatedTree.RemainingHoldsLast | modsecurity_test_framework/connector_integration.py:251-255 | what is pending unfolds to at least one tree each and the leaves of the last tree, so a refusal at a pop is final |
| AuthenticatedTree.Traversal.Walk | modsecurity_test_framework/connector_integration.py:242-257 | terminates on every store after at most 100001 pops, returns the path-by-path resolution, and succeeds exactly on trees within bounds |
| AuthenticatedTree.FaithfulIsUnique | modsecurity_test_framework/connector_integration.py:242-257 | the resolution determines the map, so the order of the work list does not matter |
| AuthenticatedTree.AuthenticatedFiles | modsecurity_test_framework/connector_integration.py:242-257 | a commit is accepted if and only if its tree unfolds readably within the depth bound and, without the leaves of the tree expanded last, within the size bound; the returned map then resolves exactly the paths of that tree, every blob in it was authenticated, and pops plus paths are the whole unfolded tree |
| AuthenticatedMeaning.ExemptExactlyWhenGitlink | modsecurity_test_framework/connector_integration.py:235-239 | every path of the map ends in a row of an authentic tree, and its blob was authenticated unless that row spells 160000 |
| AuthenticatedMeaning.NeedsNoBlobExactlyWhen | modsecurity_test_framework/connector_integration.py:235-239 | an accepted row needs no authentic blob if and only if it spells 160000 |
| AuthenticatedMeaning.RootTreeMeans | modsecurity_test_framework/connector_integration.py:243-247 | the root tree is named by a first line that is exactly `tree `, forty lowercase hexadecimal digits, and the end of the line or of the commit |
| AuthenticatedMeaning.NestedIsWithinBoundsExactlyWhen | modsecurity_test_framework/connector_integration.py:251-255 | trees nested in each other are accepted if and only if there are at most 129, so no path has more than 128 slashes above its last tree |
| TreeInventory.FlatIsWithinBounds | modsecurity_test_framework/connector_integration.py:251-256 | a root tree without subtrees is accepted however many authentic entries it has |
| TreeInventory.FlatCommitIsAccepted | modsecurity_test_framework/connector_integration.py:242-257 | for every n up to 262144 a commit whose root tree holds n gitlinks is accepted |
| MrtsResults.CollectObservedIds | ci/lib/mrts_results.py:47-57 | the outcome dictionary records every listed result in order, or raises the first list error |
| MrtsResults.ClassifyObservedIds | ci/lib/mrts_results.py:60-73 | one outcome per distinct id, with duplicates and unselected ids named as errors |
| MrtsResults.TotalReported | ci/lib/mrts_results.py:88-92 | summing the dictionary counts every reported result |
| MrtsResults.Observe | ci/lib/mrts_results.py:76-116 | the whole accounting is the reference summary, errors included |
| MrtsEvidence.CleanExactlyWhenAllPassed | ci/lib/mrts_results.py:76-116 | complete, nothing failed, skipped or ignored if and only if the selection is nonempty and valid, the passed list is a permutation of it, the other lists are empty and the reported run agrees |
| MrtsEvidence.ObservedConserves | ci/lib/mrts_results.py:76-116 | selected = missing + observed-and-expected, and the outcome classes sum to the distinct observed ids |
| MrtsOutcomes.ClassOfCase | ci/lib/mrts_results.py:31-73 | a case is listed if and only if one of the six lists names it; it is UNEXPECTED exactly when a selection leaves it out, INVALID exactly when reported more than once, and otherwise PASS, FAIL, SKIP, IGNORED, FORCED_PASS or FORCED_FAIL exactly when the one list naming it is `success`, `failed`, `skipped`, `ignored`, `forced-pass` or `forced-fail` |
| MrtsOutcomes.NumbersMean | ci/lib/mrts_results.py:88-116 | every number of the record is the size of a set of ids read off the six raw lists, and the failed cases are exactly the ids the `failed` list alone names |
| MrtsOutcomes.ErrorsMean | ci/lib/mrts_results.py:63-101 | which error is recorded exactly when, and that the result is complete if and only if there is none, nothing is missing and the selection is not empty |
| MrtsOutcomes.AcceptedExactlyWhen | ci/lib/mrts_results.py:41-57 | the accounting raises if and only if a selected id is malformed, a list is unreadable, or the run count is no natural number |
| MrtsOutcomes.CaseIdMeans | ci/lib/mrts_results.py:30 | a case id is digits, a dash and digits |
| MrtsEvidence.SuccessWasAnnounced | ci/lib/mrts_results.py:119-146 | a success read from a log was announced by a running line for the same id |
| MrtsEvidence.ScanLog | ci/lib/mrts_results.py:119-141 | the line loop with its `current` case computes the reference scan |
| MrtsEvidence.ResultsFromLog | ci/lib/mrts_results.py:119-146 | the fallback results, with the total printed by the log when there is one |
| MrtsOutcomes.LogMeans | ci/lib/mrts_results.py:119-134 | the successes of a log are, in order, the cases of the lines that say "passed in" for the case last announced, not taken up since; its failures are those named by the lines that say "failed" |
| MrtsOutcomes.ListedMean | ci/lib/mrts_results.py:135-142 | of the listed failures exactly the well-formed ones not known before are added, each once |
| MrtsEvidence.LogConserves | ci/lib/mrts_results.py:119-146 | a log fallback conserves counts and is never complete |
| MrtsEvidence.GatherIsCleanExactlyWhenJustified | ci/lib/mrts_results.py:259-287 | over all exception paths the gathered results are clean exactly when all selected cases passed once |
| MrtsEvidence.GatherConserves | ci/lib/mrts_results.py:259-287 | conservation also holds on the fallback paths |
| MrtsEvidence.WriteJob | ci/lib/mrts_results.py:259-324 | PASS is written if and only if PASS was asked for, the exit code is 0 and the inputs justify it; FAIL, INCOMPLETE and the exit codes likewise |
| NativeReport.CollectRunCounts | ci/reporting/generate-mrts-native-report.py:189-210 | the report's fallbacks compute the reference counts |
| NativeReport.CountsAreCleanExactlyWhenJustified | ci/reporting/generate-mrts-native-report.py:189-210 | re-read counts are clean if and only if every selected case passed in what is re-read |
| NativeReport.NormalStatusMeans | ci/reporting/generate-mrts-native-report.py:257 | a status is shown with its ASCII letters in upper case and its dashes as underscores, nothing else changed, and an empty one as UNKNOWN |
| NativeReport.NormalizeJob | ci/reporting/generate-mrts-native-report.py:238-283 | PASS is shown if and only if the stored status reads PASS, the exit code is the integer 0 and the re-read observations justify it |
| NativeReport.WriteThenReport | ci/reporting/generate-mrts-native-report.py:238-283 | a written PASS is shown as PASS when the same sources are read back, and a shown PASS was justified when written |
| Versions.PiecesJoin | ci/tools/canonical_maintenance.py:303-306 | the pieces of a version are the dot-free strings whose dotted join it is |
| Versions.NumberOfDecimal | ci/tools/canonical_maintenance.py:303-306 | a piece in decimal notation is read as its number |
| Versions.CompareIsRank | ci/tools/canonical_maintenance.py:309-315 | zero padding compares number by number, a missing one counting as zero |
| Versions.CompareIsTotalPreorder | ci/tools/canonical_maintenance.py:309-315 | comparison is reflexive, sign-symmetric and transitive on stable versions |
| Versions.LexImpliesRank | ci/tools/canonical_maintenance.py:309-315 | the unpadded tuple order refines the padded comparison |
| Versions.LastIsMaximal | ci/tools/canonical_maintenance.py:527-533 | the last tag of a list sorted on unpadded tuples is maximal for the padded comparison |
| Versions.PolicyIsEquivalence | ci/tools/canonical_maintenance.py:318-333 | all four update policies are equivalence relations on stable versions |
| ReleaseLines.VersionOfNumbers | ci/tools/canonical_maintenance.py:303-306 | two to four numbers in decimal notation, with or without a leading v, are a stable version with just these parts; one number or five are none |
| ReleaseLines.VersionExactlyWhen | ci/tools/canonical_maintenance.py:38 | a text is a stable version if and only if it is two to four runs of digits between dots, after at most one v |
| ReleaseLines.LinesMean | ci/tools/canonical_maintenance.py:318-335 | on the numbers two versions spell: patch and minor updates keep the first two, major updates the first, and the last policy the second one as well below 1 |
| ReleaseLines.OrderMeans | ci/tools/canonical_maintenance.py:309-315 | the first difference of the spelled numbers decides, a missing one counting as zero |
| ReleaseResolver.LatestIsBest | ci/tools/canonical_maintenance.py:606-626 | no listed release is newer than latest upstream, and none on the line newer than latest compatible |
| ReleaseResolver.UpdatesAreSafe | ci/tools/canonical_maintenance.py:629-795 | an update strictly raises the version, stays on its line, never passes latest upstream, and carries the peeled commit of a listed release |
| ReleaseResolver.NothingNewerOnTheLine | ci/tools/canonical_maintenance.py:606-626 | after an update no listing of the same releases ends higher on its line |
| ReleaseResolver.PlanConverges | ci/tools/canonical_maintenance.py:568-795 | applying an update and resolving again plans nothing; the second check goes through exactly when commit and latest release can be confirmed |
| ReleaseResolver.PythonConverges | ci/tools/canonical_maintenance.py:815-897 | the interpreter pin converges as well, and its second check is never blocked |
| ReleaseLines.CheckedExactlyWhen | ci/tools/canonical_maintenance.py:568-760 | a release check goes through if and only if tag, ref, aliases and approved commit name one release, its line is listed and not older, and the releases to propose or review can be peeled; it updates exactly when the pins are behind their line |
| ReleaseLines.PythonCheckedExactlyWhen | ci/tools/canonical_maintenance.py:815-860 | the interpreter pin is checked if and only if it is listed and a newer patch release, where there is one, has a build |
| PlanUpdates.UniqueUpdates | ci/tools/canonical_maintenance.py:2445-2457 | there is a plan if and only if no two outdated components disagree on a variable; it holds exactly what they propose, one update for each variable, in order of the variables |
| PlanUpdates.PlanIsUnique | ci/tools/canonical_maintenance.py:2445-2457 | the plan does not depend on the order of the components |
| MaintenanceTransaction.Worktree.SnapshotAllowedViews | ci/tools/canonical_maintenance.py:2540-2557 | snapshots exactly the allowed files that exist, or raises on an irregular one |
| MaintenanceTransaction.Worktree.RollbackAllowedViews | ci/tools/canonical_maintenance.py:2580-2596 | completes only within the allowed set, then restores exactly the changed paths; outside it restores nothing |
| MaintenanceTransaction.Worktree.RunBody | ci/tools/canonical_maintenance.py:2785-2839 | source digest, old values, edit, candidate digest, generators, check, allowed changes, in that order |
| MaintenanceTransaction.Worktree.ApplySafeUpdates | ci/tools/canonical_maintenance.py:2772-2848 | refused, changed within the allowlist, rolled back with all initial bytes, or failed to roll back, each exactly when |
| MaintenanceTransaction.RollbackRestores | ci/tools/canonical_maintenance.py:2580-2596 | after a completed rollback every tracked file has its initial bytes, whatever the generators did |
| MaintenanceTransaction.SuccessMatchesCandidate | ci/tools/canonical_maintenance.py:2810-2839 | with generators that leave `common.sh` alone a success matches the bound candidate digest |
| MaintenanceTransaction.SucceedsExactlyWhen | ci/tools/canonical_maintenance.py:2785-2839 | an application succeeds if and only if the start has the bound digest and old values, the edit gives the candidate, both generator runs report every view current, and no tracked path outside the allowed set differs |
| MaintenanceTransaction.AppliedPlanIsRefusedAgain | ci/tools/canonical_maintenance.py:2788-2801 | where the generators kept the candidate, the same plan does not succeed again |
| MaintenanceTransaction.CandidateExactlyWhenDigestIsKept | ci/tools/canonical_maintenance.py:2810-2839 | every success from a clean worktree leaves the bound candidate if and only if accepted generator runs keep the digest of `common.sh` |
| MaintenanceTransaction.EscapingEditIsNotUndone | ci/tools/canonical_maintenance.py:2580-2596 | an edit that raises after changing a tracked file outside the allowed set leaves everything it did in place |
| MaintenanceTransaction.EscapingSyncIsNotUndone | ci/tools/canonical_maintenance.py:2811-2848 | after an edit as planned, a generator that writes a tracked file outside the allowed set makes the transaction fail whatever it reports, and the rollback with it: the file stays and common.sh keeps the candidate |
| MaintenanceTransaction.GeneratorMayReplaceCandidate | ci/tools/canonical_maintenance.py:2810-2839 | a success whose `common.sh` is not the bound candidate |
| Expectations.RuleIdsMeaning | modsecurity_test_framework/contracts.py:167-177 | a normal rule-id list has the members of the raw one and is its own normal form |
| Expectations.IdentifierListMeaning | modsecurity_test_framework/contracts.py:180-186 | the same for lists of identifiers, whatever least length the caller asks for |
| ExpectationRoundTrip.EncodeDecodes | modsecurity_test_framework/contracts.py:199-350 | for every kind and nesting, what decodes is written so that it decodes to the same expectation |
| ExpectationRoundTrip.NormaliseTwice | modsecurity_test_framework/contracts.py:322-356 | normalisation is idempotent |
| ExpectationRules.DecodeMeans | modsecurity_test_framework/contracts.py:199-350 | a value is accepted as an expectation if and only if it says it: for each of the fifteen kinds the exact field names, limits, words and coherence rules, and for compounds two to sixteen different conditions at most four levels down |
| ExpectationRules.AcceptedExactlyWhen | modsecurity_test_framework/contracts.py:353-356 | the public normaliser accepts exactly the values that say some expectation, and returns its normal form |
| ExpectationRules.RuleIdsMean | modsecurity_test_framework/contracts.py:167-177 | a list of rule ids reads as these if and only if it has 1 to 128 different integers from 1 to 9999999 and these are its members in ascending order |
| ExpectationRules.NamesMean | modsecurity_test_framework/contracts.py:180-186 | a list of names reads as these if and only if its items are different identifiers within the length limits and these are its members in the order of their characters |
| ExpectationRefusals.UnknownIsRefused | modsecurity_test_framework/contracts.py:322-331 | what lies too deep or is no map is refused as `invalid_expectation`, and a map without one of the fifteen kinds as `unknown_expectation_kind` |
| ExpectationRefusals.ActionRefused | modsecurity_test_framework/contracts.py:204-215 | an action or intervention is refused for its field names, then its action, then its status, then its rule ids, with the code of the first of them that is wrong |
| ExpectationRefusals.ConfigurationRefused | modsecurity_test_framework/contracts.py:252-266 | a configuration is refused for its field names, then, with a usable exit code, for a field that is no identifier, and otherwise as a configuration |
| ExpectationRefusals.CompoundRefused | modsecurity_test_framework/contracts.py:302-313 | a compound is refused for its field names, then its list, then with the code of its first refused condition, then for two conditions that are alike |
| ExpectationMatching.DecodedReads | modsecurity_test_framework/contracts.py:822-913 | what validation guarantees about every raw result field |
| ResultRules.ResultMeans | modsecurity_test_framework/contracts.py:900-913 | a value is accepted as a result if and only if it is a nonempty map of known fields, each saying its part of the observation |
| ResultRules.SensitiveIsRefused | modsecurity_test_framework/contracts.py:900-905 | a result is refused as sensitive if and only if it has a field that could carry a payload or a secret |
| ExpectationMatching.LeafMatches | modsecurity_test_framework/contracts.py:923-1007 | for each single kind the matcher reports exactly the codes of the reference |
| ExpectationMeaning.MatchIsFailures | modsecurity_test_framework/contracts.py:916-1007 | at every nesting the matcher's codes are the union over the single conditions |
| ExpectationMeaning.ResultRoundTrip | modsecurity_test_framework/contracts.py:900-913 | normalising a result keeps its observation |
| ExpectationMeaning.NormalisationKeepsMeaning | modsecurity_test_framework/contracts.py:322-356 | matching the normal pair gives the codes of matching the validated raw pair |
| ExpectationMeaning.ValidExactlyWhenEveryConditionHolds | modsecurity_test_framework/contracts.py:1010-1029 | `valid` if and only if every single condition holds; `failure_codes` is the sorted duplicate-free union of their codes |
| ExpectationMeaning.OnlyConditionsMatter | modsecurity_test_framework/contracts.py:1010-1029 | expectations with the same single conditions get the same verdict and codes |
| ExpectationMeaning.FlatteningKeepsConditions | modsecurity_test_framework/contracts.py:916-920 | replacing a nested compound by its conditions keeps the single conditions |
| ExpectationMeaning.FlatteningKeepsVerdict | modsecurity_test_framework/contracts.py:916-920 | so it changes neither the verdict nor a code |
| ExpectationMeaning.PermutingKeepsVerdict | modsecurity_test_framework/contracts.py:916-920 | nor does the order of the conditions of a compound |
| ExpectationMeaning.LeavesAreBounded | modsecurity_test_framework/contracts.py:302-331 | an expectation accepted at a depth has at most 16 to the remaining depth leaves |
| ExpectationMeaning.AcceptedExpectationsAreSmall | modsecurity_test_framework/contracts.py:353-356 | no accepted expectation has more than 65536 leaves |
| TextLines.SplitJoin | modsecurity_test_framework/workflow_sources.py:194-200 | lines that each end their own are split again at the same places after joining |
| TextLines.OneLineMeans | modsecurity_test_framework/workflow_sources.py:194-200 | a line has no break before its last character, unless its last two are a carriage return and a line feed |
| TextLines.ShiftRightAndBack | modsecurity_test_framework/workflow_sources.py:194-200 | shifting a block by n columns and back gives the block, blank lines included |
| TextLines.LeftShiftCutsText | modsecurity_test_framework/workflow_sources.py:194-200 | a text with a line that has text at the margin does not come back from a shift to the left |
| TextLines.ShiftLeftAndBackExactlyWhen | modsecurity_test_framework/workflow_sources.py:194-200 | shifting left and back gives the block if and only if only spaces are cut off |
| WorkflowEdits.ApplyEdits | modsecurity_test_framework/workflow_sources.py:655-657 | edits applied in descending order, apart or on one range, equal the overlay of the original lines; when edits of one range fill it, that is one simultaneous splice in which the smallest of them stands, as lines and as text |
| WorkflowEdits.OneMoreLayered | modsecurity_test_framework/workflow_sources.py:656-657 | replacing the next range above an overlay gives the overlay with that edit; on a shared range the earlier outcome loses as many lines as the range has |
| WorkflowEdits.FilledLayersCollapse | modsecurity_test_framework/workflow_sources.py:655-657 | an overlay whose later edits fill their ranges is the splice of the smallest edit of each range |
| WorkflowEdits.UntouchedLinesAppearOnce | modsecurity_test_framework/workflow_sources.py:655-657 | the original lines kept by the splice are exactly the untouched ones, once each, in order |
| WorkflowEdits.OriginsDescribe | modsecurity_test_framework/workflow_sources.py:655-657 | a kept line of the splice is the original line it stands for |
| WorkflowEdits.CollapsedTouchesTheSame | modsecurity_test_framework/workflow_sources.py:655-657 | dropping all but one edit of a shared range leaves the same lines untouched |
| WorkflowEdits.InOrderCollapses | modsecurity_test_framework/workflow_sources.py:655-657 | edits that do not overlap are all applied |
| WorkflowEdits.CompatibleSorts | modsecurity_test_framework/workflow_sources.py:655-656 | edits that are pairwise apart or on one range are layered in order once sorted, duplicates included, and stacked when those on one range fill it |
| WorkflowEdits.SharedRangeKeepsOne | modsecurity_test_framework/workflow_sources.py:613-623 | of two edits that fill one range only the smaller text stands, and nothing of the other is lost if and only if the texts are equal |
| WorkflowText.SmallerTextStands | modsecurity_test_framework/workflow_sources.py:655-657 | of two rewritings of one block, found in whatever order, the text that comes first by its characters stands |
| WorkflowEdits.SharedRangeIsCleanExactlyWhen | modsecurity_test_framework/workflow_sources.py:655-656 | what follows a shared range survives the second edit if and only if the first one applied filled the range, or fell short of it at the very end of the document |
| WorkflowEdits.JobActionEdits | modsecurity_test_framework/workflow_sources.py:587-624 | one edit per action call with its shifted blocks, and one per rewritten outputs block, in step order |
| WorkflowText.BodyIsMoved | modsecurity_test_framework/workflow_sources.py:606-609 | the text in place of a call is, line by line and part by part, the lines of the called action, each moved by the column of the call minus the column of its step |
| WorkflowText.MovedKeepsText | modsecurity_test_framework/workflow_sources.py:194-200 | when every nonblank line has the spaces a move to the left takes, no text is lost: blank lines stay and every other line keeps its text and stands exactly that many columns further right |
| WorkflowEdits.StepsCompatible | modsecurity_test_framework/workflow_sources.py:587-624 | the edits of a job are pairwise apart or rewrite its one outputs block; the latter fill it when one call at most rewrites it, or all do so line for line |
| WorkflowEdits.ExpandWorkflow | modsecurity_test_framework/workflow_sources.py:648-657 | for every laid-out document the expanded text is the overlay of its edits: every call replaced by its shifted blocks, rewritten outputs blocks by their new text, everything else kept; with outputs rewritten once per job or line for line it is the splice in which the smallest rewriting of a block stands |
| WorkflowText.EveryCallIsExpanded | modsecurity_test_framework/workflow_sources.py:587-657 | in a document whose jobs rewrite their outputs cleanly the expanded text holds, for every call, the lines of its action in the columns of the calling step |
| WorkflowText.EveryRewritingStands | modsecurity_test_framework/workflow_sources.py:611-657 | in such a document the expanded text holds, for every job whose outputs are rewritten, one of the rewritten texts, and none of the job's other rewritings comes before it by its characters |
| CanonicalPins.FoundIsWritten | ci/tools/common_canonical_pins.py:18 | a reference found at the start of a text is written there, name and prefix by their character classes |
| CanonicalPins.WrittenIsFound | ci/tools/common_canonical_pins.py:18 | a reference written at the start of a text is found, with exactly that name, prefix and length |
| CanonicalPins.ReplacementIsTheRest | ci/tools/common_canonical_pins.py:29-40 | a reference is replaced by v if and only if its name is known and its value is the prefix followed by v |
| CanonicalPins.NameMeans | ci/tools/common_canonical_pins.py:18 | a name is an upper-case letter followed by upper-case letters, digits and underscores |
| CanonicalPins.SubstituteKeepsText | ci/tools/common_canonical_pins.py:42 | a pass keeps text without dollar signs |
| CanonicalPins.SubstituteReplaces | ci/tools/common_canonical_pins.py:29-42 | a pass replaces a written reference and goes on behind it |
| CanonicalPins.SubstituteUsesDollars | ci/tools/common_canonical_pins.py:29-42 | a pass that replaces a reference uses up a dollar sign, even where it forms a new reference |
| CanonicalPins.PassesAreBounded | ci/tools/common_canonical_pins.py:22-47 | unlimited resolution ends after at most one pass more than there are dollar signs |
| CanonicalPins.BoundedResolution | ci/tools/common_canonical_pins.py:22-47 | the bounded resolution yields a value if and only if the unlimited one does within the allowed passes, and then the same |
| CanonicalPins.NestingTakesPasses | ci/tools/common_canonical_pins.py:22-47 | a name in n reference brackets takes n passes |
| CanonicalPins.DeepNestingIsRefused | ci/tools/common_canonical_pins.py:43-46 | it has a value, and the bounded resolution finds it if and only if there are at most four brackets |
| CanonicalPins.DeepNestingRefusesTheFile | ci/tools/common_canonical_pins.py:97-117 | the two-line file that shows it |
| CanonicalPins.LoadCanonicalPins | ci/tools/common_canonical_pins.py:97-117 | the loop returns the scan of all lines, or the error of the first offending line |
| CanonicalPins.LoadedIsDollarFree | ci/tools/common_canonical_pins.py:97-117 | every loaded value is free of dollar signs |
| CanonicalPins.ReferencesGoBack | ci/tools/common_canonical_pins.py:97-117 | an accepted assignment refers only to earlier ones, and its value is its full resolution over them within four passes |
| CanonicalPins.AppendingKeepsValues | ci/tools/common_canonical_pins.py:97-117 | appending lines never changes a loaded value |
| CanonicalPins.ScanSucceedsExactlyWhen | ci/tools/common_canonical_pins.py:104-114 | a file is accepted if and only if no name is assigned twice and each assignment resolves over the earlier ones |
| PublicSourceTree.SiblingsApart | ci/provisioning/mrts-package.py:174-200 | nothing lies below two different siblings, so paths never collide |
| PublicSourceTree.Tree.Visit | ci/provisioning/mrts-package.py:164-172 | a directory is accepted exactly when it is clean and fits what is left of every bound; then the counters grow by its node count and body sizes and the map by its files |
| PublicSourceTree.Tree.VisitEntry | ci/provisioning/mrts-package.py:174-200 | the same for one entry of any kind |
| PublicSourceTree.Tree.ReadSource | ci/provisioning/mrts-package.py:191-200 | the same for a name ending in `.py` |
| PublicSourceTree.ReachableIsFound | ci/provisioning/mrts-package.py:158-200 | every reachable regular Python file is in the map under its path with its digest |
| PublicSourceTree.FoundIsReachable | ci/provisioning/mrts-package.py:158-200 | nothing else is in the map |
| PublicSourceTree.ListingOrderDoesNotMatter | ci/provisioning/mrts-package.py:164-200 | listing every directory in some other order changes no count, size, cleanliness or map |
| PublicSourceTree.SameVerdictForEveryListing | ci/provisioning/mrts-package.py:203-221 | so two listings of one namespace get one verdict and one map |
| PublicSourceTree.PublicSourceHashes | ci/provisioning/mrts-package.py:203-221 | succeeds if and only if the namespace is clean, nonempty and within all bounds, and returns the reference map |
| PublicSourceTree.AcceptableExactlyWhen | ci/provisioning/mrts-package.py:158-221 | a namespace is accepted if and only if it holds a name ending in `.py`, at most 4096 nodes, 1024 such files and 16 MiB of their text, no symlink, no such name that is not a regular file of at most 1 MiB, and no directory more than 32 levels down |
| MrtsPackage.RewriteAll | ci/provisioning/mrts-package.py:396-416 | rewriting in place in any order rewrites every file once, or none is used |
| MrtsPackage.RewritingKeepsRules | ci/provisioning/mrts-package.py:396-433 | rewriting paths never changes the rule-id collision check |
| MrtsPackage.TamperingIsRejected | ci/provisioning/mrts-package.py:557-579 | two packages with one manifest file that both verify are the same package: no artifact can be added, removed or changed |
| MrtsPackage.PreparedVerifiesExactlyWhen | ci/provisioning/mrts-package.py:513-579 | for what it was prepared for, a prepared package verifies if and only if rewriting left the case ids alone |
| MrtsPackage.PreparedVerifies | ci/provisioning/mrts-package.py:513-579 | so it verifies whenever the case loader does not look at provenance |
| PackageMeaning.PreparedVerifiesOnlyForItsOwn | ci/provisioning/mrts-package.py:513-579 | a prepared package verifies for a root, corpora, sources and definitions if and only if they are the ones it was prepared for and rewriting left the case ids alone |
| PackageMeaning.OnlyOneManifestVerifies | ci/provisioning/mrts-package.py:557-579 | of all manifests that could stand in a verified package only the one that is there verifies: no field of it can be changed |
| PackageMeaning.PreparedExactlyWhen | ci/provisioning/mrts-package.py:513-554 | a package is prepared if and only if it was staged, is in order, can be rewritten, and neither sources nor definitions changed meanwhile; it holds every staged file rewritten, and the manifest |
| PackageMeaning.CollisionsExactlyWhen | ci/provisioning/mrts-package.py:419-433 | every corpus declares a rule in a `rules/*.conf` file and, of two corpora, no rule id is declared in both |
| PackageMeaning.CaseIdsExactlyWhen | ci/provisioning/mrts-package.py:282-294 | the case ids are those the loader reads from the `framework-cases/*.yaml` files, corpus by corpus, with no name twice |
| PackageMeaning.RewriteMeans | ci/provisioning/mrts-package.py:396-416 | rewriting moves the texts of `metadata` and `origin` in the YAML files of a `framework-cases` directory and the text of `mrts.load`, and nothing else |
| PackageMeaning.RelocationMovesTexts | ci/provisioning/mrts-package.py:386-393 | the texts of a relocated value are the moved texts of the value |
| PackageMeaning.RelocationKeepsShape | ci/provisioning/mrts-package.py:386-393 | relocating keeps everything but the texts |
| MrtsPackage.ViewLoaderIgnoresProvenance | tests/runners/runner_core.py:407-488 | a loader that reads every field but the provenance, and of `origin` only its shape, cannot tell a rewritten case from the staged one |
| MrtsPackage.PublishedIsComplete | ci/provisioning/mrts-package.py:506-510 | a published target holds the staged files and nothing else |
| MrtsPackage.PublishingLeavesOthers | ci/provisioning/mrts-package.py:506-510 | publishing leaves every package beside the target as it was |
| MrtsPackage.BuildTree.Publish | ci/provisioning/mrts-package.py:506-510 | refuses an existing target, otherwise places the whole stage |
| MrtsPackage.BuildTree.Prepare | ci/provisioning/mrts-package.py:513-554 | the target is complete, or as absent as before and no file changed |
| MrtsPackage.BuildTree.Materialize | ci/provisioning/mrts-package.py:615-653 | the source package stays what it was and verifies as before; the run copy is complete or nothing was created, each exactly when |
| MrtsPackage.CopyIsTheVerifiedPackage | ci/provisioning/mrts-package.py:630-632 | whatever the copy read, a run starts from the artifacts that were verified |
| MrtsPackage.NoteDescribesTheRun | ci/provisioning/mrts-package.py:637-651 | the materialization note lists the digest of every file of the run but the manifest and itself |
| PackageMeaning.MaterializedExactlyWhen | ci/provisioning/mrts-package.py:630-651 | where every file can be rewritten, a run exists if and only if the copy is what was verified and the case ids can be read again; its note records the digest of the manifest, the port and every artifact |
| PackageMeaning.PortMeans | ci/provisioning/mrts-package.py:603-612 | ports are set in the `ftw/*.yaml` files of the selected corpora and nowhere else |

## Left out

* Owned process trees: the final wait for the started process, cloning with a foreign parent, subreapers, SIGCONT from outside, and readings of `/proc` that are not atomic.
* Git: running Git, object framing as printed by Git, the collision-detecting SHA-1 requirement, and file name decoding; names are bytes.
* MRTS results: private directories, size limits, the regular expressions over a log (their matches are the input), and the per-corpus attachment, which only matters here by raising or not.
* Native report: everything but the counts and the status of a job; upper-casing outside ASCII.
* Maintenance: review entries, the lock file, network clients, and untracked files, which the code does not look at either.
* Contracts: the catalog, profiles, capability manifests, test selection, and the JSON reader.
* Workflow expansion: protected reusable workflows, validation of action inputs, the text replacements inside a block and inside job outputs (the replaced texts are the input), and reading files.
* Canonical pins: the line patterns (matched name and raw text are the input), the trusted path to the file, and line numbers in error messages.
* Public sources: a file that changes while it is read, and which of several violated bounds is named first.
* MRTS packages: generators, import scripts, definition snapshots, checks of output locations, the private staging directory, a second process that creates the target meanwhile, and empty directories of a package.
