# Box core models

A Dafny 4.11 model of the six stateful cores of this repository, and proofs about them.

* **The updater's swap protocol** (`Semver`, `Versions`, `Decisions`, `Ordinals`, `StateMaps`, `Hosts`,
  `Swap`, `Updater`, `Latch`, `Runtime`, `Polls`, `Runs`, `Scenes`). `Hosts.BoxHost` is the box: `.env` pins, deploy tree,
  stamped snapshot, state file and running image, every effect of which may land, throw or kill the process, and
  leave debris when cut short. `Runtime.RunTick` is one tick over it, from whatever memory the loop holds;
  `Polls` says what one tick and two in a row do; `Runs.Run` is the main loop, which goes on after a throw;
  `Scenes` runs the tick on boxes whose effects have stated fates.
* **The versioned, lockable, quota-bound file tree** (`Paths`, `FsDb`, `FsReaper`, `FsTree`, `FsLocks`, `FsUndo`, `FsTrash`,
  `FsRules`, `FsStore`). `FsDb` says what each transaction does to the tables; `FsStores.FsStore` is the store, statement by
  statement, proved against it; the lemmas are about any sequence of calls by any actors.
* **The buffering adapter over it** (`PgView`, `PgFs`). `PgView` is the unbuffered file system a script believes
  it has; `PgMounts.PgFs` is the adapter over one `FsStore`, and `Script` is the refinement.
* **The kill switch** (`KillSwitch`), under a network that may delay, drop, repeat and replay, and any clock.
* **The where compiler and keyset pages** (`Query`, `QueryMeaning`, `Keyset`).
* **The migration runner** (`Migrations`), and four self-contained algorithms: edit distance (`EditDistance`),
  the strict UTF-8 acceptor (`Utf8`), the chunker (`Words`, `Chunker`), the LRU and the rerank memo
  (`RerankCache`). `Options`, `Characters` and `Lists` are shared.

`dafny verify dfyconfig.toml` checks the whole project.

Where the code and its own comments disagree, the model follows the code, and a lemma names the input:
`KillSwitch.EqualGenerationClears`, `PgMounts.StaleAfterFlush`, `RerankCache.KeysCollide`,
`Runs.StrainedLatchOverflows`, `Swap.StepPast`, `Scenes.StaleSave`, `Scenes.LostJournal`, `Scenes.CondemnedImageRuns`,
`Keyset.BulkNeverCovers`, `Keyset.GapIsSkipped`; `Hosts.HealedTreeExact` gives the
exact condition for what restoreDeploySnapshot's comment promises always.

How memory and file part: the loop keeps its memory when a tick throws (main.ts:160-166). A throw reaches it from
the early returns (heartbeat, due restart, mark save), from the resume block's save, from the restart op in the catch
block, from the end-of-tick save, and from everything after that save (restart op, snapshot removal, updater pin,
self-pin reconcile). `Polls.EscapedBehindIff` says which of these leave memory behind. `Runs.BeganInStep` is the check
a caller can make on the state file before a poll, and holds again after a reload; `Runs.Loses` names the polls that
can put a journal beyond healing; `Runs.Run` says what holds with and without either.

## Assumptions

* Updater: listed versions do not tie in semver order, the running one included (`Runtime.FeedOk`). A state save
  lands whole or leaves the old file, thrown or cut short. Removing the snapshot directory, when cut short, removes
  the stamp with the first file (`Hosts.HalfEmptiedSnapshotMisleads` shows what a surviving stamp would do). Strings
  compare by code point.
* File store: each method is one transaction and there is one writer at a time; no two contents share a sha256;
  media types, their vetoes and the extension table are parameters; the reaper may take any rows at all, except where
  a theorem asks for a pass as migration 0051 has it (`FsReaper.Housekept`), and records the highest number it
  destroys once migration 0048 is in place; a home slug is one path segment.
* PgFs: paths arrive resolved, without a trailing slash. The refinement is about scripts that append only where the
  parent directory exists and make no directory where one of their files is (`PgMounts.FitsSoFar`).
* Kill switch: no forged signature; one kill state per generation for this box, where a theorem says so.
* Migrations: versions in a list are distinct; no two digested texts share a hash; a newer list keeps the versions
  already recorded, in order (`Migrations.Follows`), whatever was edited inside them.
* Rerank: a score is determined by normalised query, id and text; ids are distinct per call; the hashes of the
  texts in play are distinct.
* Keyset: rows do not change between pages; ids are unique; values enter as their rank in the column's order, and a
  cursor carries what is left of one after JSON (`Keyset.Encoding`, any function; `Keyset.ContinuesIff` is about those
  that never raise a value, as cutting a timestamp to the millisecond does not).

## Model

| member | source | states |
|---|---|---|
| Semvers.CompareTransitive | apps/updater/src/versions.ts:84-86 | the semver comparison is a total preorder, so sorting by it and comparing through a third version are meaningful |
| Versions.InOrderOrder | apps/updater/src/versions.ts:115 | the sort key (semver, then version string) is total, transitive, and ties only entries of one version |
| Versions.CanonicalOrder | apps/updater/src/versions.ts:105-118 | the filter-and-collect loop yields the sorted steppable releases, or nothing exactly when the box's own version does not parse |
| Versions.SortSorted | apps/updater/src/versions.ts:115-117 | the result is in order |
| Versions.SortStable | apps/updater/src/versions.ts:115-117 | entries that share a version string keep their feed order |
| Versions.FeedOrderIrrelevantIff | apps/updater/src/versions.ts:105-118 | the canonical order is the same for every permutation of the feed if and only if no two different steppable entries share a version string |
| Versions.CanonicalIsLadder | apps/updater/src/versions.ts:91-118 | without semver ties the canonical list climbs strictly, and holds exactly the listed releases that parse and are not yanked (or are the running one) |
| Versions.LadderOrdinal | apps/updater/src/versions.ts:123-126 | on such a list ordinals and positions determine each other |
| StateMaps.ToLib | apps/updater/src/versions.ts:213-256 | the loops that fill attempts, deferrals and kept images compute the ordinal state, in whatever order the records are enumerated |
| StateMaps.FromLib | apps/updater/src/versions.ts:259-306 | the loops back to version strings compute the persisted state |
| Ordinals.EnsureCurrentKeepsLadder | apps/updater/src/versions.ts:163-181 | synthesising a vanished current version keeps the list strictly climbing |
| Ordinals.AttemptsStep | apps/updater/src/updater.ts:84-205 | across the two mappings, a tick changes one listed version's failure count exactly by the failure it recorded (definitive verify failure or rollback), and clears it when the version is applied |
| Ordinals.RollbackLandsOnCurrent | apps/updater/src/decisions.ts:122-127 | with the running version among the kept ones and all others below it, the rollback target is always the running version |
| Ordinals.TickKeepsProgress | apps/updater/src/versions.ts:259-306 | whatever the outcome, current stays in the kept versions as their maximum, and neither current nor floor ever falls |
| Decisions.StepsStayInBounds | apps/updater/src/decisions.ts:32-52 | unsigned, the only move is one release up; signed it also reaches down, never below the floor |
| Decisions.CondemnedOnlyByQuietFailure | apps/updater/src/decisions.ts:102-108 | a release is condemned if and only if some sample taken off load saw a broken write or an explicitly broken room; busy if and only if no sample was quiet |
| Decisions.RollbackTarget | apps/updater/src/decisions.ts:122-127 | the newest kept image whose schema needs are met, and none only when there is none |
| Hosts.BoxHost.PinEnv | apps/updater/src/host.ts:544-555 | a pin lands whole or leaves .env as it was; a missing .env throws |
| Hosts.BoxHost.ReplaceEntries | apps/updater/src/host.ts:586-594 | the delete-then-copy loop, cut short anywhere: entries the source lacks are untouched; run to the end it lays every entry of the source |
| Hosts.BoxHost.ApplyDeployTree | apps/updater/src/host.ts:610-631 | the bundle's entries replace the box's, .env is never touched, and a cut leaves entries outside the bundle alone |
| Hosts.BoxHost.SnapshotDeploy | apps/updater/src/host.ts:564-573 | a completed snapshot is the exact shape with its stamp; one cut short is the old one, or carries no stamp, or is the exact shape under whatever a torn stamp reads as |
| Hosts.BoxHost.RestoreDeploySnapshot | apps/updater/src/host.ts:586-595 | a completed restore lays the snapshot over the shape; a cut one touches only what the snapshot holds, and never the snapshot |
| Hosts.BoxHost.ClearDeploySnapshot | apps/updater/src/host.ts:597-599 | the snapshot is gone, or unchanged, or at least no longer stamped |
| Hosts.BoxHost.SaveState | apps/updater/src/host.ts:765-770 | a save replaces the whole state file or, thrown or cut short, leaves it as it was |
| Hosts.HealedTreeExact | apps/updater/src/host.ts:584-595 | a restored tree is exactly the baseline's if no bundle of the series brought an entry the baseline lacked and, when every bundle of the series was laid to its end, only if none did; the method's comment promises it always |
| Hosts.HalfEmptiedSnapshotMisleads | apps/updater/src/host.ts:597-599 | a stamp left over a half-emptied snapshot would not restore the baseline any more |
| Swap.OpenJournal | apps/updater/src/runtime.ts:452-453 | the journal is written before any mutation, and a save that throws leaves the file as it was; a series of attempts at one version keeps its first baseline; whatever the outcome, the shape the series began from can be brought back |
| Swap.ApplyBundle | apps/updater/src/runtime.ts:456-472 | snapshot, tree and pins: stopped at any statement, the box can still be healed to the baseline of the series, and the baseline knows whether every bundle was laid to its end |
| Swap.Migrate | apps/updater/src/runtime.ts:440-491 | the whole migrate adapter with its catch: the box stays healable throughout, nothing is mutated unjournaled, no other version's baseline moves, and success leaves the target pinned (and stamped, with a bundle) |
| Swap.Restart | apps/updater/src/runtime.ts:492-514 | the restart adapter keeps the box healable; success runs the target |
| Swap.Unwind | apps/updater/src/runtime.ts:476-489 | the catch block keeps the box healable whether or not it completes; completed, the previous image is pinned |
| Swap.RollbackApp | apps/updater/src/runtime.ts:516-531 | a completed rollback runs the target image and, with a bundle, has .env pins and tree back at the baseline, exactly under the condition of Hosts.HealedTreeExact; an incomplete one keeps the box healable |
| Swap.HealFromSnapshot | apps/updater/src/runtime.ts:184-189 | a completed heal has every pin but the app's and the whole tree back as before the journaled version's first mutation, the app pinned to and running the current version's digest, and no snapshot left; an incomplete one can be run again |
| Swap.HealPinOnly | apps/updater/src/runtime.ts:180-193 | the heal without a snapshot of its own version does the same for a journal that can be healed |
| Swap.ResumeJournal | apps/updater/src/runtime.ts:163-210 | heal, then count, then save: the journal leaves the disk only together with the counted failure, and only after a completed heal; the healed tree is the baseline's if no bundle of the series brought an entry of its own and, when all were laid to the end, only if; a save that throws leaves file and journal |
| Swap.SnapshotForAnother | apps/updater/src/host.ts:564-573 | snapshotting for one version leaves another version's baseline within reach if and only if that baseline was back at the time |
| Swap.StepPast | apps/updater/src/runtime.ts:195-210 | the failing input, run: on a box that still journals one version over a torn tree, another version's journal, bundle and completed rollback, every effect landing, leave the torn entry in place, and the first version's baseline can no longer be brought back though it could before |
| Swap.HalfAppliedBox | apps/updater/src/host.ts:610-631 | there is such a box |
| Updater.Verify | apps/updater/src/runtime.ts:350-429 | nothing yanked and nothing below the floor is trusted; a failing signature check is transient, never definitive; a signed release that is neither is trusted |
| Updater.JudgeTarget | apps/updater/src/updater.ts:156-203 | with the target pinned and running, the canary decides: it stays (applied, or busy) or the newest fitting image is pinned and run, exactly as expected when every effect lands, and whatever happens the box stays healable with the file as it was |
| Updater.UpdaterTick | apps/updater/src/updater.ts:103-205 | the one-step machine over fallible adapters: at most the next release is verified, only when it is not latched; no target below the floor is applied; applied, busy and rolled back leave the stated image pinned and running; whatever is thrown, the attempt it journaled can be healed; and when every effect lands the outcome is exactly the one the list, the heartbeat, the signature and the samples call for |
| Updater.ApplyTarget | apps/updater/src/updater.ts:149-205 | migrate, restart, canary, rollback: every outcome is journaled first and leaves the box healable; when every effect lands, a healthy target is applied, a busy one left pinned, and a broken one rolled back; an effect that always throws ends in its throw, with the attempt journaled |
| Latch.SettledLatch | apps/updater/src/runtime.ts:567-576 | one settled tick takes a version's failures (counted and still journaled) past the latch if and only if that version's own verification failed definitively while its crashed attempt waited for its heal with the count one short; a listed version's count moves with the failures recorded |
| Runtime.HonorRestartOp | apps/updater/src/runtime.ts:56-84 | on success exactly the marks of the control, saved with the journal in place; a throw means a due restart failed or the mark's save did, and the file is untouched |
| Runtime.HoldTick | apps/updater/src/runtime.ts:128-147 | the degraded early returns write the marks or nothing; a throw out of them leaves the file as it was |
| Runtime.SettleTick | apps/updater/src/runtime.ts:567-581 | the end-of-tick save of the settled state, or, when it throws, the file and the record of failures as they were |
| Runtime.CloseTick | apps/updater/src/runtime.ts:586-646 | what follows the save can throw with the saved state already on disk: it adds the operator marks or nothing, and only a retired bundle apply touches the shape |
| Runtime.CatchTick | apps/updater/src/runtime.ts:543-566 | a tick that threw hands back its memory with the journal, on disk or not, and what it left can be healed |
| Runtime.HealVanishedCurrent | apps/updater/src/runtime.ts:212-241 | synthesis only without a journal and only from a digest pin; the synthesised entry carries the pin's digest on the current version's own rung, and the list keeps climbing strictly; undisturbed, a vanished version with such a pin is put back |
| Runtime.Resume | apps/updater/src/runtime.ts:163-210 | at the start of a tick: the journal changes only through a completed heal that is counted, exact if the journal could be healed; and if the effects land, a journal over a listed current version is healed and counted |
| Runtime.RunTick | apps/updater/src/runtime.ts:116-647 | one tick from any memory and any feed, with a crash or throw between any two effects, the saves included: the file is the sum of the tick's saves or untouched; a stamped snapshot can always restore its shape; from any memory, in step with the file or not, a journal that could be healed still can be unless another version's attempt displaced it, and its heal was exact; floor and current never fall below memory's; a version past the latch is not verified, and one goes past it only on its own overflow; and when effects land the tick does what it is for: a journal over a listed version is healed and counted, a vanished version put back, the expected outcome settled and saved, the operator's marks honoured |
| Polls.JournalStandsUnless | apps/updater/src/runtime.ts:195-210 | an unhealed journal leaves the disk if and only if its own version's attempt runs again to an outcome, or the feed has put another version on the next rung and that one is attempted; while it is the next rung only its own conclusion ends it |
| Polls.JournalLostIff | apps/updater/src/main.ts:160-166 | over two ticks: in a tick that neither heals nor attempts, the file's journal is lost if and only if the tick saves anything and the one before threw, past its catch, between journal write and end-of-tick save (a due forced restart failed, or a save did), or displaced it in memory |
| Polls.EscapedBehindIff | apps/updater/src/main.ts:160-166 | an escaped throw leaves the loop with a memory older than the file if and only if the tick healed, began an attempt it could not finish, or saved an outcome that counts, clears a journal, forgets an unlisted version or comes with a moved mark |
| Polls.StaleSaveFalls | apps/updater/src/main.ts:160-166 | then the next tick's save puts current strictly below what the file held, and the floor too if and only if the swap had raised it |
| Polls.VersionsAfter | apps/updater/src/versions.ts:259-272 | a tick moves current and floor only by an applied outcome, and then to a listed version above |
| Polls.RollbackRunsOwnImageIff | apps/updater/src/runtime.ts:212-241 | a rollback pins and runs the running version's own image if and only if the feed lists that version or the app pin carried its digest when the tick began |
| Polls.BusyPinIsTaken | apps/updater/src/runtime.ts:216-218 | a busy retry leaves the new image pinned without a journal; if the feed then drops the running version, a rollback of the new one pins and runs the image it condemns |
| Scenes.StaleSave | apps/updater/src/main.ts:160-166 | two ticks, run on a box whose mark saves throw: the first applies a release and saves it, then throws; the second, from the old memory, puts the file's current version strictly below what it held, and its floor too if and only if the release had raised it |
| Scenes.LostJournal | apps/updater/src/runtime.ts:556-559 | two ticks, run on a box whose migrations and restarts throw: the swap's throw meets the operator's forced restart, which throws out of the catch block, and the next tick's save takes the journal off the disk unhealed |
| Scenes.CondemnedImageRuns | apps/updater/src/runtime.ts:216-241 | two ticks, run with every effect landing: a busy canary, then a feed without the running version, and the box pins and runs the image its own canary has just condemned |
| Scenes.PlayStaleSave | apps/updater/src/main.ts:151-169 | the first scene on a concrete box and list |
| Scenes.PlayLostJournal | apps/updater/src/main.ts:151-169 | the second one |
| Scenes.PlayCondemnedImageRuns | apps/updater/src/main.ts:151-169 | the third one |
| Scenes.InviteIsExpected | apps/updater/src/updater.ts:103-205 | a desired, untried and signed rung is expected to be applied, left busy or rolled back by its samples, and deferred when its signature fails |
| Runs.Run | apps/updater/src/main.ts:151-169 | whole runs with arbitrary feeds (empty ones included), heartbeats, throws, crashes and reloads, the loop going on with its old memory after an escaped throw: floor and current never fall below the start, a stamp can always restore its shape, no version's failures pass the latch but by its own overflow; every poll, in step with the file or not, does what its effects let it, and a heal of a journal that could be healed is exact; memory's and the file's journal stay healable throughout unless some poll loses a guard; a poll begun in step never lowers the file's versions; and while all are in step, a version listed throughout is verified no more once latched |
| Runs.GuardsCarry | apps/updater/src/main.ts:151-169 | a poll costs a journal its heal only if it throws past its catch while memory holds another version's journal, or saves nothing while memory and file journal different versions; never when memory holds none |
| Runs.StrainedLatchOverflows | apps/updater/src/runtime.ts:195-208 | the input on which the latch is exceeded by one |
| Paths.NormalizeFsPath | packages/mcp-tools/src/fs-store.ts:287-315 | what comes out is a legal path, equal to the input but for one trailing slash |
| Paths.NormalizeIdempotent | packages/mcp-tools/src/fs-store.ts:287-315 | a normalized path normalizes to itself |
| Paths.PathParts | packages/mcp-tools/src/fs-store.ts:317-318 | parent and base name determine the path, and the parent of a path is a shorter path |
| Paths.RewriteUnder | packages/mcp-tools/src/fs-store.ts:1165-1171 | the prefix rewrite commutes with taking the parent and keeps the base name |
| Paths.RewriteIsPath | packages/mcp-tools/src/fs-store.ts:1165-1171 | every rewritten path is legal and lies at or under the target |
| Paths.RewriteBack | packages/mcp-tools/src/fs-store.ts:1165-1171 | rewriting back recovers the path: no two rows land on one path |
| FsTree.WriteKeeps | packages/mcp-tools/src/fs-store.ts:870-903 | a write keeps the tree well formed (path = parent + name, every parent a directory) and usage equal to the sum of file sizes |
| FsTree.AppendKeeps | packages/mcp-tools/src/fs-store.ts:940-996 | so does an append |
| FsTree.MkdirKeeps | packages/mcp-tools/src/fs-store.ts:1016-1041 | so does mkdir -p |
| FsTree.RmKeeps | packages/mcp-tools/src/fs-store.ts:1056-1100 | so does an rm, recursive or not |
| FsTree.RestoreKeeps | packages/mcp-tools/src/fs-store.ts:1195-1275 | so does a restore |
| FsTree.MkdirChainKeeps | packages/mcp-tools/src/fs-store.ts:1961-1975 | the ancestors' inserts add only directories at or above the path, below the fixed roots, and change no size |
| FsTree.AncestorsPresent | packages/schema/src/migrations/0037-filesystem.ts:132-148 | in a well formed tree every ancestor of a row is a directory row |
| FsTree.NoCollision | packages/mcp-tools/src/fs-store.ts:1159-1173 | the one-shot prefix rewrite of a rename lands on no existing row |
| FsTree.MoveKeepsTree | packages/mcp-tools/src/fs-store.ts:1159-1173 | and re-parents the whole subtree: the tree is well formed afterwards |
| FsTree.MoveKeepsTotal | packages/mcp-tools/src/fs-store.ts:1159-1173 | and moves no bytes |
| FsTree.RenameKeeps | packages/mcp-tools/src/fs-store.ts:1109-1176 | a rename, clobbering or not, keeps the tree and the usage counter right |
| FsTree.RenameMovesSubtree | packages/mcp-tools/src/fs-store.ts:1109-1176 | each row of the subtree is found at its rewritten path with its content, kind and lock, and no longer at the old one |
| FsLocks.RunKeepsWellFormed | packages/mcp-tools/src/fs-store.ts:1083-1093 | over any sequence of calls by any actors the tree stays well formed and the counter stays the sum of the file sizes |
| FsLocks.ApplyFreezes | packages/mcp-tools/src/fs-store.ts:1505-1532 | while a path is locked, one call by anyone (the holder included) that is not its release changes, creates, moves or removes no row at or below it |
| FsLocks.LockedSubtreeIsFrozen | packages/mcp-tools/src/fs-store.ts:1505-1532 | the same over any sequence of calls without a release |
| FsLocks.ReleaseEndsIff | packages/mcp-tools/src/fs-store.ts:1378-1403 | a call ends the lock if and only if it is a permitted unlock of that path by the holder or an owner |
| FsLocks.RenameFreezes | packages/mcp-tools/src/fs-store.ts:1128-1129 | a rename touches nothing a lock covers, at either end |
| FsLocks.RmFreezes | packages/mcp-tools/src/fs-store.ts:1066 | an rm, recursive or not, removes nothing a lock covers |
| FsLocks.MkdirFreezes | packages/mcp-tools/src/fs-store.ts:1026-1032 | a mkdir -p creates nothing below a lock, and still succeeds on what exists |
| FsUndo.NumbersClimbIffFloor | packages/mcp-tools/src/fs-store.ts:1696-1706 | eviction never lowers a path's next version number if and only if the high-water mark of migration 0048 is in place |
| FsUndo.EvictedPathRestarts | packages/mcp-tools/src/fs-store.ts:1719-1727 | without it a fully evicted path starts over at 1 |
| FsReaper.LandsWithinBudget | packages/schema/src/migrations/0051-fs-evict-args-guard.ts:78-126 | a housekeeping pass leaves the snapshots at or under the budget, whatever there was |
| FsReaper.OwnGoLast | packages/schema/src/migrations/0051-fs-evict-args-guard.ts:65-126 | an operation's own snapshots stay, but for the path's cap, if and only if they alone fit the budget, and are touched only when the others left weigh nothing |
| FsReaper.NoneInVain | packages/schema/src/migrations/0051-fs-evict-args-guard.ts:78-96 | of the others the oldest go and the rest stay, and had the last that went stayed, the budget would have been exceeded |
| FsReaper.NewestIsSpared | packages/schema/src/migrations/0051-fs-evict-args-guard.ts:65-126 | so the snapshot an overwrite has just taken survives its own pass if it fits the budget |
| FsUndo.VersionsAreIdentifiers | packages/mcp-tools/src/fs-store.ts:1580-1675 | over any run, whatever a later state holds under a number the path had issued before, it held before: numbers are identifiers |
| FsUndo.OverwriteIsUndone | packages/mcp-tools/src/fs-store.ts:870-903 | a changed overwrite of non-empty versionable text that alone fits the version budget is undone by a version-less restore, byte for byte, usage included; the restore is refused if and only if the old bytes outgrow the new ones on a box over its quota |
| FsUndo.ShellOverwriteIsUndone | packages/mcp-tools/src/fs-store.ts:1540-1560 | so is a truncate followed by an append, under the same condition |
| FsUndo.RestoreToggles | packages/mcp-tools/src/fs-store.ts:1195-1275 | a roll-back is itself undone by a second restore when the replaced content was non-empty and fits the version budget, under the same condition |
| FsTrash.TrashHolds | packages/mcp-tools/src/fs-store.ts:1807-1862 | an rm's trash row holds the removed bytes unless the path was reported unrecoverable |
| FsTrash.RemovedIsRestorable | packages/mcp-tools/src/fs-store.ts:1056-1100 | after an rm, every removed file it did not report is ready to come back: writable, unlocked, its ancestors free |
| FsTrash.NothingReportedIff | packages/mcp-tools/src/fs-store.ts:1891-1913 | a removal reports files as unrecoverable if and only if their bytes outweigh the whole version budget |
| FsTrash.RmReportsIff | packages/mcp-tools/src/fs-store.ts:1050-1054 | the same of a whole rm, in the bytes it frees |
| FsTrash.TrashComesBack | packages/mcp-tools/src/fs-store.ts:1195-1275 | restoring any of them, each once and in any order, succeeds and ends with every one back byte for byte, unlocked and under the media type it had (or its path's), and the survivors untouched |
| FsRules.RunWithinQuota | packages/mcp-tools/src/fs-store.ts:1982-1996 | no run of calls takes the bytes in use past the quota, or past where they already were |
| FsRules.CallStaysInScope | packages/mcp-tools/src/fs-store.ts:656-671 | no call creates, changes, moves or removes a row outside its caller's write scope |
| FsRules.NamedRestore | packages/mcp-tools/src/fs-store.ts:1195-1275 | a restore that names a version lands that version's bytes and keeps the path's lock |
| FsRules.NamedRestoreMissesIff | packages/mcp-tools/src/fs-store.ts:1236-1241 | and is refused as missing if and only if no surviving snapshot bears the number |
| FsRules.SilenceKeepsTheMediaType | packages/mcp-tools/src/fs-store.ts:894-901 | a write that declares no media type keeps the one the file has; one that declares replaces it |
| FsStores.InsertChain | packages/mcp-tools/src/fs-store.ts:1961-1975 | the walk up and the inserts down are the chain of the specification |
| FsStores.Freed | packages/mcp-tools/src/fs-store.ts:1089-1093 | the sum over the deleted rows is the total of their sizes |
| FsStores.FsStore.Write | packages/mcp-tools/src/fs-store.ts:870-903 | the method commits exactly its transaction, or refuses with that error and changes nothing; the tree and the counter stay right |
| FsStores.FsStore.Append | packages/mcp-tools/src/fs-store.ts:940-996 | the method commits exactly its transaction, or refuses with that error and changes nothing; the tree and the counter stay right |
| FsStores.FsStore.Mkdir | packages/mcp-tools/src/fs-store.ts:1016-1041 | the method commits exactly its transaction, or refuses with that error and changes nothing; the tree and the counter stay right |
| FsStores.FsStore.Rm | packages/mcp-tools/src/fs-store.ts:1056-1100 | the method commits exactly its transaction, or refuses with that error and changes nothing; the tree and the counter stay right |
| FsStores.FsStore.Rename | packages/mcp-tools/src/fs-store.ts:1109-1176 | the method commits exactly its transaction, or refuses with that error and changes nothing; the tree and the counter stay right |
| FsStores.FsStore.Restore | packages/mcp-tools/src/fs-store.ts:1195-1275 | the method commits exactly its transaction, or refuses with that error and changes nothing; the tree and the counter stay right |
| FsStores.FsStore.Lock | packages/mcp-tools/src/fs-store.ts:1335-1368 | taken if and only if the row is there, the caller may write it and nobody else holds it (an owner overrides); then the caller holds it, nothing but the holder moved, and exactly the paths at or below it became covered |
| FsStores.FsStore.Unlock | packages/mcp-tools/src/fs-store.ts:1378-1403 | refused if and only if the path is not the caller's to write or someone else holds it; otherwise nobody holds it, nothing but the holder moved, and a path stays covered exactly by the other locks |
| PgMounts.PgFs.Flush | packages/mcp-tools/src/pg-fs.ts:303-313 | a buffer is dropped only when its append landed, whole; otherwise nothing at all changes; what the script sees does not change either way |
| PgMounts.PgFs.FlushSettled | packages/mcp-tools/src/pg-fs.ts:194-204 | every path gets its try, in order, and store and buffer end exactly where landing each that lands leaves them; the failing ones stay with all their bytes |
| PgMounts.PgFs.FlushAll | packages/mcp-tools/src/pg-fs.ts:188-191 | done if and only if the buffer is empty, else one error naming exactly the paths still buffered; done, the store holds what the script saw |
| PgMounts.PgFs.FlushBefore | packages/mcp-tools/src/pg-fs.ts:216-220 | throws if and only if one of the verb's own paths is left behind |
| PgMounts.PgFs.StatAbs | packages/mcp-tools/src/pg-fs.ts:316-328 | the memo answers what the store would |
| PgMounts.PgFs.ListAbs | packages/mcp-tools/src/pg-fs.ts:331-338 | so does the listing memo, and its children prime the stats truly |
| PgMounts.PgFs.ReadFile | packages/mcp-tools/src/pg-fs.ts:354-379 | reads the script's own view once its appends land; else the durable bytes; a path with buffered bytes never reads as missing |
| PgMounts.PgFs.Exists | packages/mcp-tools/src/pg-fs.ts:381-390 | true if and only if the path is in the script's view |
| PgMounts.PgFs.Stat | packages/mcp-tools/src/pg-fs.ts:392-408 | kind and size of the script's view, buffered bytes included |
| PgMounts.PgFs.Readdir | packages/mcp-tools/src/pg-fs.ts:414-420 | the names of the directory in the script's view, less new files that could not land |
| PgMounts.PgFs.WriteFile | packages/mcp-tools/src/pg-fs.ts:453-464 | the unbuffered write; the path's buffer is gone even when the write is refused |
| PgMounts.PgFs.AppendFile | packages/mcp-tools/src/pg-fs.ts:466-487 | the unbuffered append, in the buffer; it succeeds if and only if the context may write, the path is not locked and a full buffer could land, and a refused one still buffers exactly when only the flush failed |
| PgMounts.PgFs.Mkdir | packages/mcp-tools/src/pg-fs.ts:489-501 | the unbuffered mkdir, and without -p only for a new path; it succeeds if and only if the path is free of files, its store call goes and no flush it needs is left behind |
| PgMounts.PgFs.Rm | packages/mcp-tools/src/pg-fs.ts:503-518 | the unbuffered rm, whatever unrelated path failed to flush; it succeeds if and only if what it names is there, or force is, and the store removes it |
| PgMounts.PgFs.Mv | packages/mcp-tools/src/pg-fs.ts:544-552 | the unbuffered rename, likewise; it succeeds if and only if no path it touches is left buffered and the store renames |
| PgMounts.PgFs.Ask | packages/mcp-tools/src/pg-fs.ts:354-420 | a read, stat or listing leaves the script's view as it was and answers as the unbuffered file system does, unless a flush it needed could not land |
| PgMounts.PgFs.Change | packages/mcp-tools/src/pg-fs.ts:453-552 | a verb succeeds exactly under its stated condition, and has its reference effect or, refused, none at all; the unclean cases are computed: a refused write over buffered bytes, and an rm or mv that left a failed buffer below what it removed or above its target |
| PgMounts.PgFs.Script | packages/mcp-tools/src/pg-fs.ts:136-551 | refinement over whole scripts, refusals and unrelated failed flushes included: every verb is run, each succeeds or is refused exactly as stated, and as long as they are clean and fit, what the script sees is the unbuffered, uncached file system after the verbs that took effect and every answer is that file system's at that point; the last flush names exactly what it leaves in the buffer, and the store holds all when it leaves nothing |
| PgMounts.NothingRefused | packages/mcp-tools/src/pg-fs.ts:136-551 | a script nothing was refused in is the plain unbuffered run |
| PgMounts.MemosAfterFlushIff | packages/mcp-tools/src/pg-fs.ts:260-264 | a flush that makes parents leaves the memos true if and only if none of the new directories had been stat'ed or its parent listed |
| PgMounts.StaleAfterFlush | packages/mcp-tools/src/pg-fs.ts:303-313 | a concrete flush after which a stat still denies a directory that exists |
| PgView.LandingIsInvisible | packages/mcp-tools/src/pg-fs.ts:303-313 | moving a path's buffer into the store changes nothing the script sees |
| PgView.RenameView | packages/mcp-tools/src/fs-store.ts:1109-1176 | the store's rename is the reference rename |
| PgView.OverlayRenamed | packages/mcp-tools/src/pg-fs.ts:544-552 | buffered appends commute with a rename |
| KillSwitch.MovesIff | apps/box/src/kill-switch-client.ts:193-245 | a signal moves the state if and only if it is genuine, for this box, not an expired live lease and no older than what was seen; any other, foreign or replayed, moves the clock guard only |
| KillSwitch.StickyClearsIff | apps/box/src/kill-switch-client.ts:193-245 | off clears if and only if such a signal says live; while off nothing serves |
| KillSwitch.EqualGenerationClears | apps/box/src/kill-switch-client.ts:213-216 | a live signal of the same generation clears an off; the file's header asks for a strictly newer one |
| KillSwitch.ClockNeverRunsBack | apps/box/src/kill-switch-client.ts:172-175 | the clock guard only rises, and is at least every reading |
| KillSwitch.Converges | apps/box/src/kill-switch-client.ts:193-359 | with one kill state per generation, any order, duplication or replay ends at the highest generation delivered, in its kill state |
| KillSwitch.OrderDoesNotMatter | apps/box/src/kill-switch-client.ts:193-359 | two histories that deliver the same generations agree |
| KillSwitch.OffHolds | apps/box/src/kill-switch-client.ts:206-245 | after an off at generation g nothing serves until a live signal above g is delivered |
| KillSwitch.ServesIff | apps/box/src/kill-switch-client.ts:182-245 | an evaluation allows if and only if not sticky off and either a fresh live lease is in hand or the clock is short of the last one plus the grace period |
| KillSwitch.DeadMan | apps/box/src/kill-switch-client.ts:182-287 | if every live lease ever signed expires by some time, nothing serves one grace period after it on the box's clock, over any run |
| KillSwitch.HeartbeatsDoNotExtendLife | apps/box/src/kill-switch-client.ts:295-359 | a control never moves the grace window |
| KillSwitch.Compare | apps/box/src/kill-switch-client.ts:375-386 | the loop finds the first differing place, missing places counting as zero |
| KillSwitch.FloorOnlyClimbs | apps/box/src/kill-switch-client.ts:389-395 | the version floor never lowers over any run |
| KillSwitch.UnreadableFloorStays | apps/box/src/kill-switch-client.ts:389-395 | a first floor that is not all numbers is never replaced |
| Query.Params.Push | packages/mcp-tools/src/query-ast.ts:65-68 | $k denotes the value just pushed, and earlier ones do not move |
| Query.Compile | packages/mcp-tools/src/query-ast.ts:161-220 | the recursive compiler over the growing parameter list emits the specified tokens and parameters, or refuses with the specified error |
| Query.CompileEach | packages/mcp-tools/src/query-ast.ts:174-178 | the map-and-join over an and/or's nodes |
| Query.CompileRefListWhere | packages/mcp-tools/src/query-ast.ts:228-254 | the EXISTS over edges, verb bound first |
| Query.AcceptedIff | packages/mcp-tools/src/query-ast.ts:161-220 | a filter is accepted if and only if every field is known, every operator and value fits its kind, no and/or is empty, and nothing nests below level 8 |
| Query.BindsExactly | packages/mcp-tools/src/query-ast.ts:60-69 | the seeds stay an untouched prefix, followed by exactly the leaves' values in order |
| QueryMeaning.WherePreservesMeaning | packages/mcp-tools/src/query-ast.ts:161-252 | every accepted filter's text, parsed with SQL's precedence and evaluated in three-valued logic against its parameters, equals the tree's direct meaning on every row and for every comparison |
| QueryMeaning.TreeRenders | packages/mcp-tools/src/query-ast.ts:161-220 | it reads as one primary whatever follows it, with later parameters appended |
| QueryMeaning.SplicedWhere | packages/mcp-tools/src/reader.ts:965-971 | ANDed behind the list query's own conditions it keeps its meaning and they keep theirs |
| QueryMeaning.LeafMeaning | packages/mcp-tools/src/query-ast.ts:189-217 | each leaf's placeholder denotes the leaf's own value |
| Keyset.OrderedIs | packages/mcp-tools/src/query-ast.ts:261-278 | the order visits every row exactly once |
| Keyset.SelectThenOrder | packages/mcp-tools/src/query-ast.ts:306-316 | sorting the rows after the cursor is the matching part of the sorted table |
| Keyset.MatchesAfter | packages/mcp-tools/src/query-ast.ts:306-316 | after a non-null row the predicate matches exactly the later rows up to the first null |
| Keyset.PageAfter | packages/mcp-tools/src/query-ast.ts:306-316 | whatever the cursor's value lost on its way, the next page is the sorted table from the first row behind the cursor up to the first null; it continues where the last one stopped exactly under Keyset.Continues |
| Keyset.ContinuesIff | packages/mcp-tools/src/query-ast.ts:306-316 | with a value that only ever loses (a timestamp's microseconds), a page boundary holds, ascending, if and only if the last row's value survived the round trip, and descending if and only if the next row lies below what survived |
| Keyset.Page | packages/mcp-tools/src/reader.ts:973-1001 | one list call: a page from where the cursor leads and, when more was found, the last row's cursor as it is encoded |
| Keyset.Pages | packages/mcp-tools/src/reader.ts:973-1001 | following the cursors any number of calls shows exactly the pages of the sorted table that the encoded cursors lead to |
| Keyset.PagesCoverIff | packages/mcp-tools/src/query-ast.ts:306-316 | they end, and show the whole table without gap or repeat, if and only if it fits one page, or it has no null sort value (or is read descending with fewer nulls than a page) and every page boundary holds |
| Keyset.ExactCursorsCover | packages/mcp-tools/src/query-ast.ts:306-316 | so a sort whose values survive the cursor, by id or by text, is paged whole exactly under the null condition |
| Keyset.BulkNeverCovers | packages/mcp-tools/src/reader.ts:992-1001 | the failing input: more rows than a page written inside one millisecond, sorted ascending; following the cursors never ends |
| Keyset.GapIsSkipped | packages/mcp-tools/src/reader.ts:992-1001 | and descending, a row between a boundary row's value and what the cursor keeps of it is never shown |
| Migrations.Database.CommitPart | packages/schema/src/bootstrap.ts:107-119 | BEGIN to COMMIT: the migration's part and its ledger row land together or not at all, even when the answer to COMMIT is lost |
| Migrations.Database.RunConcurrent | packages/schema/src/bootstrap.ts:44-50 | the statements run one after the other outside a transaction, in the migration's order and each once: a prefix of them whatever happens, all of them on success |
| Migrations.Database.MarkDone | packages/schema/src/bootstrap.ts:99-101 | a row turns done only after all statements the list now gives it ran |
| Migrations.Database.Finish | packages/schema/src/bootstrap.ts:97-104 | a pending row is finished with the list's statements, whatever it was committed with |
| Migrations.Database.RunMigrations | packages/schema/src/bootstrap.ts:62-133 | one run, any statement failing, lost or fatal: the ledger stays the recorded history with at most its last row pending; drift or a lint finding changes nothing; a normal return means all are done, that everything from the first undone row on ran as the list has it now, exactly those statements in exactly the list's order, and lists exactly what this run finished; a run with nothing to do changes nothing; an undisturbed one succeeds |
| Migrations.Deployments | packages/schema/src/bootstrap.ts:62-133 | any number of restarts with an append-only list: the ledger is a prefix of the newest list and each transactional part commits exactly once, in order |
| Migrations.PartKeepsSound | packages/schema/src/bootstrap.ts:107-119 | committing the next migration keeps the ledger invariant |
| Migrations.SameChecksumIff | packages/schema/src/migrations/types.ts:46-51 | two versions of a migration have one checksum if and only if sql and statements, cut at every NUL, give the same pieces in order |
| Migrations.EditIsSeenIff | packages/schema/src/migrations/types.ts:46-51 | among texts without a NUL, which are all Postgres can be sent, if and only if sql and statements are the same |
| Migrations.DriftIsEdit | packages/schema/src/bootstrap.ts:89-95 | so a run refuses exactly the lists that edit a recorded migration, and the statements it finishes for a pending row are those it was committed with |
| Migrations.MovedStatementNeverRuns | packages/schema/src/bootstrap.ts:89-104 | with a NUL in the sql, a statement moved out of a still pending row never runs, yet the row turns done |
| Migrations.MovedStatementIsNotSeen | packages/schema/src/migrations/types.ts:46-51 | with a NUL in the sql, a statement moved across the sql/concurrent boundary leaves the checksum unchanged |
| EditDistances.EditDistance | packages/mcp-tools/src/catalog.ts:79-91 | the in-place single row computes the recursive distance |
| EditDistances.NoScriptIsCheaper | packages/mcp-tools/src/catalog.ts:79-91 | no script of keeps, inserts, deletes and replacements from one word to the other is cheaper |
| EditDistances.CheapestScript | packages/mcp-tools/src/catalog.ts:79-91 | and one achieves it |
| EditDistances.NoPathIsShorter | packages/mcp-tools/src/catalog.ts:79-91 | no sequence of single-character edits, anywhere and in any order, is shorter |
| EditDistances.Symmetric | packages/mcp-tools/src/catalog.ts:79-91 | symmetry |
| EditDistances.ZeroIffEqual | packages/mcp-tools/src/catalog.ts:79-91 | zero exactly between equal words |
| EditDistances.Triangle | packages/mcp-tools/src/catalog.ts:79-91 | the triangle inequality |
| Utf8.IsDiffableText | packages/mcp-tools/src/fs-vc-commands.ts:135-171 | the byte-index loop accepts if and only if the bytes encode some sequence of non-zero Unicode scalar values (section 4 of RFC 3629) |
| Utf8.DecodeUndoesEncode | packages/mcp-tools/src/fs-vc-commands.ts:135-171 | decoding an encoding gives the scalars back |
| Utf8.EncodeUndoesDecode | packages/mcp-tools/src/fs-vc-commands.ts:135-171 | encoding what an accepted input decodes to gives the bytes back |
| Utf8.EncodeOfDecode | packages/mcp-tools/src/fs-vc-commands.ts:135-171 | no overlong form, surrogate or number past U+10FFFF is decoded |
| Words.SliceOfPieces | apps/box/src/chunker.ts:87-92 | any slice of a text's word pieces, joined and trimmed, holds exactly that slice of its words |
| Chunker.SplitSentences | apps/box/src/chunker.ts:57-84 | the index scan is the sentence split of the specification |
| Chunker.SplitKeepsAll | apps/box/src/chunker.ts:57-84 | it drops nothing from one line whose terminators follow words |
| Chunker.BareNewlineDrops | apps/box/src/chunker.ts:44-55 | and drops a line that ends without one |
| Chunker.SplitByWords | apps/box/src/chunker.ts:87-92 | windows of one to cap words that together are the text's words |
| Chunker.ParagraphsKeepWords | apps/box/src/chunker.ts:109 | splitting at blank lines loses no word |
| Chunker.Units | apps/box/src/chunker.ts:106-122 | every unit has 1 to 300 words, and together they are the words kept |
| Chunker.Flush | apps/box/src/chunker.ts:127-139 | a flush emits the words in hand and seeds the next chunk with their last fifty |
| Chunker.ChunkBody | apps/box/src/chunker.ts:100-154 | one chunk up to 340 words; beyond, every chunk has at most 350, each later one begins with exactly the previous one's last 50, and with those heads removed they concatenate to the words of all units, so the final guard never drops content |
| RerankCache.RecencyOrders | apps/box/src/inference-cache.ts:32-57 | touch order lists every touched key once, by its last touch |
| RerankCache.TouchNewest | apps/box/src/inference-cache.ts:45-52 | keeping only the newest commutes with touching |
| RerankCache.Lru.Get | apps/box/src/inference-cache.ts:36-43 | a hit returns the stored value and makes the key newest; a miss changes nothing |
| RerankCache.Lru.Set | apps/box/src/inference-cache.ts:45-52 | the cache holds exactly the most recently touched keys up to its bound |
| RerankCache.KeyTells | apps/box/src/inference-cache.ts:150-153 | the key tells query, id and text hash apart among queries without NUL, or among ids without NUL |
| RerankCache.KeysMeetIff | apps/box/src/inference-cache.ts:150-153 | two calls share a key if and only if their texts' hashes agree and either query and id do, or one id ends in a NUL and the other's labelled id with its query short by just that; an id without NUL, such as a uuid, never does |
| RerankCache.KeysCollide | apps/box/src/inference-cache.ts:150-153 | with a NUL on both sides two different pairs share a key, the length prefix notwithstanding |
| RerankCache.RerankMemo.Rerank | apps/box/src/inference-cache.ts:155-187 | after any history of calls and evictions the answer is the model's own, in candidate order; the model is asked exactly for the uncached pairs; a model that is down is passed through |

## Left out

- Runs.Run: a poll that `Runs.Loses` describes may put a journal beyond healing, and Swap.StepPast shows one way; the tally of one version's verifications is kept only while every poll leaves memory and file in step, since a stale save can uncount a failure.
- Runtime.RunTick: leaves out the operator prune op (its mark is saved as the restart op's is, and only that save can throw), bundle parsing and the infra plan (one nondeterministic fetch), heartbeat telemetry and the backoff wait; the self-pin reconcile is one effect that may throw.
- Swap.HealFromSnapshot: the tree is back but for entries a bundle of the series added, because restoreDeploySnapshot skips what the snapshot lacks; Hosts.HealedTreeExact gives the condition.
- Hosts.BoxHost.ClearDeploySnapshot: a removal cut short with the stamp left behind is assumed away, as said above.
- Polls.JournalStandsUnless: what becomes of a journal displaced by another version's attempt is Swap.SnapshotForAnother's; nothing heals it later.
- FsStores.FsStore: row security, advisory locks and the version-insert retries, timestamps and authorship columns, and the text of refusals are not modelled.
- FsUndo.VersionsAreIdentifiers: needs migration 0048; before it numbers restart, as FsUndo.EvictedPathRestarts shows.
- FsUndo.OverwriteIsUndone: about a snapshot that alone fits the version budget (256 MiB as shipped, against 1 MiB for versionable text); so are FsUndo.ShellOverwriteIsUndone and FsUndo.RestoreToggles.
- PgMounts.PgFs.Readdir: a set of names; their order is the database's.
- PgMounts.PgFs: cp, symlinks, modes and times, and the reconciliation after an external restore are left out; a transient store failure is modelled on flushes only.
- QueryMeaning.WherePreservesMeaning: starts from tokens; the characters of the SQL text, quoting and the driver are not modelled, nor are operator names inherited from an object prototype.
- Query.Compile: coerceWhere, which repairs malformed client input, is left out.
- Keyset.Pages: the base64 and JSON syntax of a cursor and its validation are left out; what the encoding does to the value is not.
- KillSwitch.ServesIff: is about validate and boot evaluations; the decision an ignored control returns has no grace check in the code and is not claimed to have one.
- Migrations.Database.RunMigrations: the linter is one bit, and the advisory lock one statement; a second concurrent migrator is not modelled.
- Chunker.ChunkBody: covers the words of the units; what splitSentences drops at bare newlines and stray terminators is documented behaviour, shown by Chunker.BareNewlineDrops.
- RerankCache.RerankMemo.Rerank: a model that is up scores every candidate it is asked about.
- Utf8.IsDiffableText: bit masks and shifts are written as the arithmetic they compute.
- limitConcurrency, memoizeEmbedQuery, the gate that polls the kill switch, homeStubFs, listTrash and the read-only queries are not modelled: routing, formatting or smaller than the cores above.
- Docker, cosign, HTTP, Postgres connections, environment parsing and logging appear only as effects that may succeed, fail or kill the process.
