# ArcReel: a verified model of planning, generation and artifact bookkeeping

A Dafny model of the parts of the system where losing text, files, tasks or claims would go unnoticed,
with proofs of what those parts promise.

- **Episode planning and its reset.** `EpisodeAnchors` locates the model's anchors in the source text.
  `EpisodeLedger` holds the ledger's rule, `EpisodePlanner` and `EpisodeReset` what the planner and the
  independently coded reset validator do, `EpisodeRuns` the theorems over every run, `EpisodeWorkspace` the
  loops and the in-place commit, `EpisodeFiles` the files a reset deletes or keeps.
- **The generation worker.** `SlotTables` (occupancy ledger), `OrphanDispatch` (resumed work beside claimed
  work), `ClaimLoop`, and `TaskLifecycle` (one attempt against cancellation).
- **The sliding-window rate limiter.** `RateLimiter`.
- **The artifact manifest.** `ManifestStore` (both adapters), `ClaimRekey` (moving claims under faults),
  `ArtifactKeys` and `ManifestCodec` with `Base64`, `Utf8`, `Json`, `TextOrder` and `Decimals` (the texts),
  `Activation`, `ScriptClaims`, `ResetClaims` and `FormalWrite` (the transactions around it).
- **Sizes, renames and batch accounts.** `AspectSize`, `AssetRename`, `BatchEnqueue`, `GenerationResults`,
  `BatchOutcomes`.

`Prelude` and `SourceText` are shared. State that the program changes in place is a class whose methods are
proved equal to specification functions; the theorems are about those functions and about runs over them.
Unicode tables, provider lookups, the queue's answers, the clock, the model's answers, faults and what other
writers do in between are parameters.
`dafny verify dfyconfig.toml` checks everything.

Three promises are false of the code as it stands, and are stated with their exact condition: the request gap
holds only up to sixty seconds (`RateLimiting.GapHoldsExactlyUpToTheWindow`), a single-path field that names a
numbered reference image dangles after a rename (`AssetRename.SinglePathsFollowUnlessNumbered`), and
enqueue-and-wait reports a failed spec twice when it shares its ID with a queued one
(`BatchEnqueue.WaitingReportsOnceExactlyForDistinctIds`). One docstring names two states that the final cancel
write accepts (`lib/generation_queue.py:699`); the worker relies on three (`lib/generation_worker.py:798-800`),
and the model follows the worker.

## Model

| member | source | states |
|---|---|---|
| EpisodeAnchors.FoldLaws | lib/episode_planner.py:197-213 | folding keeps the length, is idempotent and commutes with slices, so an offset found in folded text is an offset of the text itself |
| EpisodeAnchors.FoldForMatch | lib/episode_planner.py:197-213 | the character loop computes the fold of the whole text |
| EpisodeAnchors.FindAllOverlapping | lib/episode_planner.py:216-230 | the search loop returns every start of the needle, overlapping ones included, in order; nothing for an empty needle |
| EpisodeAnchors.LocateMeaning | lib/episode_planner.py:254-285 | an anchor is located at an end exactly when it has one overlapping occurrence there: exactly, or folded and normalised when it occurs nowhere exactly |
| EpisodeAnchors.LocatedSliceIsTheAnchor | lib/episode_planner.py:254-285 | a located end lies in (0, window length] and closes a slice equal to the anchor, or fold-equal to the normalised anchor |
| EpisodeAnchors.AcceptedExactlyWhenLocatedInOrder | lib/episode_planner.py:233-308 | drafts are accepted exactly when every anchor is uniquely located and the ends strictly increase, and the answer is then those ends with a blank tail absorbed |
| EpisodeAnchors.AcceptedEndsCutTheWindow | lib/episode_planner.py:286-308 | accepted ends strictly increase within (0, window length], one per anchor, and a snapped blank tail is absorbed completely |
| EpisodeAnchors.ResolveBoundaries | lib/episode_planner.py:233-308 | the loop with its position, order flag and lazily folded window gives the specified acceptance or the specified list of reasons |
| EpisodeLedger.MatchingFingerprintMeansSameText | lib/episode_ledger.py:237-263 | when no recorded digest mismatches, every recorded file still has its recorded text |
| EpisodeLedger.ChainReadsTheSources | lib/episode_planner.py:559-594 | whitespace aside, a gapless chain of episode ranges reads exactly the sources up to its last end, nothing lost and nothing twice |
| EpisodePlanner.OrphanFileBlocksPlanning | lib/episode_ledger.py:350-385 | a derived file without ledger entry is registered without a position, and that number is then reported as missing one, which stops planning |
| EpisodePlanner.StableSortOrders | lib/episode_planner.py:1011-1014 | sorting the ledger orders it by number, keeps every entry exactly once and leaves an ordered ledger alone |
| EpisodePlanner.SkipBlankMeaning | lib/episode_planner.py:465-486 | the place reached is the first with content, with only blank text skipped; none is reached exactly when everything from the start on is blank |
| EpisodePlanner.AcceptedAttemptCutsTheWindow | lib/episode_planner.py:656-691 | whatever the model answers, accepted boundaries number between one and the batch limit and cut the window into non-empty pieces |
| EpisodeRuns.GateOfWellPlanned | lib/episode_planner.py:441-460 | in a state left by planning no check stops a planning call, and it resumes at the end of the last episode |
| EpisodeRuns.CommitKeepsWellPlanned | lib/episode_planner.py:536-599 | a commit over sources as they were read succeeds exactly when its start is still where planning resumes; it then appends exactly its episodes and keeps numbering, chain, cursor, digests and derived files right |
| EpisodeRuns.ResetKeepsWellPlanned | lib/episode_reset.py:477-514 | a reset that goes through keeps exactly the episodes before the given number and leaves a well-planned state |
| EpisodeRuns.ValidatorAgreesWithPlanner | lib/episode_reset.py:267-426 | on what the planner writes, the independently coded validator accepts exactly episodes 2..n and answers the end of the episode before |
| EpisodeRuns.EveryRunIsWellPlanned | lib/episode_planner.py:417-629 | from an empty ledger every interleaving of planning calls, commits and resets stays well planned |
| EpisodeRuns.ValidatorAcceptsEveryReachableLedger | lib/episode_reset.py:267-426 | in every reachable state the validator accepts each from-number in 2..n with the right cursor and refuses every other |
| EpisodeRuns.DerivedFilesReadTheSources | lib/episode_planner.py:898-946 | in every reachable state the derived files read in order are, whitespace aside, exactly the sources up to the cursor |
| EpisodeRuns.ReportedExhaustionIsTrue | lib/episode_planner.py:465-479 | whenever a planning call reports the sources exhausted, early, after recording missing digests or at its commit, the derived files hold all of the sources, whitespace aside |
| EpisodeWorkspace.FindEffectiveStart | lib/episode_planner.py:708-753 | the scan for the last anchored episode and the comparison with the cursor give the specified start |
| EpisodeWorkspace.RegisterOrphans | lib/episode_ledger.py:350-385 | the loops add one position-less entry for every discovered number without an entry, then sort where possible |
| EpisodeWorkspace.RequestValidatedDrafts | lib/episode_planner.py:633-691 | the attempt loop gives the boundaries of the first of at most three answers that passes, or none |
| EpisodeWorkspace.SkipExhaustedSources | lib/episode_planner.py:465-486 | the while loop over blank remainders stops at the specified place |
| EpisodeWorkspace.ResolvePartialResetCursor | lib/episode_reset.py:267-426 | on any ledger, however corrupt, the validator's loops answer exactly when the shape is clean, 1..from-1 are all there with coordinates and form a chain over unchanged sources, and then with the end of episode from-1 |
| EpisodeWorkspace.ScanConsumed | lib/episode_reset.py:129-208 | the scan collects every consumed number in scope, from the ledger's status and from products on disk |
| EpisodeWorkspace.Workspace.Prepare | lib/episode_planner.py:441-534 | the part of a planning call before its commit gives the specified preparation and writes nothing |
| EpisodeWorkspace.Workspace.BackfillFingerprints | lib/episode_planner.py:816-847 | an exhausted plan that read digests leaves them; one that read none records them under the lock, unless a source differs from what is recorded by then or from what the call had read |
| EpisodeWorkspace.Workspace.ReconcileDerivedFiles | lib/episode_planner.py:885-958 | if any listed range is invalid no file changes; otherwise every listed episode is rewritten from its range and every unlisted derived file is gone |
| EpisodeWorkspace.Workspace.Commit | lib/episode_planner.py:536-599 | the commit, its checks in the order of the code, yields exactly the specified new project and derived files, or the specified error and no change at all |
| EpisodeWorkspace.Workspace.CommitReset | lib/episode_reset.py:477-514 | the locked part of a reset yields exactly the specified outcome; a refused, conflicting or unconfirmed reset changes nothing |
| EpisodeFiles.CandidatesAreDistinct | lib/episode_reset.py:96-113 | fresh-name attempts for different files, or different attempts for one, never coincide |
| EpisodeFiles.FindArchiveName | lib/episode_reset.py:96-113 | the search ends and finds the first free attempt |
| EpisodeFiles.ArchiveNameIsFresh | lib/episode_reset.py:96-113 | the name found is unused, starts with an underscore, ends in .bak and is taken neither for an episode file nor for a source |
| EpisodeFiles.ResetAccountsForEveryFile | lib/episode_reset.py:190-260 | an in-scope episode file is deleted only if its number has entries and all of them carry coordinates, else it lives on under its fresh name with its content; everything else but the remaining-text file is untouched |
| EpisodeFiles.FullResetLeavesNoEpisodeFile | lib/episode_reset.py:516-542 | after a full reset, whatever the ledger, no derived file is discoverable and orphan registration adds nothing |
| EpisodeFiles.ResetLeavesTheSources | lib/episode_ledger.py:214-234 | a reset leaves the candidate sources exactly as they were |
| EpisodeFiles.SourceDirectory.Scan | lib/episode_reset.py:129-208 | the scan sorts the in-scope episode files into those to delete and those to keep, in whatever order the directory is read |
| EpisodeFiles.SourceDirectory.ApplyFiles | lib/episode_reset.py:219-260 | deletions and renames in any order end in the specified directory |
| EpisodeFiles.SourceDirectory.Reset | lib/episode_reset.py:516-542 | scan and disposal together turn the directory into the specified one |
| RateLimiting.PruneIsRecent | lib/gemini_shared.py:112-114 | dropping old entries from the front of the log is keeping exactly those of the last sixty seconds |
| RateLimiting.LogIsTheRecentHistory | lib/gemini_shared.py:105-133 | after every run the pruned log is what the full grant history holds of the last sixty seconds |
| RateLimiting.PrunedLogDecidesAsTheHistory | lib/gemini_shared.py:109-181 | every turn decides on the pruned log as it would on the full history |
| RateLimiting.GrantsAreSpaced | lib/gemini_shared.py:88-181 | in every interleaving a grant is more than sixty seconds after the one a full limit before it, and keeps the gap from every earlier one or is more than sixty seconds later |
| RateLimiting.NoWindowExceedsTheLimit | lib/gemini_shared.py:124-133 | no closed window of sixty seconds holds more grants than the limit |
| RateLimiting.GapHoldsExactlyUpToTheWindow | lib/gemini_shared.py:116-122 | consecutive grants keep the request gap in all runs exactly when the gap is at most sixty seconds |
| RateLimiting.ForgottenGrant | lib/gemini_shared.py:112-122 | for any larger gap, a run of two turns that breaks it because the first grant was pruned |
| RateLimiting.AsyncWaitSuffices | lib/gemini_shared.py:158-181 | an asynchronous acquirer that waits as told is granted on its next turn if nobody comes between |
| RateLimiting.RateLimiter.TakeTurn | lib/gemini_shared.py:108-133 | one pass of either loop, under the lock, takes the specified decision and leaves the specified log, touching no other model's |
| RateLimiting.RateLimiter.Acquire | lib/gemini_shared.py:88-103 | an acquire takes turns until one is granted; a model without positive limit passes and leaves no trace |
| RateLimiting.LogsAreTheRunsLogs | lib/gemini_shared.py:103-133 | the logs the limiter keeps are the logs of the runs the bounds speak of |
| SlotTables.PoolFullIsExact | lib/generation_worker.py:628-644 | the full set computed from occupied providers alone is exactly the providers with positive capacity and occupancy at least that |
| SlotTables.SlotTable.Register | lib/generation_worker.py:314-324 | a task takes or overwrites its slot; other lanes and tasks stay |
| SlotTables.SlotTable.Promote | lib/generation_worker.py:326-337 | promotion clears the pending flag of that task only; an absent task changes nothing |
| SlotTables.SlotTable.Release | lib/generation_worker.py:339-346 | release removes the task whatever its phase, and no empty bucket stays behind |
| SlotTables.SlotTable.DrainFinished | lib/generation_worker.py:372-382 | draining removes exactly the finished occupants that are not pending, in every lane, and returns exactly those |
| SlotTables.SlotTable.FindByTask | lib/generation_worker.py:364-370 | the task's handle is found if and only if some lane holds the task |
| OrphanDispatch.LaneBounds | lib/generation_worker.py:697-743 | in every interleaving claimed tasks stay within the capacity, promoted orphans within the semaphore, all in flight within twice the capacity |
| OrphanDispatch.CapacityHoldsExactlyWhenTheBatchFits | lib/generation_worker.py:1334-1377 | after a batch registers, the capacity is never exceeded exactly when the claimed tasks and the orphans the semaphore admits fit into it together |
| OrphanDispatch.BatchFirstNeverExceeds | lib/generation_worker.py:1365-1377 | a batch registered before any claim never drives the lane over its capacity |
| OrphanDispatch.RegisterPending | lib/generation_worker.py:1366-1375 | the whole batch is registered as pending in one go, other lanes untouched |
| ClaimLoop.LaneRunMeaning | lib/generation_worker.py:656-747 | whatever the queue returns and others do, a lane ends after at most one round more than it has queued rows, and only because every untried row belongs to a provider found full, or a non-video row went back from a full provider, or one text task was dispatched; buckets stay within capacity |
| ClaimLoop.TriedInVain | lib/generation_worker.py:699-732 | every row excluded in a cycle is a video task that was put back while the provider it resolves to was full |
| ClaimLoop.CycleIsSafe | lib/generation_worker.py:646-747 | a whole cycle pushes no bucket past its capacity and handles every row as specified |
| ClaimLoop.Worker.ClaimLane | lib/generation_worker.py:656-747 | the loop ends and is a legal lane run from the state it found to the state it leaves |
| ClaimLoop.Worker.ClaimTasks | lib/generation_worker.py:646-747 | the cycle is one legal lane run after the other, and reports whether any row was dispatched or failed |
| ClaimLoop.Worker.Place | lib/generation_worker.py:678-745 | a claimed row is failed, put back or given a slot exactly as capacity and room decide, nothing else changing |
| ClaimLoop.LeftoversAreFull | lib/generation_worker.py:628-644 | a queued row the claim query passes over belongs to a provider that is full |
| TaskLifecycle.DrainedTaskIsSettled | lib/generation_worker.py:792-910 | once a task's coroutine has ended and been drained, its row is succeeded, failed, cancelled or queued again |
| TaskLifecycle.DrainSettles | lib/generation_worker.py:792-810 | draining any ended coroutine leaves the row neither running nor cancelling |
| TaskLifecycle.TerminalRowsStay | lib/generation_worker.py:839-910 | no later event of any run changes a terminal row |
| TaskLifecycle.CompensationFollowsTheRow | lib/generation_queue.py:673-686 | activated media are undone at most once, exactly when the success write hit no row, and once that write ran exactly when the row is not succeeded |
| TaskLifecycle.CompensableResult.CompensateCancelled | lib/generation_queue.py:325-342 | the undo runs on the first call only |
| TaskLifecycle.TaskRow.MarkSucceeded | lib/generation_queue.py:673-686 | a success write takes effect on a running row only, and otherwise undoes the result once |
| TaskLifecycle.TaskRow.Finish | lib/generation_worker.py:848-910 | an ending that affects no row is followed by a cancel write, so the row is always settled |
| ManifestStore.MemoryKeepsPathsUnique | lib/artifact_manifest.py:522-584 | every in-memory call keeps each formal path owned by at most one key, and one that raises changes nothing |
| ManifestStore.FileFollowsMemory | lib/artifact_manifest.py:1034-1237 | after any admissible call the file holds the claims the in-memory adapter holds, and the answers differ exactly when the call only rewrites the file's form |
| ManifestStore.FileRunFollowsMemoryRun | lib/artifact_manifest.py:1034-1237 | any sequence of admissible calls leaves the file holding the in-memory claims, with every path owned once |
| ManifestStore.RecoveryEndsReadable | lib/artifact_manifest.py:1047-1104 | the two recovery calls act only on files readers refuse, leave files they accept, change nothing when they raise, and replace an unreadable file only by claims whose artifacts are there |
| ManifestStore.OnlyRecoveryEndsAConflict | lib/artifact_manifest.py:1047-1104 | over every run of ordinary calls and recoveries, a file that readers refuse stays as it is and every access raises until a recovery succeeds, and from then on it stays readable |
| ManifestStore.AssertUniquePaths | lib/artifact_manifest.py:1915-1926 | one pass with a map of owners decides whether two keys own one path |
| ManifestStore.MemoryAdapter.PutEntry | lib/artifact_manifest.py:522-530 | the in-memory put is the specified one |
| ManifestStore.MemoryAdapter.ReplaceEntriesIfMatches | lib/artifact_manifest.py:536-557 | the in-memory scoped swap, with its loops, is the specified one |
| ManifestStore.MemoryAdapter.ReplaceSnapshotIfMatches | lib/artifact_manifest.py:559-572 | the in-memory snapshot swap is the specified one |
| ManifestStore.MemoryAdapter.ReplaceEntries | lib/artifact_manifest.py:574-584 | the in-memory whole replacement is the specified one |
| ManifestStore.SidecarAdapter.PutEntry | lib/artifact_manifest.py:1034-1045 | the file put is the specified one |
| ManifestStore.SidecarAdapter.DeleteEntry | lib/artifact_manifest.py:1106-1126 | the file delete is the specified one; the last claim takes the file with it |
| ManifestStore.SidecarAdapter.ReplaceEntriesIfMatches | lib/artifact_manifest.py:1142-1177 | the file scoped swap is the specified one |
| ManifestStore.SidecarAdapter.ReplaceSnapshotIfMatches | lib/artifact_manifest.py:1179-1211 | the file snapshot swap is the specified one |
| ManifestStore.SidecarAdapter.ReplaceEntries | lib/artifact_manifest.py:1213-1237 | the file whole replacement is the specified one; it refuses claims whose artifacts are absent |
| ClaimRekey.PlanRekeyMeaning | lib/artifact_manifest.py:383-433 | a plan describes the claims it was made from; carried out, it moves the claim with its digest to the target key and touches no other key |
| ClaimRekey.SwapIsGuarded | lib/artifact_manifest.py:536-557 | under any fault a swap writes only while its expectation holds, all its keys at once and no other |
| ClaimRekey.ComparedMeaning | lib/artifact_manifest.py:1892-1896 | comparing key by key never writes and succeeds exactly when each key was as expected at the moment it was read |
| ClaimRekey.CommitMeaning | lib/artifact_manifest.py:206-234 | for any faults and any other writers: a commit succeeds exactly when its swap ran undisturbed over claims as before with single owners; one that re-raises has put back before over after, or read every key as before; every claim set it leaves is one of these or what others wrote |
| ClaimRekey.CommitFollowsOthersElsewhere | lib/artifact_manifest.py:206-234 | a key the plan does not change is at every end just what the other writers made of it |
| ClaimRekey.CommitAlone | lib/artifact_manifest.py:206-234 | alone on the store a fresh plan takes effect as a whole or not at all; an incomplete rollback is reported only when the rollback itself failed |
| ClaimRekey.SharedStore.Commit | lib/artifact_manifest.py:206-234 | the commit leaves exactly the specified claims and ends as specified, whatever its surroundings |
| ClaimRekey.CompensateMeaning | lib/artifact_manifest.py:184-194 | compensation restores before exactly where after still stood when it swapped, so that it never overwrites another claim; it finds nothing to do exactly when it read every key as before; otherwise it raises |
| ClaimRekey.CommitThenCompensate | lib/artifact_manifest.py:184-234 | a committed rekey is undone by its receipt: the keys are as before and all others as other writers left them; with nobody writing the claims are exactly the old ones |
| ClaimRekey.SharedStore.Compensate | lib/artifact_manifest.py:184-194 | the compensation leaves exactly the specified claims and answers as specified |
| ClaimRekey.RegisterMeaning | lib/artifact_registration.py:234-294 | a batch registers exactly when every artifact is there, every guard was observed, something is to change and the claims are as observed when it swaps; then every guard holds at that moment and exactly the batch is written; no other end writes, except a commit that broke |
| ClaimRekey.RegisterFollowsOthersElsewhere | lib/artifact_registration.py:234-294 | a claim outside the batch, guarded or not, is at every end just what the other writers made of it |
| ClaimRekey.RegisterAlone | lib/artifact_registration.py:234-294 | alone on the store a batch is registered as a whole or every claim is as it was, unless its own rollback fails, which is reported |
| ClaimRekey.SharedStore.Register | lib/artifact_registration.py:234-294 | the registration, with its reads, its look for the artifacts and its commit, leaves exactly the specified claims and ends as specified |
| ClaimRekey.SharedStore.CompensateRegistration | lib/artifact_registration.py:44-51 | a registration is undone only while its claim still stands, and no other key is touched |
| Base64.RoundTrip | lib/artifact_manifest.py:1740-1757 | unpadded URL-safe Base64 decodes to the bytes encoded |
| Utf8.RoundTrip | lib/artifact_manifest.py:1740-1758 | UTF-8 decodes to the text encoded |
| Utf8.Strict | lib/artifact_manifest.py:1757-1758 | at most one byte sequence decodes to a text: overlong forms are refused |
| Json.ValueRoundTrip | lib/artifact_manifest.py:1741-1745 | every JSON value printed compactly, with spaces or indented is read back, and the reader stops exactly behind it |
| Json.RoundTrip | lib/artifact_manifest.py:1912-1912 | parsing a printed JSON text with trailing whitespace gives back the value |
| ArtifactKeys.DecodeOfEncode | lib/artifact_manifest.py:1740-1764 | every valid key survives its text |
| ArtifactKeys.EncodeOfDecode | lib/artifact_manifest.py:1749-1764 | every accepted text is the canonical text of a valid key |
| ArtifactKeys.EncodeIsInjective | lib/artifact_manifest.py:1740-1747 | different valid keys never share a text |
| ArtifactKeys.AcceptedExactlyWhenCanonical | lib/artifact_manifest.py:1749-1764 | a text is accepted exactly when it is some valid key's text, so padding, stray bits and spare spaces are refused |
| ManifestCodec.ManifestRoundTrip | lib/artifact_manifest.py:1899-1912 | the strict manifest reader gives back exactly the claims that were written |
| ManifestCodec.ManifestTextIsLawful | lib/artifact_manifest.py:2024-2066 | the manifest text obeys the laws the sidecar adapter needs: what is written is read back, what is read is admissible |
| ManifestCodec.ManifestFileFollowsMemory | lib/artifact_manifest.py:1034-1237 | on the real file format any sequence of admissible calls keeps the in-memory claims |
| ManifestCodec.ArchiveRoundTrip | lib/artifact_manifest.py:1929-2021 | an archive snapshot with single-owner paths is encoded, and decodes to itself |
| Activation.SchemaAdvancesLast | lib/artifact_activation.py:115-138 | at every point of every run, crashed or not, an advanced schema was preceded by the replacement of the claims by the whole plan and by a check that found every input unchanged since |
| Activation.EveryStoppingPointIsConsistent | lib/artifact_activation.py:106-143 | with no other claim writer the claims are at every point the old ones or the whole plan; an advanced schema comes with the plan; an undone drift leaves the old claims |
| Activation.OwnStepsOnClaims | lib/artifact_activation.py:115-131 | a step of the activation changes the claims only in the replacement and in an undo that finds the very claims it put there |
| Activation.UndoSparesOtherWriters | lib/artifact_activation.py:114-131 | whoever else writes claims: a drift that ends as undone leaves exactly the claims remembered before the replacement, and the undo itself wrote only over the plan |
| Activation.BackedUpBeforeReplacing | lib/artifact_activation.py:436-451 | the claims are replaced only when project and scripts, if nobody else edits, and the old claims, if nobody else writes claims, are backed up as they stand |
| Activation.ProjectDirectory.InputsUnchanged | lib/artifact_activation.py:409-424 | the check passes exactly when every input is as planned |
| Activation.ActivationIsARun | lib/artifact_activation.py:94-143 | every whole activation is a run of the state machine in which only what its surroundings told came from outside or failed |
| Activation.ActivationIsSafe | lib/artifact_activation.py:106-143 | so for whole activations: the schema advances only past the plan and an unchanged check, a failing step or incomplete undo has a cause, and with no other claim writer the claims are the old ones or the plan, the old ones where the result says so |
| Activation.ActivatedExactlyWhenUnchanged | lib/artifact_activation.py:106-138 | an activation goes through exactly when nothing fails and the inputs are as planned at all three checks |
| Activation.ProjectDirectory.Activate | lib/artifact_activation.py:94-143 | the activation, phase by phase, leaves exactly the directory and gives the result that its course says |
| ScriptClaims.ScriptCommitMeaning | lib/artifact_activation.py:325-406 | whoever else wrote since the preflight: when a script change registers, then at one moment its claim, every orphan and every grid claim were as seen in the preflight; its claim is set, every orphaned and stale grid claim is gone, and no other claim changed |
| ScriptClaims.ScriptCommitAlone | lib/artifact_activation.py:325-406 | alone on the store a script change registers exactly unless an artifact is missing, nothing is to change, a path is taken or the swap fails, and otherwise leaves every claim, barring a reported rollback failure |
| ScriptClaims.CommitScript | lib/artifact_activation.py:325-406 | preflight, gathering and commit leave exactly the claims of the specified guarded batch |
| ScriptClaims.GatherOrphans | lib/artifact_activation.py:361-378 | the gathered keys are the episode's resource claims outside the script plus all claims of removed or replaced resources |
| ResetClaims.ForgetEpisodesMeaning | lib/episode_reset.py:497-540 | whoever else wrote since the snapshot: when a reset removes claims, each was still as seen, all are gone at one moment and every other claim is as it then stood |
| ResetClaims.ForgetEpisodesAlone | lib/episode_reset.py:497-540 | alone on the store exactly the claims out of scope remain, after a full reset none of any episode, and a failure leaves every claim, barring a reported rollback failure |
| ResetClaims.ForgetEpisodes | lib/episode_reset.py:497-540 | gathering and removal leave exactly the claims of the specified guarded batch |
| FormalWrite.FormalFiles.Begin | lib/formal_write.py:108-118 | one snapshot per directory entry, covering exactly the listed paths |
| FormalWrite.FormalFiles.RestoreSnapshots | lib/formal_write.py:56-77 | a restore that reports no failure leaves every listed path exactly as remembered; no other path is touched, even after failures |
| FormalWrite.FormalFiles.CompensateCancelled | lib/formal_write.py:31-38 | a receipt restores exactly when every file is still what was committed, and otherwise touches nothing |
| FormalWrite.ForgettingMeaning | lib/grid_manager.py:146-154 | whoever else writes: a grid counts as deleted only when its claim was taken out of the claims as they stood or was found absent; otherwise the claims are what the others left or the commit put back what it had observed; every other claim follows the others |
| FormalWrite.ForgettingAlone | lib/grid_manager.py:146-154 | with nobody else writing the claim goes with the files or every claim stays, unless a failing rollback is reported, and without a fault it goes |
| FormalWrite.GridManager.Delete | lib/grid_manager.py:130-155 | a grid is deleted exactly when both files went and its claim was forgotten; else both files are as before, barring a reported restore failure, and the claims are as specified; an unreadable record takes no claim with it |
| FormalWrite.GridManager.Update | lib/grid_manager.py:59-88 | an update succeeds exactly when the record is there and readable and change, write and commit hook succeed; a failing one leaves the record as it was, barring a reported restore failure |
| AspectSize.ReduceMeaning | lib/aspect_size.py:55-56 | dividing by the greatest common divisor keeps the ratio and leaves terms of which some combination is one |
| AspectSize.PlainRatioIsRead | lib/aspect_size.py:43-56 | a plain ratio text is read as that ratio in lowest terms |
| AspectSize.LegalSizesAreMultiples | lib/aspect_size.py:92-112 | every size with exactly the ratio and divisible sides is a multiple of the smallest one |
| AspectSize.SizeIsOptimal | lib/aspect_size.py:59-112 | the size has exactly the ratio and divisible sides; if any such size meets the caps it does too and none that does has a short side closer to the target, else it is the smallest; only a negative pixel budget fails |
| AssetRename.ThereAndBack | lib/asset_rename.py:157-176 | renaming a composed stem there and back is the identity |
| AssetRename.PlanRenames | lib/asset_rename.py:228-277 | planning succeeds exactly when nothing collides, and then moves exactly the files to rename, each to its own free place |
| AssetRename.MovesNeverLandOnAFile | lib/asset_rename.py:258-277 | when its turn comes, a move's source is still there and its target free |
| AssetRename.RenamingIsInjective | lib/asset_rename.py:258-277 | the directory afterwards is the directory before under an injective renaming |
| AssetRename.ListedImagesFollow | lib/asset_rename.py:217-225 | every listed reference image that pointed to a file points to the same content afterwards |
| AssetRename.SinglePathsFollowUnlessNumbered | lib/asset_rename.py:188-216 | a single-path field that pointed to a file points to the same content afterwards exactly when it does not name a numbered file of a collected sequence |
| AssetRename.NumberedFieldDangles | lib/asset_rename.py:202-216 | a rename after which such a field is left dangling |
| AssetRename.OthersAreLeftAlone | lib/asset_rename.py:201-207 | folders and paths that lead elsewhere are left alone by moves and rewriting |
| AssetRename.Entry.RewritePaths | lib/asset_rename.py:188-225 | every path field of an entry is rewritten as specified, and the count is zero exactly when nothing changed |
| AssetRename.AssetDirectory.RenameFiles | lib/asset_rename.py:228-277 | files move one by one as planned; a collision is found before anything moves |
| BatchEnqueue.EnqueueSequentially | lib/generation_queue_client.py:537-638 | the loop, with its early end, reports exactly the specified queued and failed specs, in order |
| BatchEnqueue.EveryRequestIsReportedOnce | lib/generation_queue_client.py:561-638 | every requested spec is reported once, as queued or as failed |
| BatchEnqueue.QueuedDependenciesAreQueued | lib/generation_queue_client.py:565-579 | a queued spec never depends on a resource that failed before it, and waits for that resource's latest task |
| BatchEnqueue.NothingAfterTheFirstFailure | lib/generation_queue_client.py:601-627 | with stop-on-failure nothing is queued or tried after the first failure |
| BatchEnqueue.WaitingReportsOnceExactlyForDistinctIds | lib/generation_queue_client.py:738-797 | enqueue-and-wait reports every spec once, whatever the queue answers, exactly when the reported IDs are distinct |
| BatchEnqueue.SuccessesAndFailuresAreAllResults | lib/generation_queue_client.py:714-797 | successes and failures together are the results the statement above is about |
| BatchEnqueue.EnqueueAndWait | lib/generation_queue_client.py:714-797 | the waited-for specs are sorted by the outcome of the last task queued under their ID, in order, and the never queued ones follow the failures |
| GenerationResults.RaisesExactlyOnRepeats | lib/generation_result.py:700-796 | a sequence of builder calls raises exactly when it repeats an ID or records an ill-formed item |
| GenerationResults.EveryBuiltResultIsAccepted | lib/generation_result.py:328-354 | every sequence of calls that does not raise builds a result the validator accepts: requested is the disjoint union of the three buckets and disjoint from skipped |
| GenerationResults.GenerationResultBuilder.RecordItem | lib/generation_result.py:792-796 | an item is recorded, or refused without any change |
| GenerationResults.GenerationResultBuilder.Build | lib/generation_result.py:798-811 | the bucket loop builds the specified result, and the validator accepts it |
| BatchOutcomes.FoldedMeaning | lib/generation_result.py:838-890 | folding reports into a builder raises exactly on an ID that repeats or was recorded before, and what is recorded can be built |
| BatchOutcomes.FoldingRaisesExactlyOnRepeatedUnits | lib/generation_result.py:814-890 | folding a whole enqueue-and-wait raises, whatever the queue answered and however the tasks ended, exactly when two requested specs are reported under one unit; what it builds is accepted |
| BatchOutcomes.RecordBatchOutcomes | lib/generation_result.py:814-890 | the two loops record successes, then failures, up to the first that raises |
| GenerationResults.SelectMissing | lib/generation_result.py:505-532 | missing-only sorts the named candidates into targets, reusable and unjudgeable ones, in order |
| GenerationResults.SiftingLosesNobody | lib/generation_result.py:505-532 | every candidate lands in exactly one place |
| GenerationResults.SelectExplicit | lib/generation_result.py:486-503 | an explicit request is answered in the order asked, each ID once, by the last candidate with it or as unmatched; an empty one is refused |
| GenerationResults.EveryWantedIdIsAccountedFor | lib/generation_result.py:496-503 | every wanted ID is matched by a candidate of that ID or reported unmatched, each once |

## Left out

- EpisodeWorkspace.Workspace.CommitReset: the claims of the reset episodes are removed in `ResetClaims`, not in this method.
- A task that its own coroutine returns to the queue while the claim loop is still in the same lane: the loop's termination assumes that rows only leave the queue meanwhile.
- Slots given back, and rows settled, between the claim of a row and its placement; before the claim both are modelled.
- Edits and claim writes between two reads of one check in `Activation.ProjectDirectory.Activate`; the runs of `Activation` have them.
- The schema-preserving activation and the check of the schema version before an activation.
- Episode numbers written in other decimal digits than 0 to 9, and the interpreter's limit on the length of an integer text.
- Several padded files for one episode number in the state machine of planning and reset; `EpisodeFiles` treats every such file.
- A ledger `episodes` field that is a mapping or a string where the planner would iterate over it; the model calls every non-list malformed.
- Loading a source that is not among the candidate files, and candidate files that appear, vanish or change during a run.
- Prompts, titles, hooks, outlines, statistics and the JSON of model answers: an answer is a list of anchors or unreadable.
- The factor 1.2 of the planning window as a floating-point number; the model uses the exact fraction.
- Symbolic links and junctions under `source/` as a reason to refuse a commit.
- The rollback of project metadata files around a planning commit or a reset; `FormalWrite` models that transaction on its own.
- Limits or capacities changed while a run is going on, and the loading of limits from environment and database.
- A row that was put back in the queue and claimed again: `TaskLifecycle` follows one attempt.
- Resuming a submitted video task after a restart, apart from its place in the slot table.
- Database errors in the status writes of a task, other than a failing return to the queue in the claim loop.
- A pending orphan cancelled before its first step keeps its slot; only safety bounds are proved, no eventual release.
- The byte-level atomic replacement, file locks, descriptor checks and permission errors of the manifest file; a locked read or write of one optional byte sequence stands for them.
- The artifact planner, the currency resolver and basis composition; a plan is a map of claims and inputs.
- Manifest texts with numbers that have a fraction or exponent, or with lone surrogates: the readers of the model refuse them, and so would the field checks.
- The order in which `decode_artifact_manifest_payload` sorts fields before it reads them by name.
- Paths in fields of an asset entry before they are normalised; the model starts from the parsed directory and name.
- Hard links, case-insensitive file systems and two spellings of one file in rename planning.
- The rewriting of references inside scripts and drafts by `rewrite_payload_references`.
- A `round_to` that is not positive in `aspect_size`, the ratio warning, and rounding errors of the one floating-point division.
- `resolution_to_short_edge`, problem codes, rendering of results and provider checkpoints: easy members only.
