# Verified model of the crash-diagnostics bundle tools

A Dafny model of the hard core of the repository: the redo journal of `diagnose.sh`, the
attempt protocol between `attempt-runner.mjs` and `attempt-supervisor.mjs` with its evidence
acceptor, the native and WebAssembly trigger code, the settings-restore ledger, the readiness
token, the capture log, the root-checks stage, the baseline wave store, CPU lists, pinned
contexts and seeded schedules. `dafny verify dfyconfig.toml` checks everything.

The shared abstractions: a bundle is a map from path to content; rename, unlink and exclusive
creation are atomic; a kill may come between any two steps, loses a process's variables and keeps
the files; SHA-256 is an injective function where that is needed; a lock is mutual exclusion.

## How the files go together

- Redo journal: `RedoPlan` (dependency closure), `Artifacts` and `RunConfig` (allowlists),
  `RunMetadata` (metadata rewrite), `RedoMarker` (the marker's writer and parser), `BundleTree`
  (files), `RedoSteps` (the execution as a program of steps), `RedoRecovery` (the acceptance
  checks and the crash relation), `RedoAuthorization`, `RedoTheorems`, `RedoRun` (the execution as
  it runs), `RedoEntry` (what `main` does first), `RedoResume` (a later process: reloading and
  reconciliation), `RedoNames` (the writer's lists), `RedoWriter`, `RedoExamples`.
- Attempt protocol: `AttemptRunner`, `AttemptCleanup`, `AttemptSystem` (both machines and their
  channels), `AttemptSafety`, `AttemptAgreement`, `AttemptTerminal`, `AttemptEvidence` (the
  acceptor), `AttemptResults` (producer against acceptor), `AttemptFaults` (which runs are refused),
  `AttemptOutput`, `AttemptExamples`.
- Trigger code: `ByteMemory`, `MiniWasm` (decoder), `MiniWasmRun`, `CloneMachine`, `CloneSpin`,
  `CloneEntry`, `CloneHarness`, `Reaper`.
- `RestoreLedger`, `ReadinessToken`, `CaptureLog`, `RootStage`.
- Wave store: `BaselinePhase`, `BaselineStore`, `BaselineCommits`, `BaselineLimits`,
  `BaselineExample`.
- `CpuLists`, `ConcurrentContexts`, `Schedules`, with `SortedIds` and `Text` below them.

## What turned out not to hold

- A redo of pinned-concurrent evidence whose automatic CPU choice rests on that very evidence,
  while completed frequency or gdb results are kept, is accepted at first and refused after a kill.
  `RedoTheorems.EveryKillIsAcceptedIff` gives the exact condition,
  `RedoExamples.InterruptedPinnedRedoIsRefused` a concrete bundle.
- `main` recreates `gdb` and `logs/individual` before it recovers a redo. The recovery is then
  refused exactly when such a recorded path had already been archived:
  `RedoEntry.PreparationBlocksRecoveryIff` and `RedoExamples.PreparedGdbRedoIsRefused`.
- `main` reconciles a pending redo before it derives the provenance of the automatic CPU choice
  (diagnose.sh:6413, before 6442). A pending redo that keeps completed, non-skip frequency or gdb
  evidence under the policy auto is therefore refused at every resume, wherever it was killed, and
  every other accepted redo is reconciled wherever it was killed: `RedoResume.ReconciliationAcceptsIff`,
  over whole histories `RedoResume.EveryResumeIsReconciledIff`. The condition includes that of the
  first point (`RedoResume.LostProvenanceIsAutomatic`); `RedoExamples.ResumedPinnedRedoIsRefused` is
  a bundle that every execution would accept and no resume does.
- The evidence acceptor does not accept every result: one in which a supervisor's exit status comes
  without its identity, a workload without its start, the kill too early after TERM, or streams at
  odds with the recorded drain is refused, and in every run nothing else is
  (`AttemptResults.ResultIsAcceptedIff`); `AttemptFaults.RefusedIff` names the events of the run
  behind it. For each of the four assumptions that exclude this, `AttemptExamples` has a run that
  breaks it, meets the other three and ends in a refused result.
- A failed print into the new restore ledger goes unnoticed. The law of the ledger then survives
  exactly if every entry that was not printed is already at its original value
  (`RestoreLedger.Ledger.Restore`); over a session it holds exactly until the first restore that
  forgets an entry (`RestoreLedger.Session`). In `RestoreLedger.ForgottenSetting` the restore
  fails, the next recovery reports success, and the setting stays changed.
- The driver of the WebAssembly probe adds spin counts as JavaScript numbers. Of the counts up to
  2^53 the odd ones above 2^53 - 2^32 + 2, and no others, make it report corruption in some round
  on a machine without faults (`MiniWasmRun.NeverMismatchesIff`).
- The reader of the capture log refuses an emitted log exactly if one of its lines is longer than
  512 characters, which a CPU text of at most 273 characters excludes
  (`CaptureLog.AcceptedIffEmitted`).
- Every 64-bit total completes only for 0 < batch < 2^32; any other batch size stalls on some
  total (`CloneHarness.EveryTotalCompletesIff`).
- A wave commit checks its own size but not the store's total. It then publishes the wave, reports
  failure, and the store can never be read again (`BaselineLimits.CommitSucceedsIff`,
  `BaselineLimits.OversizedForever`).
- A committer that loses a race without the lease and is killed before it removes its temporary
  file leaves a whole store that no listing accepts again (`BaselineLimits.RacingLoserBlocks`);
  under the lease this cannot happen (`BaselineCommits.LeasedReadSucceedsIff`). Two initializers
  that are both killed before they publish block every listing as well
  (`BaselineLimits.TwoDeadInitializersBlock`); `BaselineLimits.ListsAgainIff` states exactly which
  states can never be listed again.
- The canonical CPU-list test also accepts one comma at the end of the first line, whatever
  follows that line, a text whose first line is empty, and numbers of 2^63 and above that wrap
  around to a list in range, such as 18446744073709551621 for 5 (`CpuLists.WrappedNumbersPass`).
  And compressing the expansion of `5,3` gives it back although it is rejected.
  `CpuLists.AcceptedIff` states the exact condition.

## Model

| member | source | states |
|---|---|---|
| Text.SplitJoin | diagnose.sh:1711-1853 | tab- and slash-separated records read back exactly the fields that were printed |
| Text.JoinSplit | diagnose.sh:1711-1853 | no two lines have the same fields: every line is the join of its own |
| Text.DecimalRoundTrip | diagnose.sh:1667-1689 | a printed number has no leading zero and is read back as itself |
| Text.ValueRoundTrip | diagnose.sh:1667-1689 | every text matching the canonical number pattern is the print of its value |
| RedoPlan.ReadRequest | diagnose.sh:1555-1577 | a request is taken exactly when its names are known, distinct and available in the schema |
| RedoPlan.CloseOver | diagnose.sh:1579-1600 | the loop over dependencies ends in the least set of phases that contains the request and is closed |
| RedoPlan.InRankOrder | diagnose.sh:1602-1607 | the plan lists exactly that set, in rank order, without repetition |
| RedoPlan.BuildRedoPlan | diagnose.sh:1555-1607 | accepted iff the request is acceptable; then rank-ordered and the least closed superset of the request |
| Artifacts.OwnedIsApart | diagnose.sh:1622-1665 | no allowlisted path contains or lies in the archive, the marker, the metadata or a phase marker |
| Artifacts.RecordedPathsDoNotNest | diagnose.sh:1622-1665 | two different allowlisted paths never nest |
| Artifacts.StateNamesAreApart | diagnose.sh:1187-1247 | the phase markers' names differ from all recorded names |
| RunConfig.NamesAreDistinct | diagnose.sh:1661-1689 | configuration keys have different names, so a key's row is its own |
| RunConfig.NamesArePlain | diagnose.sh:1661-1689 | no key contains a separator of the metadata or marker format |
| RunMetadata.RewriteMetaAtomic | diagnose.sh:1093-1160 | the loops write exactly the specified rewritten file |
| RunMetadata.RewriteSetsConfig | diagnose.sh:1093-1160 | after a rewrite every written key reads as configured, for any old file |
| RunMetadata.RewriteWithoutConfig | diagnose.sh:1249-1277 | a rewrite without a configuration leaves every key as it read |
| RunMetadata.RewriteIsIdempotent | diagnose.sh:1093-1160 | rewriting a rewritten file changes nothing |
| RedoMarker.ValidateMarker | diagnose.sh:1711-1853 | the line-by-line validator computes the specified parser |
| RedoMarker.MarkerAcceptedIff | diagnose.sh:1691-1853 | a text is accepted as a transaction iff the transaction is valid and the text is what the writer prints for it; so the marker round-trips and has one spelling |
| RedoMarker.RecordPathText | diagnose.sh:1614-1620 | a safe path prints without separators and is read back as the same path |
| BundleTree.MoveAt | diagnose.sh:2186-2189 | a rename moves each node below the source to the same place below the target |
| BundleTree.MoveKeepsContents | diagnose.sh:2186-2189 | the moved subtree has the same contents as before |
| RedoSteps.StepSettles | diagnose.sh:2129-2211 | each step of the execution leaves nothing of itself to do |
| RedoSteps.SettledStays | diagnose.sh:2129-2211 | no later step undoes what an earlier, compatible one settled |
| RedoSteps.RepeatedPrefix | diagnose.sh:2129-2211 | repeating steps over a state that already has them leaves that state |
| RedoSteps.ProgramIsCompatible | diagnose.sh:2129-2211 | no two steps of a valid transaction interfere |
| RedoSteps.TargetsAreApart | diagnose.sh:2129-2211 | archive destinations of different records never nest |
| RedoSteps.SourcesAreApart | diagnose.sh:1622-1659 | recorded sources never nest |
| RedoRecovery.StepKeepsInterrupted | diagnose.sh:2129-2211 | every step keeps each record whole on exactly one side and the archive path clear |
| RedoRecovery.KilledIsInterrupted | diagnose.sh:2129-2211 | so does a kill after any number of steps |
| RedoRecovery.RecoverableStarts | diagnose.sh:2092-2127 | a bundle that passes the pair check can be where an execution starts |
| RedoRecovery.InterruptedIsRecoverable | diagnose.sh:2044-2127 | every state a kill leaves passes the pair and parent checks again |
| RedoRecovery.OnlyTheFurthestKillMatters | diagnose.sh:2129-2211 | any sequence of kills leaves what its furthest kill alone leaves |
| RedoRecovery.RecoveryConverges | diagnose.sh:2129-2211 | running the execution again after any sequence of kills of executions with the same globals gives the uninterrupted bundle |
| RedoAuthorization.RetainedFootprint | diagnose.sh:1887-1897 | what is on disk for a phase outside the transaction is the same after any kill |
| RedoAuthorization.NewMetaMatches | diagnose.sh:1899-1954 | once rewritten, every compared key reads as the transaction's value |
| RedoAuthorization.PolicyIsStable | diagnose.sh:1899-1954 | the CPU policy consulted is the same before and after the rewrite |
| RedoAuthorization.CpuChoiceIsStable | diagnose.sh:1899-1954 | a kept phase's CPU choice is the same after a kill unless its provenance is lost |
| RedoAuthorization.AuthorizedAgain | diagnose.sh:1887-1954 | what the target check allowed at the start it allows after any kill, unless provenance is lost |
| RedoAuthorization.FilesUntilPublication | diagnose.sh:2129-2211 | metadata and marker are unchanged until the publication step |
| RedoAuthorization.FilesAfterPublication | diagnose.sh:2129-2211 | from the publication step on, the metadata is the rewritten one |
| RedoTheorems.KilledIsAccepted | diagnose.sh:2129-2136 | the checks of the execution, with the same globals and readers, accept the bundle again after a kill at any step, unless provenance is lost |
| RedoTheorems.NothingIsLostAtAnyKill | diagnose.sh:1622-1659 | at every kill each record but a vanished readiness token is unchanged on exactly one of source and archive, and no two recorded or archived paths nest |
| RedoTheorems.ConfigurationIsVisibleLast | diagnose.sh:2129-2211 | whenever the metadata has changed, every artifact has left its source and every phase marker of the transaction is gone |
| RedoTheorems.UninterruptedRunFinishes | diagnose.sh:2129-2211 | an uninterrupted run ends with all records archived unchanged, markers gone, metadata rewritten, the journal marker gone, all else as it was |
| RedoTheorems.LostProvenanceIsRefused | diagnose.sh:1899-1954 | when provenance is lost the state after the evidence moves is refused |
| RedoTheorems.EveryKillIsAcceptedIff | diagnose.sh:2129-2136 | the checks of the execution accept every kill again iff provenance is not lost |
| RedoTheorems.RecoveryIsAcceptedAndConverges | diagnose.sh:2129-2211 | after any number of kills the checks of the execution accept, and it ends in the finished state of the uninterrupted run |
| RedoRun.ChecksHold | diagnose.sh:2046-2127 | at each point of an execution the check the code makes there passes |
| RedoRun.Bundle.PrepareArchive | diagnose.sh:2137-2166 | creates and re-checks the archive root, the stash and all target parents, as far as its steps allow |
| RedoRun.Bundle.PrepareParents | diagnose.sh:2046-2060 | creates one record's parents, one directory at a time |
| RedoRun.Bundle.InvalidatePhases | diagnose.sh:2171-2176 | removes exactly the transaction's phase markers, in order |
| RedoRun.Bundle.RecheckParents | diagnose.sh:2186-2188 | finds the parents made before in place |
| RedoRun.Bundle.ArchiveRecords | diagnose.sh:2179-2197 | moves exactly the records still at their source |
| RedoRun.Bundle.Finish | diagnose.sh:2199-2211 | publishes the metadata, then drops the marker |
| RedoRun.Bundle.ExecuteAccepted | diagnose.sh:2129-2211 | an accepted execution never fails a check and leaves the bundle its steps so far give |
| RedoRun.Bundle.Execute | diagnose.sh:1711-2211 | a process refuses iff its checks refuse, leaving the bundle alone, and otherwise leaves what its steps so far give |
| RedoEntry.PreparationBlocksRecoveryIff | diagnose.sh:6494-6540 | preparing the directories first keeps a recovery acceptable iff no recorded prepared path had been archived |
| RedoEntry.RevocationKeepsRecoverable | diagnose.sh:5406-5417 | revoking the readiness token first never blocks a recovery |
| RedoResume.AdoptedTwice | diagnose.sh:1855-1877 | adopting the marker's configuration at reconciliation and again at execution is adopting it once |
| RedoResume.RewriteReloads | diagnose.sh:274-380 | the rewritten metadata passes the loader's checks, and loading and adopting it gives the globals it was written from |
| RedoResume.BringsAgain | diagnose.sh:274-380 | whatever a kill leaves loads again, and the next process has the very same globals |
| RedoResume.ReloadingChangesNothing | diagnose.sh:2129-2211 | processes that each load their own globals leave what executions with the first one's globals leave, over any sequence of kills |
| RedoResume.MatchWithoutProvenance | diagnose.sh:1288-1309 | without provenance a completed phase matches only if it matches with it, and differs only for non-skip evidence under auto |
| RedoResume.ReconciledIsAccepted | diagnose.sh:2024-2044 | what the reconciliation accepts the execution accepts, whatever provenance is derived in between |
| RedoResume.LostProvenanceIsAutomatic | diagnose.sh:4991-5015 | a redo that loses its provenance is among those the reconciliation refuses |
| RedoResume.KeptCpuIsNeverReconciled | diagnose.sh:6413 | a redo that keeps evidence of an automatic CPU choice is refused by the reconciliation wherever it was killed |
| RedoResume.ReconciliationAcceptsIff | diagnose.sh:6413 | an accepted redo is reconciled at every kill, and equally at any kill, iff it keeps no evidence of an automatic CPU choice |
| RedoResume.ResumesConverge | diagnose.sh:6413-6545 | then after any number of kills, each resumed by a new process, the configuration loads, the redo is reconciled and accepted, and ends in the finished state of one uninterrupted run |
| RedoResume.EveryResumeIsReconciledIff | diagnose.sh:6413 | over all histories of kills and resumes, every resume is reconciled iff the redo keeps no evidence of an automatic CPU choice |
| RedoExamples.InterruptedPinnedRedoIsRefused | diagnose.sh:1899-1954 | a concrete accepted redo that a kill makes refused |
| RedoExamples.ResumedPinnedRedoIsRefused | diagnose.sh:6413 | a concrete bundle that the execution accepts after every kill and the reconciliation after none |
| RedoExamples.ResumedRedoIsPossible | diagnose.sh:6413-6545 | a concrete bundle that meets everything RedoResume.ResumesConverge asks for |
| RedoExamples.PreparedGdbRedoIsRefused | diagnose.sh:6494-6540 | a concrete accepted redo that the directory preparation makes refused after a kill |
| RedoNames.ResultsAreOwned | diagnose.sh:1625-1627 | the families of result names do not overlap |
| RedoNames.FixedIsNotGlobbed | diagnose.sh:2282-2301 | no name of a fixed list matches one of its phase's patterns |
| RedoNames.FixedPathsAreAllowed | diagnose.sh:2270-2281 | each fixed name the writer looks for is allowlisted under its own phase, and listed once |
| RedoWriter.NamesAreAllowed | diagnose.sh:2264-2303 | so are the fixed names together with what the patterns match |
| RedoWriter.RecordPresent | diagnose.sh:2217-2222 | records exactly the listed paths present, or refuses on an unsafe parent |
| RedoWriter.GatherRecords | diagnose.sh:2266-2306 | the records are exactly the derived outputs and planned phases' artifacts present |
| RedoWriter.ClosedPlanIsComplete | diagnose.sh:1579-1607 | a closed plan has every phase the validator demands |
| RedoWriter.PlanStaysSupported | diagnose.sh:1609-1612 | closing a supported request adds no unsupported phase |
| RedoWriter.ApplyRedoPlan | diagnose.sh:2256-2309 | the marker written parses back to the same version, id, configuration, phases and records; none is written only for an unacceptable request or an unsafe source |
| AttemptCleanup.SignalCleanupTarget | diagnose-lib/attempt-runner.mjs:497-566 | only listed members still present are signalled, all of them when the mode is identity-bound, and none otherwise |
| AttemptSafety.CleanupStep | diagnose-lib/attempt-runner.mjs:1068-1257 | cleanup keeps the protocol state, asks for shutdown at most once and only when no live workload can be launched |
| AttemptSafety.MessageAdvances | diagnose-lib/attempt-runner.mjs:808-1051 | a message sends the launch at most once, only before a terminal choice |
| AttemptSafety.ShutdownStep | diagnose-lib/attempt-supervisor.mjs:175-301 | every step of either machine keeps the shutdown invariant |
| AttemptSafety.ShutdownNeverMeetsALiveWorkload | diagnose-lib/attempt-runner.mjs:1099-1148 | over all interleavings no shutdown request meets a started, unexited workload |
| AttemptAgreement.AgreementStep | diagnose-lib/attempt-supervisor.mjs:175-333 | every step keeps the messages in flight those the runner expects next |
| AttemptAgreement.ExpectedMessage | diagnose-lib/attempt-runner.mjs:808-1051 | an expected message with a passing identity check advances the runner and breaks nothing |
| AttemptAgreement.NoProtocolError | diagnose-lib/attempt-runner.mjs:808-1051 | without a supervisor fatal, an affinity difference or a failed identity check no run raises a protocol error |
| AttemptTerminal.TerminalChoice.Choose | diagnose-lib/attempt-runner.mjs:458-476 | the first choice is kept with its cause and time, later ones change nothing |
| AttemptTerminal.ChoiceStep | diagnose-lib/attempt-runner.mjs:234-260 | every step keeps the recorded cause justified |
| AttemptTerminal.EveryCauseIsJustified | diagnose-lib/attempt-runner.mjs:651-740 | in every run a natural exit had an in-order exit stamped by the deadline, and every other cause its own reason |
| AttemptTerminal.ChoiceIsFinal | diagnose-lib/attempt-runner.mjs:458-476 | a recorded cause never changes |
| AttemptTerminal.WindowEndsOnALiveWorkload | diagnose-lib/attempt-runner.mjs:990-1051 | an observation window ends only on the deadline timer, after the deadline, with no exit processed and the bound workload read live |
| AttemptResults.CompleteIffNoFailure | diagnose-lib/attempt-runner.mjs:560-597 | cleanup counts as complete iff there is no failure reason |
| AttemptResults.ResultIsAccepted | diagnose-lib/attempt-evidence.mjs:127-315 | a result built from a state that meets the invariants is accepted iff it is faultless, and is faultless under the assumptions |
| AttemptResults.CarriedStep | diagnose-lib/attempt-runner.mjs:1068-1257 | every step keeps those invariants, and every assumed step the parts that need the assumptions |
| AttemptResults.ResultIsAcceptedIff | diagnose-lib/attempt-evidence.mjs:127-365 | in every run, with no assumption, a finished attempt's result is accepted iff a reported exit has an identity, workload and start go together, the grace period holds, and the recorded drain agrees with the streams |
| AttemptResults.EveryResultIsAccepted | diagnose-lib/attempt-evidence.mjs:127-365 | over all orders of messages, timers, aborts and probes meeting the four assumptions, a finished attempt's result is accepted |
| AttemptResults.CancelledIsAccepted | diagnose-lib/attempt-runner.mjs:377-412 | the result of a cancel before launch is accepted |
| AttemptFaults.StepTakes | diagnose-lib/attempt-runner.mjs:891-945 | a workload's identity stands without its start exactly after a started message whose ticks differ from the read; an exit status exactly after a reported exit |
| AttemptFaults.FinishingReports | diagnose-lib/attempt-runner.mjs:1180-1257 | the result of the finishing step says what the runner holds then |
| AttemptFaults.RefusedIff | diagnose-lib/attempt-evidence.mjs:127-365 | a run that ends as its attempt finishes is refused iff an exit was reported and no identity read, or a started message had other ticks, or destroyed streams were complete in the end, or KILL came inside the grace period |
| AttemptExamples.UnseenSupervisorIsRefused | diagnose-lib/attempt-evidence.mjs:176-182 | a run that breaks only the identity assumption and ends in a refused result |
| AttemptExamples.LateEndIsRefused | diagnose-lib/attempt-evidence.mjs:358-365 | a run that breaks only the stream assumption and ends in a refused result |
| AttemptExamples.EarlyKillIsRefused | diagnose-lib/attempt-evidence.mjs:243-314 | a run that breaks only the grace assumption and ends in a refused result |
| AttemptExamples.ChangedTicksAreRefused | diagnose-lib/attempt-runner.mjs:921-933 | a run that breaks only the tick assumption and ends in a refused result |
| AttemptOutput.OutputAccumulator.OnData | diagnose-lib/attempt-runner.mjs:262-321 | the accumulator's state is a function of the bytes so far, not of their chunks |
| AttemptOutput.OutputAccumulator.OnEnd | diagnose-lib/attempt-runner.mjs:262-321 | ending keeps the content |
| AttemptOutput.OutputAccumulator.OnError | diagnose-lib/attempt-runner.mjs:262-321 | an error keeps the content |
| AttemptOutput.OutputAccumulator.Finish | diagnose-lib/attempt-runner.mjs:262-321 | the evidence depends on the content alone |
| AttemptOutput.Accumulate | diagnose-lib/attempt-evidence.mjs:327-365 | any chunking of any content gives the evidence of the concatenation, and the acceptor takes it |
| AttemptOutput.AcceptedExcerptIsWhole | diagnose-lib/attempt-evidence.mjs:327-365 | an accepted untruncated excerpt with the content's digest is the content |
| MiniWasm.ModuleDecodes | mini-wasm.mjs:11-32 | the module's 94 bytes decode to spin and bump with these types and instructions |
| MiniWasmRun.BumpRuns | mini-wasm.mjs:13-32 | a call of bump adds one to the word at 0 and returns to its caller |
| MiniWasmRun.SpinReturns | mini-wasm.mjs:13-32 | for every 32-bit n and memory, spin terminates with mem[0]+n mod 2^32 returned and stored, all other bytes unchanged |
| MiniWasmRun.CallSpin | mini-wasm.mjs:34-43 | one call from JavaScript returns and stores that word |
| MiniWasmRun.Drive | mini-wasm.mjs:38-53 | on a machine without faults, for spin counts up to 2^53, a mismatch is reported iff some round's sum is odd and above 2^53 |
| MiniWasmRun.OddReaches | mini-wasm.mjs:44-46 | an odd spin count brings the counter to every residue |
| MiniWasmRun.NeverMismatchesIff | mini-wasm.mjs:44-46 | that happens in no round iff the spin count is even or at most 2^53 - 2^32 + 2 |
| CloneSpin.BumpCall | repro-c.c:247-304 | a call of bump_clone adds one to the memory word, keeps the other words and returns behind the call |
| CloneSpin.Turn | repro-c.c:247-304 | one turn of spin_clone's loop adds one to the memory word and to the budget cell |
| CloneEntry.LoopRuns | repro-c.c:247-304 | the loop with n left adds n to both words |
| CloneEntry.CloneEntryReturns | repro-c.c:212-304 | for every count and layout a call terminates, returns the memory word plus n, adds n to both words, restores the caller's registers and touches nothing else |
| CloneEntry.CloneMatchesWasm | repro-c.c:212-304 | the assembly and the WebAssembly module return the same word |
| CloneHarness.EveryTotalCompletesIff | repro-c.c:709-723 | every 64-bit total is completed iff 0 < batch < 2^32 |
| CloneHarness.OtherBatchStalls | repro-c.c:709-723 | any other batch size stalls on a total of 2^32 |
| CloneHarness.Execute64 | repro-c.c:709-723 | the machine runs to the end of the call |
| CloneHarness.Round | repro-c.c:709-723 | one call as the harness sees it: value, both words and memory, the same for every immediate patched into the code |
| CloneHarness.SetUpCells | repro-c.c:823-839 | what the harness maps and writes is what a call needs: stack limit, memory base, a zero budget cell, the word kept |
| CloneHarness.RunClone | repro-c.c:661-730 | for all pages apart from stack and each other never a mismatch: it passes with the count at total, or stalls, exactly as the batch arithmetic says |
| CloneHarness.RunChurn | repro-c.c:819-865 | the same over one linear memory, with fresh instance, budget and code pages in every round, the code patched with the round number, while older pages go |
| CloneHarness.RunChurnMem | repro-c.c:905-958 | the same with every page fresh in every round and unmapped after it, the code patched with the round number |
| CloneHarness.LoopsAreCallable | repro-c.c:661-839 | one stack and one set of pages meet what the loops ask for |
| CloneHarness.CallLoops | repro-c.c:661-958 | with them all three loops pass for every batch size that fits 32 bits |
| Reaper.RetireRing.Push | repro-c.c:774-787 | refused when full; otherwise the queue grows by one and no occupied slot is overwritten |
| Reaper.RetireRing.Take | repro-c.c:757-772 | takes the oldest entry and keeps the rest |
| Reaper.RunConserves | repro-c.c:748-787 | in every interleaving retired entries are unmapped, held or queued, in order, and nothing else is |
| Reaper.EveryMappingIsUnmappedOnce | repro-c.c:748-787 | nothing is unmapped more often than retired, and after the join exactly as often |
| Reaper.Execute | repro-c.c:748-787 | the ring carries out every interleaving with the queue's contents |
| RestoreLedger.CheckEntries | diagnose-lib/common.sh:417-447 | accepts exactly non-empty lists of distinct, allowed entries |
| RestoreLedger.FailedMembers | diagnose-lib/common.sh:470-538 | the entries kept are exactly those whose restore was lost |
| RestoreLedger.FailedIsSubsequence | diagnose-lib/common.sh:470-538 | in their old order |
| RestoreLedger.SubsequenceKeepsValid | diagnose-lib/common.sh:470-538 | so the rewritten ledger passes the same validation |
| RestoreLedger.RestoredAt | diagnose-lib/common.sh:470-538 | the reverse writes leave each saved setting with what its own write left, others alone |
| RestoreLedger.ReplacingKeepsValid | diagnose-lib/common.sh:470-538 | a setting not restored is among the failed entries with its original value |
| RestoreLedger.KeptMembers | diagnose-lib/common.sh:517-519 | the new ledger holds exactly the failed entries whose print succeeded |
| RestoreLedger.ReplacingKeepsValidIff | diagnose-lib/common.sh:496-531 | after the writes and the rewrite every saved setting is restored or recorded iff each unprinted failure left the original value by chance |
| RestoreLedger.KeepFailed | diagnose-lib/common.sh:517-519 | the rewriting loop keeps exactly the failed entries that are printed |
| RestoreLedger.Ledger.Save | diagnose-lib/common.sh:449-468 | saved iff the extended ledger is valid, before anything is written |
| RestoreLedger.Ledger.WriteSetting | frequency-ab.sh:659-729 | a setting with a ledger entry may be changed without losing its original |
| RestoreLedger.Ledger.WriteOne | diagnose-lib/common.sh:499-514 | one restoring write keeps the law of the ledger |
| RestoreLedger.Ledger.WriteBack | diagnose-lib/common.sh:496-515 | killed anywhere, the reverse writes keep every original restorable |
| RestoreLedger.Ledger.Replace | diagnose-lib/common.sh:511-538 | the new ledger keeps the law iff every failure that was not printed left the original value |
| RestoreLedger.Ledger.Restore | diagnose-lib/common.sh:470-538 | the whole restore with prints that may fail one by one: its outcome, the new ledger, and that the law of the ledger survives iff nothing is forgotten |
| RestoreLedger.Ledger.RestoreNow | diagnose-lib/common.sh:470-538 | where all prints succeed: succeeds iff nothing was lost and the ledger was replaced, leaving it empty; otherwise the failed entries or the whole ledger stay |
| RestoreLedger.Ledger.Recover | diagnose-lib/common.sh:540-549 | a successful recovery leaves an empty ledger and every saved setting at its original |
| RestoreLedger.Perform | frequency-ab.sh:659-729 | each operation keeps every differing setting restorable, or forgets one in a failed print and thereby breaks the law |
| RestoreLedger.Session | frequency-ab.sh:659-729 | over any sequence of saves, writes, restores, kills and recoveries, with prints that may fail, each differing setting has an entry with its original exactly until the first operation that forgets one |
| RestoreLedger.RecoverSession | diagnose-lib/common.sh:540-549 | a successful recovery after any session that forgot nothing restores all settings, and a session whose prints succeed forgets nothing |
| RestoreLedger.KilledExperiment | frequency-ab.sh:659-729 | so it does for the experiment's own steps killed anywhere |
| RestoreLedger.ForgottenSetting | diagnose-lib/common.sh:517-549 | one failed write and one failed print: the restore fails, the next recovery succeeds, and the setting stays changed |
| ReadinessToken.TokenPinsContents | diagnose.sh:6016-6045 | two bundles with the same token have the same other files |
| ReadinessToken.Bundle.Revoke | diagnose.sh:5406-5417 | the token goes first and alone |
| ReadinessToken.Bundle.RunOpen | diagnose.sh:5489-5493 | no file changes while the token is present |
| ReadinessToken.Bundle.Publish | diagnose.sh:5516-5534 | a candidate replaces its destination in one step |
| ReadinessToken.Bundle.WritePrivacyReview | diagnose.sh:5780-5985 | the review is republished with the token gone and the results kept |
| ReadinessToken.Bundle.WriteManifest | diagnose.sh:6016-6045 | a published token lists the digests of exactly the other files |
| ReadinessToken.Bundle.Finalize | diagnose.sh:6086-6212 | ended anywhere, the token is absent or honest; completed, it is present |
| ReadinessToken.Bundle.Abort | diagnose.sh:6056-6084 | failing keeps the token honest |
| ReadinessToken.Bundle.OnInterrupt | diagnose.sh:6214-6247 | so does an interrupt, ended anywhere itself |
| ReadinessToken.Bundle.Diagnose | diagnose.sh:6086-6247 | a whole run, ended anywhere, keeps the token honest |
| ReadinessToken.Bundle.PublishCompanion | diagnose-lib/publish-common.sh:9-65 | so does a publisher |
| ReadinessToken.Session | diagnose-lib/publish-common.sh:9-65 | over any sequence of locked writers, a token present lists exactly the current files, and results, report and review come from the finalization that wrote it |
| CaptureLog.Capture | capture-fault.sh:123-231 | the loop emits its attempts in order and, unless it aborts, one counts record with its exit code |
| CaptureLog.CountsAddUp | capture-fault.sh:123-231 | clean, captured and error runs add up to the attempts |
| CaptureLog.LoopCompletes | capture-fault.sh:123-231 | the loop stops exactly at the capture limit, the attempt limit or a fatal outcome, with the code for it |
| CaptureLog.CompletedIsLooped | capture-fault.sh:123-231 | every such sequence is a run of the loop |
| CaptureLog.ReadLog | diagnose.sh:5065-5129 | the scanning loop computes the specified reader |
| CaptureLog.AcceptedIffEmitted | diagnose.sh:5065-5129 | a log is accepted with these counts and code iff the loop can emit it when it reaches a counts record and each of its lines has at most 512 characters; for a CPU text of at most 273 characters iff the loop can emit it |
| CaptureLog.AcceptedIsComplete | diagnose.sh:5313-5325 | an accepted log meets the later completeness policy |
| CaptureLog.EmittedFits | diagnose.sh:5065-5129 | an emitted log passes the checks before the loop iff its lines fit, which a CPU text of at most 273 characters ensures |
| RootStage.ClassifyExisting | root-checks.sh:114-184 | the loops compute what each class means for any path content and listing order |
| RootStage.MetaReadsBack | root-checks.sh:520-529 | reading the metadata by first match gives each payload its own digest, and generation, time and completion back |
| RootStage.Stage.Create | root-checks.sh:200-209 | an absent stage becomes an empty root-only directory |
| RootStage.Stage.Prune | root-checks.sh:218-247 | a stage classified pre-handoff is never refused and ends empty and reusable; killed anywhere it stays pre-handoff |
| RootStage.Stage.Cleanup | root-checks.sh:431-439 | removes the stage; stopped anywhere it leaves it absent or pre-handoff |
| RootStage.Stage.WriteFile | root-checks.sh:456-529 | killed inside a file it leaves a recoverable stage; finished, one more complete file |
| RootStage.Stage.Collect | root-checks.sh:456-529 | finished, all five files are whole and the metadata names the digests of these payloads |
| RootStage.Stage.CheckStaged | root-checks.sh:531-541 | passes iff all five are root's own private files |
| RootStage.Stage.HandOffFiles | root-checks.sh:542-547 | killed between any two ownership changes the stage stays pre-handoff; finished, all five are whole and the user's |
| RootStage.Stage.Fill | root-checks.sh:456-575 | stopped anywhere, with or without its cleanup, the stage is never unsafe and a handed-off one is whole |
| RootStage.Stage.Run | root-checks.sh:319-575 | an unsafe path is refused untouched; any other path is never refused, and a run that is not stopped publishes or hands off |
| RootStage.Session | root-checks.sh:344-575 | over any number of runs stopped anywhere the stage is never unsafe, and all that was handed off or delivered is one whole collection |
| RootStage.SessionThenPublish | root-checks.sh:344-575 | after any such session one run that is not stopped publishes and leaves no stage |
| BaselinePhase.SlotOfOrdinal | diagnose-lib/baseline-phase.mjs:201-207 | each ordinal from 1 to attemptCount belongs to exactly one wave and position |
| BaselinePhase.SlotOrdinalBounds | diagnose-lib/baseline-phase.mjs:201-207 | each wave and position has an ordinal in that range |
| BaselinePhase.BuildManifest | diagnose-lib/baseline-phase.mjs:112-182 | builds a manifest that validates, exactly for allowed options |
| BaselinePhase.BuildSucceedsIff | diagnose-lib/baseline-phase.mjs:263-295 | an envelope is built iff the manifest is valid, the wave is on its schedule and there is one valid record for each child |
| BaselinePhase.EnvelopeIsBuilt | diagnose-lib/baseline-phase.mjs:232-295 | every envelope that validates is the one built from its own records |
| BaselinePhase.AssessPrefix | diagnose-lib/baseline-phase.mjs:311-335 | accepts exactly contiguous prefixes of valid waves of a valid manifest |
| BaselinePhase.OneAttemptPerOrdinal | diagnose-lib/baseline-phase.mjs:201-335 | a prefix of k waves holds one valid attempt for each ordinal up to k times the children, none beyond, none twice |
| BaselinePhase.RunNextWave | diagnose-lib/baseline-phase.mjs:359-459 | a wave is committed only if every child was valid, as the next wave of a longer prefix; otherwise the reason is the first child to fail, in any completion order |
| BaselineStore.WaveNameRoundTrip | diagnose-lib/baseline-phase-store.mjs:122-127 | a wave's file name is read back as its ordinal |
| BaselineStore.RecordNamesDiffer | diagnose-lib/baseline-phase-store.mjs:122-127 | no two records share a file name |
| BaselineStore.ParseStoreNames | diagnose-lib/baseline-phase-store.mjs:129-154 | accepts exactly the manifest, or not, with waves 1..k, in any listing order |
| BaselineStore.ReadWaves | diagnose-lib/baseline-phase-store.mjs:180-201 | returns the waves iff all are valid, canonical, in place and within the size limits |
| BaselineStore.ReadStore | diagnose-lib/baseline-phase-store.mjs:161-206 | accepts exactly the stores of a manifest and valid contiguous waves within the total limit, and returns their contents |
| BaselineStore.StoresOnce | diagnose-lib/baseline-phase-store.mjs:161-206 | one set of files holds one phase |
| BaselineCommits.FreeIsNext | diagnose-lib/baseline-phase-store.mjs:258-289 | a prepared record's name is free iff it is the next record |
| BaselineCommits.StepKeepsSound | diagnose-lib/pinned-protocol.mjs:681-731 | every step of every process keeps the files exactly the manifest and contiguous valid waves, and only adds to them |
| BaselineCommits.RunIsSound | diagnose-lib/baseline-phase-store.mjs:224-292 | so does every interleaving of racing committers killed anywhere |
| BaselineExample.CodecIsLawful | diagnose-lib/baseline-phase-store.mjs:234-235 | the round trip asked of the codec is that of a prefix-free spelling |
| BaselineExample.ExampleIsAllowed | diagnose-lib/baseline-phase-store.mjs:224-292 | with it an initializer may commit a manifest, and then a committer its wave |
| BaselineCommits.RecordedStores | diagnose-lib/baseline-phase-store.mjs:161-206 | such files are a store with the waves in the order published |
| BaselineCommits.PrefixNeverChanges | diagnose-lib/baseline-phase-store.mjs:258-289 | whatever happens later, a published record stays, unchanged, and the waves only extend |
| BaselineCommits.SuccessStands | diagnose-lib/baseline-phase-store.mjs:224-289 | a success is seen by every later read |
| BaselineCommits.OneCommitterPerWave | diagnose-lib/baseline-phase-store.mjs:258-289 | no two processes succeed with the same wave |
| BaselineCommits.LeaseLists | diagnose-lib/pinned-protocol.mjs:557-679 | under the lease the recovery accepts whatever a killed process left |
| BaselineCommits.LeasedReadSucceedsIff | diagnose-lib/baseline-phase-store.mjs:161-206 | under the lease the next read succeeds iff there is a store within the total limit |
| BaselineLimits.CommitSucceedsIff | diagnose-lib/baseline-phase-store.mjs:258-289 | an undisturbed commit of the allowed next wave always publishes it, and reports success iff the total stays within the limit |
| BaselineLimits.OversizedForever | diagnose-lib/baseline-phase-store.mjs:178-186 | a store over the total limit is never read again |
| BaselineLimits.BlockedForever | diagnose-lib/pinned-protocol.mjs:557-679 | a temporary file that recovery does not accept blocks every later listing |
| BaselineLimits.RacingLoserBlocks | diagnose-lib/pinned-protocol.mjs:681-731 | two racing initializers and one kill leave a whole store that can never be listed again |
| BaselineLimits.StuckForever | diagnose-lib/pinned-protocol.mjs:557-679 | two leftovers for one record, or one that recovery does not accept, block every later listing |
| BaselineLimits.ListsAgainIff | diagnose-lib/pinned-protocol.mjs:557-679 | from any state some continuation is listed again iff there are no such leftovers |
| BaselineLimits.TwoDeadInitializersBlock | diagnose-lib/pinned-protocol.mjs:557-679 | two initializers killed before they publish leave an empty store that can never be listed again |
| SortedIds.SortUniqueSorts | diagnose-lib/common.sh:171-182 | sorting keeps exactly the ids, increasing |
| CpuLists.ElementRoundTrip | diagnose-lib/common.sh:112-130 | every printed element is read back as the same range |
| CpuLists.Expand | diagnose-lib/common.sh:112-130 | for numbers without leading zeros and below 2^63, the loops compute the specified expansion of the first line, or fail on an element that does not parse |
| CpuLists.Compress | diagnose-lib/common.sh:133-163 | prints the maximal runs of any id sequence |
| CpuLists.RangeTokens | diagnose-lib/attempt-runner.mjs:98-105 | finds the same runs and tokens as the shell |
| CpuLists.ValidateCpus | diagnose-lib/attempt-runner.mjs:65-114 | accepts exactly non-empty increasing ids in range whose text fits, and passes on the shell's text |
| CpuLists.ExpandUndoesCompress | diagnose-lib/common.sh:112-163 | expanding what was printed gives the ids back |
| CpuLists.RunsAreRanges | diagnose-lib/common.sh:112-163 | compressing the expansion of maximal runs gives the runs back |
| CpuLists.WrappedIff | diagnose.sh:4106-4115 | the shell's 64-bit value of a number is the one signed integer congruent to it modulo 2^64 |
| CpuLists.CanonicalElementIff | diagnose.sh:4104-4112 | an element passes iff it spells an ordered range of 64-bit values up to 65535, modulo 2^64 |
| CpuLists.IsCanonicalList | diagnose.sh:4098-4117 | the loop computes the canonical test in 64-bit arithmetic |
| CpuLists.CanonicalFieldsIff | diagnose.sh:4098-4117 | fields pass iff they spell separated ranges up to 65535, modulo 2^64 |
| CpuLists.FittingFieldsIff | diagnose.sh:4098-4117 | fields pass with every number below 2^63 iff they are the texts of separated maximal runs within range |
| CpuLists.AcceptedIff | diagnose.sh:4098-4117 | exactly which texts are accepted: the first line is empty, or but for one final comma is the compression of its own increasing expansion, or spells such ranges with a number that wraps; an accepted line is a compression iff every number is below 2^63 |
| CpuLists.WrappedNumbersPass | diagnose.sh:4098-4117 | a number of 2^64 or more passes as what it wraps to, alone and as the end of a range |
| CpuLists.UnsortedComesBack | diagnose.sh:4098-4117 | 5,3 survives the round trip and is still rejected |
| CpuLists.Intersect | diagnose-lib/common.sh:171-182 | the result expands to exactly the ids in both lists, increasing, and is their compression |
| CpuLists.ListContains | diagnose-lib/common.sh:184-190 | true iff the expansion holds the id |
| ConcurrentContexts.FirstOutside | diagnose.sh:2397-2406 | the least online CPU outside the active set, none iff the set covers all online CPUs |
| ConcurrentContexts.UnitsHold | diagnose.sh:2413-2422 | each unit holds exactly the CPUs with its package and core |
| ConcurrentContexts.InsertKeySorts | diagnose.sh:2421 | a key inserted into increasing keys leaves them increasing |
| ConcurrentContexts.KeysHold | diagnose.sh:2413-2423 | the keys are exactly the units, each once, in increasing byte order |
| ConcurrentContexts.AlternateUnits | diagnose.sh:2426-2431 | the halves are disjoint, non-empty, together everything, and cut no core |
| ConcurrentContexts.AlternateCpus | diagnose.sh:2432-2437 | with one core the halves are disjoint, non-empty and together everything |
| ConcurrentContexts.ContextTable.AddPartitioned | diagnose.sh:2408-2446 | adds two controlled halves or nothing; for usable CPUs it fails iff there are fewer than two |
| ConcurrentContexts.ContextTable.Build | diagnose.sh:2448-2476 | for a non-empty list of usable groups, contexts are unavailable iff exactly one CPU is usable; otherwise each group is whole or split only when it takes every CPU |
| ConcurrentContexts.EveryContextIsControlled | diagnose.sh:2448-2476 | every context has a usable controller outside its active set |
| ConcurrentContexts.ContextsCoverGroups | diagnose.sh:2448-2476 | the contexts cover exactly the groups' CPUs |
| Schedules.XorShiftIsInjective | targeted-cpu-test.mjs:87-96 | the generator's step takes no two states to one and never reaches zero from another state |
| Schedules.SeedIsNotZero | targeted-cpu-test.mjs:87-89 | every 32-bit seed gives a start state other than zero |
| Schedules.PickInRange | load-state-aba.mjs:342 | every swap index is in range |
| Schedules.ShuffledPermutes | load-state-aba.mjs:339-346 | every shuffled order is a permutation |
| Schedules.ShuffleArray | load-state-aba.mjs:339-346 | the in-place loop computes the specified order and generator state |
| Schedules.BuildRoundOrders | targeted-cpu-test.mjs:98-111 | unknown modes are refused; every round is a permutation, the list itself in one-to-one mode, and the generator never reaches zero |
| Schedules.BuildNodeMatrixSchedule | load-state-aba.mjs:348-382 | the loops place every repeat's order with its cycle number, repeat and position |
| Schedules.RepeatsPermute | load-state-aba.mjs:348-382 | each repeat has every condition once, and each even repeat reverses the one before it |
| Schedules.EvenRepeatsBalance | load-state-aba.mjs:348-382 | over an even number of repeats every condition has the same total position |
| Schedules.ConditionsAreDistinct | load-state-aba.mjs:211-230 | the two increasing warmups make all four conditions distinct |

## Left out

- MiniWasmRun.Drive: asks for a non-negative integer spin count of at most 2^53; fractions, negative numbers and larger ones are not modelled.
- AttemptResults.EveryResultIsAccepted: asks for the four assumptions that AttemptExamples shows to be needed; without them ResultIsAcceptedIff holds. The shared clock is built into the model.
- CpuLists.Expand: elements with leading zeros, which the shell reads as octal, count as not parsing, and numbers of 2^63 and above, for which the loop need not end, do not wrap.
- RestoreLedger.Perform: writes to settings that were never saved are not part of a session.
- RedoWriter.ApplyRedoPlan: what the shell finds for the open-ended families is a parameter, each match once and with a safe name; the writer refuses to publish others.
- CloneHarness.RunClone: a failing mmap or mprotect, which ends the harness, is not modelled.
- BaselineCommits.StepKeepsSound: a process removes its own temporary file whenever its commit fails.
- RedoResume.Brings: explicit command-line configuration, which must agree with the pending marker, is not part of a resume.
- ReadinessToken.Bundle.Work: evidence changes are arbitrary file changes other than to the token.
- RootStage.Stage.RunPublisher: the unprivileged publisher takes the whole stage or leaves it; a kill inside it or inside the `--fresh` discard is out of scope.
- BaselineCommits.RunIsSound: process ids are not reused, and link counts matter only for temporary files.
- Schedules.PickInRange: a draw is its 32-bit numerator, so lists of 2^21 and more elements are not covered.
- The runner's and the supervisor's handlers are functions on a state value, one clock reading a handler; aliasing of their closures is not modelled.
- What the evidence readers find on disk for a phase is a function of that phase's files.
- File identity, temporary files of the redo journal, sync calls and error-code spellings.
- The managed-workload variant, `streamForward` and `stdinPayload`.
- x86 instruction encodings, flags other than those of cmp and test, and export names of the WebAssembly module.
- Canonical JSON, digests and attempt-evidence parsing of the wave store are parameters with their round-trip law.
- Process spawning, sysfs, GDB, telemetry, report rendering and the privacy patterns: inputs or left out.
- `buildPhasePlan`, `executePhasePlan` and the summaries of load-state-aba.mjs: they assemble and total what the modelled schedules decide, and carry no state from step to step.
- Torn writes and power-loss reordering: a kill is a process kill, with durable steps in order.
