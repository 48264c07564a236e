/** The redo journal over whole runs: nothing is lost at any kill, repeating the execution
    converges, and exactly when the repetition is accepted. */
module RedoTheorems {
  import opened Text
  import opened RedoPlan
  import opened Artifacts
  import opened RunConfig
  import opened RunMetadata
  import opened RedoMarker
  import opened BundleTree
  import opened RedoSteps
  import opened RedoRecovery
  import opened RedoAuthorization

  lemma StartIsInterrupted(job: Job, start: Tree)
    requires Prepared(job, start) && Recoverable(job.txn, start)
    ensures Interrupted(job.txn, start, start)
  {
    ValidParts(job.txn);
    hide Valid, RecordsValid, Recoverable, Interrupted, Rooted;
    RecoverableStarts(job.txn, start);
  }

  lemma MetaIsUnchanged(job: Job, start: Tree, tree: Tree)
    requires Total(job.globals) && At(tree, META) == At(start, META)
    ensures MetaIsOldOrNew(job, start, tree)
  {
  }

  lemma MetaIsRewritten(job: Job, start: Tree, tree: Tree, completed: string)
    requires Total(job.globals)
    requires At(tree, META) == Some(File(Rewrite(MetaLines(start), NewConfig(job.txn, job.globals), completed)))
    ensures MetaIsOldOrNew(job, start, tree)
  {
    hide Rewrite;
  }

  lemma InterruptedFiles(job: Job, start: Tree, k: nat)
    requires Prepared(job, start) && k < |Program(job.txn)|
    ensures MetaIsOldOrNew(job, start, Killed(job, k, start))
    ensures At(Killed(job, k, start), PENDING) == At(start, PENDING)
  {
    ProgramLength(job.txn);
    hide Program, Killed, Valid, Rooted, EvidenceSteps, Rewrite, CompletedValue, StoredCpuTarget, MetaIsOldOrNew;
    var n := |EvidenceSteps(job.txn)|;
    if k <= n {
      FilesUntilPublication(job, start, k, META);
      FilesUntilPublication(job, start, k, PENDING);
      MetaIsUnchanged(job, start, Killed(job, k, start));
    } else {
      FilesAfterPublication(job, start);
      MetaIsRewritten(job, start, Killed(job, n + 1, start),
                      CompletedValue(Killed(job, n, start), job.Schema2()));
    }
  }

  lemma AcceptedParts(job: Job, readers: Readers, tree: Tree)
    requires Total(job.globals)
    ensures Accepts(job, readers, tree) ==> Authorized(job, readers, tree) && Recoverable(job.txn, tree)
  {
    hide Authorized, Recoverable, ParseMarker;
  }

  lemma AcceptedAgain(job: Job, readers: Readers, start: Tree, tree: Tree)
    requires Total(job.globals) && Accepts(job, readers, start) && At(tree, PENDING) == At(start, PENDING)
    requires Authorized(job, readers, tree) && Recoverable(job.txn, tree)
    ensures Accepts(job, readers, tree)
  {
    hide Authorized, Recoverable, ParseMarker;
  }

  /** No kill makes the repeated execution refuse, unless the redo destroys the CPU
      provenance of evidence it keeps. */
  lemma KilledIsAccepted(job: Job, readers: Readers, start: Tree, k: nat)
    requires Prepared(job, start) && Accepts(job, readers, start) && k < |Program(job.txn)|
    requires !LosesItsCpuProvenance(job, readers, start)
    ensures Accepts(job, readers, Killed(job, k, start))
  {
    hide Program, Killed, Rooted, Valid, Recoverable, Interrupted, Authorized, MetaIsOldOrNew,
         LosesItsCpuProvenance, StoredCpuTarget, Accepts;
    var tree := Killed(job, k, start);
    AcceptedParts(job, readers, start);
    StartIsInterrupted(job, start);
    InterruptedFiles(job, start, k);
    KilledIsInterrupted(job, start, k);
    InterruptedIsRecoverable(job.txn, start, tree);
    AuthorizedAgain(job, readers, start, tree);
    AcceptedAgain(job, readers, start, tree);
  }

  lemma ArchivedOnceSettled(job: Job, start: Tree, tree: Tree, r: Record)
    requires Total(job.globals) && Preserved(job.txn, start, tree, r)
    requires Settled(job, Archive(r.path, Target(job.txn, r)), tree)
    ensures r.path !in tree
  {
    hide Target, SameContents;
  }

  /** Whatever a killed execution got past has nothing left to do. */
  lemma PassedStepIsSettled(job: Job, start: Tree, k: nat, j: nat)
    requires WellFormed(job) && j < k <= |Program(job.txn)|
    ensures Settled(job, Program(job.txn)[j], Killed(job, k, start))
  {
    ProgramIsCompatible(job.txn);
    hide Program, Valid, PairwiseCompatible, Run, Settled;
    PrefixIsSettled(job, Program(job.txn), k, j, start);
  }

  lemma ArchiveIsSettled(job: Job, start: Tree, k: nat, i: nat)
    requires WellFormed(job) && i < |job.txn.records| && |EvidenceSteps(job.txn)| <= k <= |Program(job.txn)|
    ensures Settled(job, Archive(job.txn.records[i].path, Target(job.txn, job.txn.records[i])),
                    Killed(job, k, start))
  {
    hide Program, Valid, EvidenceSteps, Target, Killed, OpeningSteps, Settled;
    var t := job.txn;
    ArchiveStepAt(t, i);
    ProgramLength(t);
    PassedStepIsSettled(job, start, k, |OpeningSteps(t)| + |t.phases| + i);
  }

  lemma ArchivedAfterEvidence(job: Job, start: Tree, k: nat, r: Record)
    requires Prepared(job, start) && Recoverable(job.txn, start) && r in job.txn.records
    requires |EvidenceSteps(job.txn)| <= k <= |Program(job.txn)|
    ensures r.path !in Killed(job, k, start)
  {
    var t := job.txn;
    var i :| 0 <= i < |t.records| && t.records[i] == r;
    StartIsInterrupted(job, start);
    ArchiveIsSettled(job, start, k, i);
    hide Program, Valid, Rooted, Recoverable, EvidenceSteps, Target, Killed, Preserved, Settled, ArchiveIsClear,
         Touched;
    KilledIsInterrupted(job, start, k);
    ArchivedOnceSettled(job, start, Killed(job, k, start), r);
  }

  lemma ArchiveStepAt(t: Transaction, i: nat)
    requires i < |t.records|
    ensures |OpeningSteps(t)| + |t.phases| + i < |EvidenceSteps(t)|
    ensures Program(t)[|OpeningSteps(t)| + |t.phases| + i] == Archive(t.records[i].path, Target(t, t.records[i]))
  {
    assert ArchiveSteps(t, t.records)[i] == Archive(t.records[i].path, Target(t, t.records[i]));
  }

  lemma InvalidateStepAt(t: Transaction, i: nat)
    requires i < |t.phases|
    ensures |OpeningSteps(t)| + i < |EvidenceSteps(t)|
    ensures Program(t)[|OpeningSteps(t)| + i] == Remove(MarkerOf(t.phases[i]))
  {
    assert InvalidateSteps(t.phases)[i] == Remove(MarkerOf(t.phases[i]));
  }

  lemma MarkersAreGoneAfterEvidence(job: Job, start: Tree, k: nat, phase: Phase)
    requires WellFormed(job) && phase in job.txn.phases
    requires |EvidenceSteps(job.txn)| <= k <= |Program(job.txn)|
    ensures MarkerOf(phase) !in Killed(job, k, start)
  {
    hide Program, Valid, EvidenceSteps, Killed, OpeningSteps, MarkerOf;
    var t := job.txn;
    var i :| 0 <= i < |t.phases| && t.phases[i] == phase;
    InvalidateStepAt(t, i);
    ProgramLength(t);
    PassedStepIsSettled(job, start, k, |OpeningSteps(t)| + i);
  }

  // At every kill.

  /** In every state a kill leaves, each record but a vanished readiness token is whole on
      exactly one side, and no two recorded paths or archive targets nest. */
  lemma NothingIsLostAtAnyKill(job: Job, start: Tree, k: nat, a: Record, b: Record)
    requires Prepared(job, start) && Recoverable(job.txn, start) && k <= |Program(job.txn)|
    requires a in job.txn.records && b in job.txn.records
    ensures Preserved(job.txn, start, Killed(job, k, start), a)
    ensures a != b ==> Apart(a.path, b.path) && Apart(Target(job.txn, a), Target(job.txn, b))
  {
    StartIsInterrupted(job, start);
    ValidParts(job.txn);
    KilledIsInterrupted(job, start, k);
    hide Program, Killed, Rooted, Valid, Recoverable, RecordValid, Preserved, Target, ArchiveIsClear, Touched;
    if a != b { TargetsAreApart(job.txn, a, b); }
  }

  lemma EvidenceIsGone(job: Job, start: Tree, k: nat)
    requires Prepared(job, start) && Recoverable(job.txn, start)
    requires |EvidenceSteps(job.txn)| <= k <= |Program(job.txn)|
    ensures forall r :: r in job.txn.records ==> r.path !in Killed(job, k, start)
    ensures forall phase :: phase in job.txn.phases ==> MarkerOf(phase) !in Killed(job, k, start)
  {
    hide Program, Killed, Rooted, Valid, Recoverable, EvidenceSteps, MarkerOf, StoredCpuTarget;
    forall r | r in job.txn.records ensures r.path !in Killed(job, k, start) {
      ArchivedAfterEvidence(job, start, k, r);
    }
    forall phase | phase in job.txn.phases ensures MarkerOf(phase) !in Killed(job, k, start) {
      MarkersAreGoneAfterEvidence(job, start, k, phase);
    }
  }

  /** The new metadata becomes visible only when every artifact is archived and every
      phase marker of the transaction is gone. */
  lemma ConfigurationIsVisibleLast(job: Job, start: Tree, k: nat)
    requires Prepared(job, start) && Recoverable(job.txn, start) && k <= |Program(job.txn)|
    requires At(Killed(job, k, start), META) != At(start, META)
    ensures forall r :: r in job.txn.records ==> r.path !in Killed(job, k, start)
    ensures forall phase :: phase in job.txn.phases ==> MarkerOf(phase) !in Killed(job, k, start)
  {
    hide Program, Killed, Rooted, Valid, Recoverable, EvidenceSteps, MarkerOf, StoredCpuTarget;
    if k <= |EvidenceSteps(job.txn)| { FilesUntilPublication(job, start, k, META); }
    EvidenceIsGone(job, start, k);
  }

  /** What a finished redo leaves, however often it was killed on the way. */
  ghost predicate Finished(job: Job, start: Tree, end: Tree)
    requires WellFormed(job)
  {
    && (forall r :: r in job.txn.records ==> r.path !in end && Preserved(job.txn, start, end, r))
    && (forall phase :: phase in job.txn.phases ==> MarkerOf(phase) !in end)
    && At(end, META) == Some(File(Published(job, start)))
    && PENDING !in end
    && forall q :: !Touched(job.txn, q) ==> At(end, q) == At(start, q)
  }

  lemma LastFiles(job: Job, start: Tree)
    requires WellFormed(job) && META in start && start[META].File?
    ensures At(Killed(job, |Program(job.txn)|, start), META) == Some(File(Published(job, start)))
    ensures PENDING !in Killed(job, |Program(job.txn)|, start)
  {
    hide Program, Killed, Valid, EvidenceSteps, Published;
    ProgramLength(job.txn);
    FilesAfterPublication(job, start);
    NextKill(job, |EvidenceSteps(job.txn)| + 1, start);
    assert META != PENDING by { MarkersAreNotMeta(); }
  }

  lemma InterruptedParts(t: Transaction, start: Tree, tree: Tree)
    requires Interrupted(t, start, tree)
    ensures forall q :: !Touched(t, q) ==> At(tree, q) == At(start, q)
    ensures forall r :: r in t.records ==> Preserved(t, start, tree, r)
  {
    hide Touched, Preserved, ArchiveIsClear;
  }

  lemma FinishedParts(job: Job, start: Tree, end: Tree)
    requires WellFormed(job) && Interrupted(job.txn, start, end)
    requires forall r :: r in job.txn.records ==> r.path !in end
    requires forall phase :: phase in job.txn.phases ==> MarkerOf(phase) !in end
    requires At(end, META) == Some(File(Published(job, start))) && PENDING !in end
    ensures Finished(job, start, end)
  {
    hide Valid, MarkerOf, Touched, Preserved, Interrupted, Published;
    InterruptedParts(job.txn, start, end);
  }

  lemma UninterruptedRunFinishes(job: Job, start: Tree)
    requires Prepared(job, start) && Recoverable(job.txn, start)
    ensures Finished(job, start, Killed(job, |Program(job.txn)|, start))
  {
    var n := |Program(job.txn)|;
    StartIsInterrupted(job, start);
    ProgramLength(job.txn);
    hide Program, Killed, Rooted, Valid, Recoverable, EvidenceSteps, MarkerOf, Touched, Preserved, Interrupted,
         Published, StoredCpuTarget, Finished;
    LastFiles(job, start);
    EvidenceIsGone(job, start, n);
    KilledIsInterrupted(job, start, n);
    FinishedParts(job, start, Killed(job, n, start));
  }

  lemma PinnedMetaInFootprint()
    ensures InFootprint(PinnedConcurrent, PINNED_META)
  {
    assert PINNED_META[..2] == PINNED_META;
    PinnedMetaIsOwned();
    hide OwnerOf;
  }

  lemma PinnedMetaIsOwned()
    ensures OwnerOf(PINNED_META) == Some(PinnedConcurrent)
  {
    var name := PINNED_META[1];
    assert name[0] == 'p' && name[1] == 'i';
    assert IsPinnedResult(name);
    assert !IsPreflightResult(name) && !IsBaselineResult(name) && !IsGroupsResult(name) && !IsIndividualResult(name);
    hide IsPinnedResult, IsPreflightResult, IsBaselineResult, IsGroupsResult, IsIndividualResult;
  }

  // The exact condition under which repetition is never refused.

  /** Once the pinned metadata is archived, an automatic choice that needs it is unknown. */
  lemma WorstCpuIsUnknown(job: Job, readers: Readers, start: Tree, tree: Tree)
    requires Total(job.globals) && PINNED_META !in tree
    requires Footprint(tree, Groups) == Footprint(start, Groups)
    requires Footprint(tree, Individual) == Footprint(start, Individual)
    requires readers.individual(Footprint(start, Groups), Footprint(start, Individual)) == NoFailingCpu
    ensures WorstCpu(job, readers, tree) == None
  {
    hide InFootprint;
  }

  lemma WorstCpuNeedsPinnedMeta(job: Job, readers: Readers, start: Tree)
    requires Total(job.globals) && WorstCpu(job, readers, start).Some?
    requires readers.individual(Footprint(start, Groups), Footprint(start, Individual)) == NoFailingCpu
    ensures PINNED_META in start
  {
    hide InFootprint;
  }

  lemma UnknownCpuDoesNotMatch(job: Job, readers: Readers, start: Tree, tree: Tree, phase: Phase)
    requires Total(job.globals) && Footprint(tree, phase) == Footprint(start, phase)
    requires WorstCpu(job, readers, tree) == None
    requires PhaseDone(start, phase) && !IsSkip(readers, start, phase)
    ensures !CpuMatches(job, readers, tree, "auto", phase)
  {
    hide Footprint, WorstCpu, MarkerOf;
  }

  lemma MatchNeedsWorstCpu(job: Job, readers: Readers, start: Tree, phase: Phase)
    requires Total(job.globals) && CpuMatches(job, readers, start, "auto", phase)
    requires PhaseDone(start, phase) && !IsSkip(readers, start, phase)
    ensures WorstCpu(job, readers, start).Some?
  {
    hide Footprint, WorstCpu, MarkerOf;
  }

  lemma RetainedPhaseMustMatch(job: Job, readers: Readers, tree: Tree, phase: Phase)
    requires Total(job.globals) && Authorized(job, readers, tree) && job.txn.version >= 2
    requires (phase == Frequency || phase == Gdb) && phase !in job.txn.phases && PhaseDone(tree, phase)
    ensures Policy(job.txn, tree).Some?
    ensures CpuMatches(job, readers, tree, Policy(job.txn, tree).value, phase)
  {
    hide CpuMatches, PhaseDone, Policy, AttemptIsMeaningful, Described;
  }

  /** A kill after the evidence moves leaves a redo that refuses to be repeated. */
  lemma LostProvenanceIsRefused(job: Job, readers: Readers, start: Tree)
    requires Prepared(job, start) && Accepts(job, readers, start)
    requires LosesItsCpuProvenance(job, readers, start)
    ensures |EvidenceSteps(job.txn)| < |Program(job.txn)|
    ensures !Authorized(job, readers, Killed(job, |EvidenceSteps(job.txn)|, start))
  {
    var t, n := job.txn, |EvidenceSteps(job.txn)|;
    var tree := Killed(job, n, start);
    var phase :| (phase == Frequency || phase == Gdb) && phase !in t.phases
      && PhaseDone(start, phase) && !IsSkip(readers, start, phase);
    ProgramLength(t);
    ValidParts(t);
    StartIsInterrupted(job, start);
    KilledIsInterrupted(job, start, n);
    assert Individual !in t.phases && Groups !in t.phases;
    hide Program, Killed, Rooted, Valid, Recoverable, EvidenceSteps, Interrupted, StoredCpuTarget, Authorized,
         RankOrdered, RecordsValid, OwnersListed, ConfigValid, ConfigComplete, Footprint, CpuMatches, WorstCpu,
         PhaseDone, IsSkip, ParseMarker, Policy;
    RetainedPhaseMustMatch(job, readers, start, phase);
    MatchNeedsWorstCpu(job, readers, start, phase);
    WorstCpuNeedsPinnedMeta(job, readers, start);
    ArchivedAfterEvidence(job, start, n, Record(Some(PinnedConcurrent), PINNED_META));
    RetainedFootprint(t, start, tree, Groups);
    RetainedFootprint(t, start, tree, Individual);
    RetainedFootprint(t, start, tree, phase);
    WorstCpuIsUnknown(job, readers, start, tree);
    UnknownCpuDoesNotMatch(job, readers, start, tree, phase);
    InterruptedFiles(job, start, n);
    PolicyIsStable(job, start, tree);
    assert PhaseDone(tree, phase) by { DoneIsRead(start, tree, phase); }
    if Authorized(job, readers, tree) { RetainedPhaseMustMatch(job, readers, tree, phase); }
  }

  lemma DoneIsRead(start: Tree, tree: Tree, phase: Phase)
    requires PhaseDone(start, phase) && Footprint(tree, phase) == Footprint(start, phase)
    ensures PhaseDone(tree, phase)
  {
    hide Footprint;
  }

  /** The repeated execution is accepted after a kill at any step exactly when the redo
      does not archive the evidence its own retained CPU choice rests on. */
  lemma EveryKillIsAcceptedIff(job: Job, readers: Readers, start: Tree)
    requires Prepared(job, start) && Accepts(job, readers, start)
    ensures (forall k :: 0 <= k < |Program(job.txn)| ==> Accepts(job, readers, Killed(job, k, start)))
        <==> !LosesItsCpuProvenance(job, readers, start)
  {
    assert Total(job.globals);
    hide Program, Killed, EvidenceSteps, Accepts, Prepared, LosesItsCpuProvenance;
    if LosesItsCpuProvenance(job, readers, start) {
      LostProvenanceIsRefused(job, readers, start);
      AcceptedParts(job, readers, Killed(job, |EvidenceSteps(job.txn)|, start));
    } else {
      forall k | 0 <= k < |Program(job.txn)| ensures Accepts(job, readers, Killed(job, k, start)) {
        KilledIsAccepted(job, readers, start, k);
      }
    }
  }

  lemma {:induction false} FurthestIsBounded(kills: seq<nat>, bound: nat)
    requires bound > 0 && forall i :: 0 <= i < |kills| ==> kills[i] < bound
    ensures Furthest(kills) < bound
    decreases |kills|
  {
    if kills != [] { FurthestIsBounded(kills[..|kills| - 1], bound); }
  }

  lemma AcceptedAfterKills(job: Job, readers: Readers, kills: seq<nat>, start: Tree)
    requires Prepared(job, start) && Accepts(job, readers, start)
    requires forall i :: 0 <= i < |kills| ==> kills[i] < |Program(job.txn)|
    requires !LosesItsCpuProvenance(job, readers, start)
    ensures Accepts(job, readers, KilledRepeatedly(job, kills, start))
  {
    hide Program, Accepts, LosesItsCpuProvenance, Rooted, Valid, StoredCpuTarget, Killed, KilledRepeatedly, Furthest;
    ProgramLength(job.txn);
    OnlyTheFurthestKillMatters(job, kills, start);
    FurthestIsBounded(kills, |Program(job.txn)|);
    KilledIsAccepted(job, readers, start, Furthest(kills));
  }

  lemma FinishedAfterKills(job: Job, kills: seq<nat>, start: Tree)
    requires Prepared(job, start) && Recoverable(job.txn, start)
    requires forall i :: 0 <= i < |kills| ==> kills[i] <= |Program(job.txn)|
    ensures Run(job, Program(job.txn), KilledRepeatedly(job, kills, start)) == Run(job, Program(job.txn), start)
    ensures Finished(job, start, Run(job, Program(job.txn), KilledRepeatedly(job, kills, start)))
  {
    hide Program, Rooted, Valid, Run, Finished, StoredCpuTarget, Recoverable, KilledRepeatedly;
    RecoveryConverges(job, kills, start);
    assert Program(job.txn)[..|Program(job.txn)|] == Program(job.txn);
    UninterruptedRunFinishes(job, start);
  }

  /** After any number of kills, the repeated execution is accepted and ends in the
      finished state of the uninterrupted run. */
  lemma RecoveryIsAcceptedAndConverges(job: Job, readers: Readers, kills: seq<nat>, start: Tree)
    requires Prepared(job, start) && Accepts(job, readers, start)
    requires forall i :: 0 <= i < |kills| ==> kills[i] < |Program(job.txn)|
    requires !LosesItsCpuProvenance(job, readers, start)
    ensures Accepts(job, readers, KilledRepeatedly(job, kills, start))
    ensures Run(job, Program(job.txn), KilledRepeatedly(job, kills, start)) == Run(job, Program(job.txn), start)
    ensures Finished(job, start, Run(job, Program(job.txn), KilledRepeatedly(job, kills, start)))
  {
    hide Program, Accepts, LosesItsCpuProvenance, Rooted, Valid, Run, Finished, StoredCpuTarget, Recoverable, Killed,
         KilledRepeatedly, Authorized;
    AcceptedParts(job, readers, start);
    AcceptedAfterKills(job, readers, kills, start);
    FinishedAfterKills(job, kills, start);
  }
}
