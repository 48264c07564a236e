/** A redo as a later process resumes it (main in diagnose.sh): the configuration is loaded from
    the bundle again, the pending marker is reconciled before any CPU provenance is derived, and
    then the execution is repeated. */
module RedoResume {
  import opened Text
  import opened RedoPlan
  import opened Artifacts
  import opened RunConfig
  import opened RunMetadata
  import opened RedoMarker
  import opened BundleTree
  import opened RedoSteps
  import opened RedoRecovery
  import opened RedoAuthorization
  import opened RedoTheorems

  // Loading the stored configuration.

  const GDB_RUNS_LIMIT := 4096

  predicate Loadable(key: Key, value: string) {
    match key
    case RunSchemaVersion => value == "1" || value == "2"
    case Mode => true
    case SkipPinnedConcurrent => true
    case SkipGdb => true
    case GdbMaxRuns => ValidValue(key, value) && Value(value) <= GDB_RUNS_LIMIT
    case _ => ValidValue(key, value)
  }

  predicate IsSchema2Key(key: Key) {
    key.PinnedConcurrentRounds? || key.ProtocolSeed? || key.SkipPinnedConcurrent? || key.TelemetryIntervalMs?
  }

  predicate IsRequired(key: Key) { key.BaselineChildren? || key.BaselineWaves? || key.GroupWaves? }

  /** What load_stored_config asks of one key's rows. */
  predicate RowLoads(lines: seq<string>, key: Key) {
    var values := Matching(lines, key);
    && |values| <= 1 && (values != [] ==> Loadable(key, values[0]))
    && (IsRequired(key) ==> values != [])
    && (IsSchema2Key(key) ==> (values != [] <==> Matching(lines, RunSchemaVersion) == ["2"]))
  }

  ghost predicate LoadsCleanly(lines: seq<string>) { forall key :: RowLoads(lines, key) }

  /** Stored values, over the defaults a resumed process starts from. */
  function Loaded(lines: seq<string>, defaults: Config): Config
    requires Total(defaults)
  {
    map key: Key | true :: if Matching(lines, key) == [] then defaults[key] else Matching(lines, key)[0]
  }

  /** The globals a process has when it executes the transaction: loaded and adopted. */
  function Resumed(t: Transaction, lines: seq<string>, defaults: Config): (c: Config)
    requires Total(defaults)
  {
    Adopted(t, Loaded(lines, defaults))
  }

  /** The bundle loads, the process has these globals, and they pass validate_config. */
  ghost predicate Brings(job: Job, defaults: Config, tree: Tree) {
    && Total(defaults) && defaults[RunSchemaVersion] == "1" && Total(job.globals)
    && LoadsCleanly(MetaLines(tree)) && job.globals == Resumed(job.txn, MetaLines(tree), defaults)
    && forall key :: key in WrittenKeys(job.globals[RunSchemaVersion] == "2") ==> Loadable(key, job.globals[key])
  }

  /** Adopting twice, at reconciliation and at execution, is adopting once. */
  lemma AdoptedTwice(t: Transaction, globals: Config)
    ensures Adopted(t, Adopted(t, globals)) == Adopted(t, globals)
  {
    hide Configured;
  }

  lemma UnconfiguredInVersion2(t: Transaction, key: Key)
    requires t.version == 2 && (IsSchema2Key(key) || key == RunSchemaVersion)
    ensures Configured(t, key) == None
  {
    hide Lookup;
    assert forall i :: 0 <= i < |KEYS_V2| ==> KEYS_V2[i] != key;
  }

  lemma UnwrittenKeys(key: Key, schema2: bool)
    ensures key in WrittenKeys(schema2) <==> schema2 || !IsSchema2Key(key)
  {
    assert forall i :: 0 <= i < |KEYS_V3| ==> KEYS_V3[i] in KEYS_V3;
    assert KEYS_V3[0] == Mode && KEYS_V3[6] == PinnedConcurrentRounds && KEYS_V3[12] == CpuTarget;
    var legacy := WrittenKeys(false);
    assert legacy[0] == Mode && legacy[1] == RunSchemaVersion && legacy[8] == CpuTarget;
    if schema2 {
      SchemaKeyIsListed(key);
    } else if !IsSchema2Key(key) {
      LegacyKeyIsListed(key);
    }
  }

  lemma SchemaKeyIsListed(key: Key)
    ensures key in KEYS_V3
  {
    var at := match key
      case Mode => 0 case RunSchemaVersion => 1 case BaselineChildren => 2 case BaselineWaves => 3
      case GroupWaves => 4 case IndividualRuns => 5 case PinnedConcurrentRounds => 6 case ProtocolSeed => 7
      case SkipPinnedConcurrent => 8 case TelemetryIntervalMs => 9 case GdbMaxRuns => 10 case SkipGdb => 11
      case CpuTarget => 12;
    assert KEYS_V3[at] == key;
  }

  lemma LegacyKeyIsListed(key: Key)
    requires !IsSchema2Key(key)
    ensures key in WrittenKeys(false)
  {
    var at := match key
      case Mode => 0 case RunSchemaVersion => 1 case BaselineChildren => 2 case BaselineWaves => 3
      case GroupWaves => 4 case IndividualRuns => 5 case GdbMaxRuns => 6 case SkipGdb => 7
      case _ => 8;
    assert WrittenKeys(false)[at] == key;
  }

  /** A key that a rewrite leaves out is one no process gets from anywhere but the defaults. */
  lemma LeftOutIsDefault(job: Job, defaults: Config, lines: seq<string>, key: Key)
    requires WellFormed(job) && job.txn.version >= 2 && Total(defaults)
    requires LoadsCleanly(lines) && job.globals == Resumed(job.txn, lines, defaults)
    requires job.globals[RunSchemaVersion] != "2" && IsSchema2Key(key)
    ensures Configured(job.txn, key) == None && job.globals[key] == defaults[key]
  {
    var t := job.txn;
    ValidParts(t);
    if t.version == 3 { SchemaIsConfigured(t); }
    UnconfiguredInVersion2(t, key);
    UnconfiguredInVersion2(t, RunSchemaVersion);
    hide Valid, Matching, Configured, ConfigValid, ConfigComplete, RankOrdered, RecordsValid, OwnersListed,
         ClosurePresent, Loadable;
    assert RowLoads(lines, key);
  }

  /** The rewritten metadata loads again and gives the same globals. */
  lemma RewriteReloads(job: Job, defaults: Config, lines: seq<string>, completed: string)
    requires WellFormed(job) && job.txn.version >= 2 && Total(defaults) && defaults[RunSchemaVersion] == "1"
    requires LoadsCleanly(lines) && job.globals == Resumed(job.txn, lines, defaults)
    requires forall key :: key in WrittenKeys(job.globals[RunSchemaVersion] == "2") ==>
               Loadable(key, job.globals[key])
    ensures LoadsCleanly(Rewrite(lines, Some(job.globals), completed))
    ensures Resumed(job.txn, Rewrite(lines, Some(job.globals), completed), defaults) == job.globals
  {
    hide Valid, Matching, Rewrite, Configured, WrittenKeys, Loadable, RowLoads;
    var t, g, after := job.txn, job.globals, Rewrite(lines, Some(job.globals), completed);
    forall key: Key
      ensures RowLoads(after, key) && Resumed(t, after, defaults)[key] == g[key]
    {
      RewriteSetsConfig(lines, g, completed, key);
      RewriteSetsConfig(lines, g, completed, RunSchemaVersion);
      UnwrittenKeys(key, g[RunSchemaVersion] == "2");
      UnwrittenKeys(RunSchemaVersion, g[RunSchemaVersion] == "2");
      if !(key in WrittenKeys(g[RunSchemaVersion] == "2")) { LeftOutIsDefault(job, defaults, lines, key); }
      RowOfWritten(after, g, key);
    }
  }

  lemma RowOfWritten(after: seq<string>, g: Config, key: Key)
    requires Total(g) && Matching(after, RunSchemaVersion) == [g[RunSchemaVersion]]
    requires Matching(after, key) == if g[RunSchemaVersion] == "2" || !IsSchema2Key(key) then [g[key]] else []
    requires g[RunSchemaVersion] == "2" || !IsSchema2Key(key) ==> Loadable(key, g[key])
    ensures RowLoads(after, key)
  {
    hide Matching, Loadable;
  }

  /** A rewrite without a configuration leaves what is loaded alone. */
  lemma PlainRewriteReloads(t: Transaction, defaults: Config, lines: seq<string>, completed: string)
    requires Total(defaults) && LoadsCleanly(lines)
    ensures LoadsCleanly(Rewrite(lines, None, completed))
    ensures Resumed(t, Rewrite(lines, None, completed), defaults) == Resumed(t, lines, defaults)
  {
    hide Matching, Rewrite, Configured, Loadable;
    forall key: Key ensures Matching(Rewrite(lines, None, completed), key) == Matching(lines, key) {
      RewriteWithoutConfig(lines, completed, key);
    }
    forall key: Key ensures RowLoads(Rewrite(lines, None, completed), key) { assert RowLoads(lines, key); }
  }

  /** Whatever a kill leaves loads again, and the next process has the same globals. */
  lemma BringsAgain(job: Job, defaults: Config, start: Tree, k: nat)
    requires Prepared(job, start) && Brings(job, defaults, start) && k < |Program(job.txn)|
    ensures Brings(job, defaults, Killed(job, k, start))
  {
    InterruptedFiles(job, start, k);
    AdoptedTwice(job.txn, Loaded(MetaLines(start), defaults));
    ReloadedAt(job, defaults, start, Killed(job, k, start));
  }

  lemma ReloadedAt(job: Job, defaults: Config, start: Tree, tree: Tree)
    requires WellFormed(job) && Brings(job, defaults, start) && MetaIsOldOrNew(job, start, tree)
    requires Adopted(job.txn, job.globals) == job.globals
    ensures Brings(job, defaults, tree)
  {
    hide Valid, Rewrite, LoadsCleanly, Resumed, WrittenKeys, Loadable, Adopted;
    if At(tree, META) == At(start, META) {
      assert MetaLines(tree) == MetaLines(start);
    } else {
      var c: string :| At(tree, META) == Some(File(Rewrite(MetaLines(start), NewConfig(job.txn, job.globals), c)));
      if job.txn.version >= 2 {
        RewriteReloads(job, defaults, MetaLines(start), c);
      } else {
        PlainRewriteReloads(job.txn, defaults, MetaLines(start), c);
      }
    }
  }

  /** The bundle after as many killed processes, each with the globals it loaded itself. */
  function ResumedRepeatedly(t: Transaction, defaults: Config, kills: seq<nat>, start: Tree): Tree
    requires Total(defaults) && forall i :: 0 <= i < |kills| ==> kills[i] < |Program(t)|
    decreases |kills|
  {
    if kills == [] then start
    else
      var before := ResumedRepeatedly(t, defaults, kills[..|kills| - 1], start);
      Killed(Job(t, Resumed(t, MetaLines(before), defaults)), kills[|kills| - 1], before)
  }

  /** Reloading the configuration at every resume makes no difference. */
  lemma {:induction false} ReloadingChangesNothing(job: Job, defaults: Config, kills: seq<nat>, start: Tree)
    requires Prepared(job, start) && Brings(job, defaults, start)
    requires forall i :: 0 <= i < |kills| ==> kills[i] < |Program(job.txn)|
    ensures ResumedRepeatedly(job.txn, defaults, kills, start) == KilledRepeatedly(job, kills, start)
    ensures Brings(job, defaults, KilledRepeatedly(job, kills, start))
    decreases |kills|
  {
    hide Valid, Program, Rooted, StoredCpuTarget, Killed, Brings;
    if kills != [] {
      var front := kills[..|kills| - 1];
      ReloadingChangesNothing(job, defaults, front, start);
      assert job == Job(job.txn, Resumed(job.txn, MetaLines(KilledRepeatedly(job, front, start)), defaults)) by {
        BroughtGlobals(job, defaults, KilledRepeatedly(job, front, start));
      }
      ProgramLength(job.txn);
      OnlyTheFurthestKillMatters(job, kills, start);
      FurthestIsBounded(kills, |Program(job.txn)|);
      BringsAgain(job, defaults, start, Furthest(kills));
    }
  }

  lemma BroughtGlobals(job: Job, defaults: Config, tree: Tree)
    requires Brings(job, defaults, tree)
    ensures Total(defaults) && job.globals == Resumed(job.txn, MetaLines(tree), defaults)
  {
  }

  // Reconciliation: the same checks, made before the provenance of the CPU choice is known.

  ghost predicate Reconciles(job: Job, readers: Readers, tree: Tree)
    requires Total(job.globals)
  {
    Accepts(job, readers.(provenance := false), tree)
  }

  /** Completed frequency or gdb evidence is kept whose CPU was chosen automatically. */
  ghost predicate KeepsAutomaticCpu(job: Job, readers: Readers, start: Tree) {
    job.txn.version >= 2 && Policy(job.txn, start) == Some("auto")
    && exists phase :: KeepsBoundEvidence(job.txn, readers, start, phase)
  }

  predicate KeepsBoundEvidence(t: Transaction, readers: Readers, start: Tree, phase: Phase) {
    (phase == Frequency || phase == Gdb) && phase !in t.phases && PhaseDone(start, phase)
    && !IsSkip(readers, start, phase)
  }

  lemma LostProvenanceIsAutomatic(job: Job, readers: Readers, start: Tree)
    requires Total(job.globals) && LosesItsCpuProvenance(job, readers, start)
    ensures KeepsAutomaticCpu(job, readers, start)
  {
    hide Policy, Footprint;
    var phase :| (phase == Frequency || phase == Gdb) && phase !in job.txn.phases
      && PhaseDone(start, phase) && !IsSkip(readers, start, phase);
    assert KeepsBoundEvidence(job.txn, readers, start, phase);
  }

  lemma MatchWithoutProvenance(job: Job, readers: Readers, tree: Tree, policy: string, phase: Phase)
    requires Total(job.globals)
    ensures CpuMatches(job, readers.(provenance := false), tree, policy, phase) ==>
              CpuMatches(job, readers, tree, policy, phase)
    ensures CpuMatches(job, readers, tree, policy, phase)
            && !(policy == "auto" && PhaseDone(tree, phase) && !IsSkip(readers, tree, phase)) ==>
              CpuMatches(job, readers.(provenance := false), tree, policy, phase)
  {
    hide Footprint, MarkerOf;
  }

  /** What is reconciled is executed: provenance only makes more CPU choices known. */
  lemma ReconciledIsAccepted(job: Job, readers: Readers, tree: Tree)
    requires Total(job.globals) && Reconciles(job, readers, tree)
    ensures Accepts(job, readers, tree)
  {
    hide Recoverable, ParseMarker, ChangesAllowed, CpuMatches, ChangeAuthorized, Policy;
    if job.txn.version != 1 {
      MatchWithoutProvenance(job, readers, tree, Policy(job.txn, tree).value, Frequency);
      MatchWithoutProvenance(job, readers, tree, Policy(job.txn, tree).value, Gdb);
    }
  }

  lemma AllowedWithoutProvenance(job: Job, readers: Readers, tree: Tree, phase: Phase)
    requires Total(job.globals) && Policy(job.txn, tree).Some? && CpuAllowed(job, readers, tree, phase)
    requires phase == Frequency || phase == Gdb
    requires Policy(job.txn, tree) == Some("auto") ==> !KeepsBoundEvidence(job.txn, readers, tree, phase)
    ensures CpuAllowed(job, readers.(provenance := false), tree, phase)
  {
    hide Policy, CpuMatches, PhaseDone, IsSkip, AttemptIsMeaningful;
    MatchWithoutProvenance(job, readers, tree, Policy(job.txn, tree).value, phase);
  }

  lemma AcceptedWithoutProvenance(job: Job, readers: Readers, tree: Tree)
    requires WellFormed(job) && Accepts(job, readers, tree) && !KeepsAutomaticCpu(job, readers, tree)
    ensures Reconciles(job, readers, tree)
  {
    assert job.txn.version >= 1 by { ValidParts(job.txn); }
    hide Valid, Recoverable, ParseMarker, ChangesAllowed, CpuAllowed, KeepsBoundEvidence, Policy;
    if job.txn.version >= 2 && Policy(job.txn, tree).Some? {
      AllowedWithoutProvenance(job, readers, tree, Frequency);
      AllowedWithoutProvenance(job, readers, tree, Gdb);
    }
  }

  /** Kept evidence of an automatic choice keeps the reconciliation from accepting the
      bundle, wherever the execution was killed. */
  lemma KeptCpuIsNeverReconciled(job: Job, readers: Readers, start: Tree, k: nat)
    requires Prepared(job, start) && Recoverable(job.txn, start) && k < |Program(job.txn)|
    requires KeepsAutomaticCpu(job, readers, start)
    ensures !Reconciles(job, readers, Killed(job, k, start))
  {
    var t, tree, unproven := job.txn, Killed(job, k, start), readers.(provenance := false);
    var phase :| KeepsBoundEvidence(t, readers, start, phase);
    ValidParts(t);
    StartIsInterrupted(job, start);
    KilledIsInterrupted(job, start, k);
    InterruptedFiles(job, start, k);
    hide Program, Killed, Rooted, Valid, Recoverable, Interrupted, StoredCpuTarget, Authorized, RankOrdered,
         RecordsValid, OwnersListed, ConfigValid, ConfigComplete, Footprint, CpuMatches, PhaseDone, ParseMarker, Policy,
         ClosurePresent;
    RetainedFootprint(t, start, tree, phase);
    assert WorstCpu(job, unproven, tree) == None;
    assert !IsSkip(unproven, start, phase);
    UnknownCpuDoesNotMatch(job, unproven, start, tree, phase);
    PolicyIsStable(job, start, tree);
    DoneIsRead(start, tree, phase);
    if Authorized(job, unproven, tree) { RetainedPhaseMustMatch(job, unproven, tree, phase); }
  }

  lemma NothingIsKilled(job: Job, start: Tree)
    requires Total(job.globals)
    ensures 0 < |Program(job.txn)| && Killed(job, 0, start) == start
  {
    ProgramLength(job.txn);
    NoKill(job, start);
  }

  /** A redo that was accepted passes main's reconciliation wherever it was killed, if it
      keeps no evidence of an automatic CPU choice, and nowhere otherwise. */
  lemma ReconciliationAcceptsIff(job: Job, readers: Readers, start: Tree)
    requires Prepared(job, start) && Accepts(job, readers, start)
    ensures (forall k :: 0 <= k < |Program(job.txn)| ==> Reconciles(job, readers, Killed(job, k, start)))
        <==> !KeepsAutomaticCpu(job, readers, start)
    ensures (exists k :: 0 <= k < |Program(job.txn)| && Reconciles(job, readers, Killed(job, k, start)))
        <==> !KeepsAutomaticCpu(job, readers, start)
  {
    NothingIsKilled(job, start);
    AcceptedParts(job, readers, start);
    hide Program, Killed, Accepts, Prepared, Reconciles, KeepsAutomaticCpu, Recoverable, Authorized, Rooted, Valid,
         StoredCpuTarget;
    forall k | 0 <= k < |Program(job.txn)|
      ensures Reconciles(job, readers, Killed(job, k, start)) <==> !KeepsAutomaticCpu(job, readers, start)
    {
      ReconciledAt(job, readers, start, k);
    }
  }

  lemma ReconciledAt(job: Job, readers: Readers, start: Tree, k: nat)
    requires Prepared(job, start) && Accepts(job, readers, start) && k < |Program(job.txn)|
    ensures Reconciles(job, readers, Killed(job, k, start)) <==> !KeepsAutomaticCpu(job, readers, start)
  {
    AcceptedParts(job, readers, start);
    assert WellFormed(job);
    hide Program, Killed, Accepts, Prepared, KeepsAutomaticCpu, Recoverable, Authorized, LosesItsCpuProvenance;
    if KeepsAutomaticCpu(job, readers, start) {
      KeptCpuIsNeverReconciled(job, readers, start, k);
    } else {
      AcceptedWithoutProvenance(job, readers, start);
      if LosesItsCpuProvenance(job, readers.(provenance := false), start) {
        LostProvenanceIsAutomatic(job, readers.(provenance := false), start);
        AutomaticWhateverIsKnown(job, readers, start);
      }
      KilledIsAccepted(job, readers.(provenance := false), start, k);
    }
  }

  lemma AutomaticWhateverIsKnown(job: Job, readers: Readers, start: Tree)
    requires KeepsAutomaticCpu(job, readers.(provenance := false), start)
    ensures KeepsAutomaticCpu(job, readers, start)
  {
    hide Policy, Footprint, PhaseDone;
    var phase :| KeepsBoundEvidence(job.txn, readers.(provenance := false), start, phase);
    assert KeepsBoundEvidence(job.txn, readers, start, phase);
  }

  predicate Kills(t: Transaction, kills: seq<nat>) { forall i :: 0 <= i < |kills| ==> kills[i] < |Program(t)| }

  /** However often the redo is killed and resumed by a new process, the next process loads
      the same configuration, is reconciled and accepted, and ends where one uninterrupted
      run would have ended, if the redo keeps no evidence of an automatic CPU choice. */
  lemma ResumesConverge(job: Job, readers: Readers, defaults: Config, kills: seq<nat>, start: Tree)
    requires Prepared(job, start) && Brings(job, defaults, start) && Accepts(job, readers, start)
    requires Kills(job.txn, kills) && !KeepsAutomaticCpu(job, readers, start)
    ensures var tree := ResumedRepeatedly(job.txn, defaults, kills, start);
      && Brings(job, defaults, tree) && Reconciles(job, readers, tree) && Accepts(job, readers, tree)
      && Run(job, Program(job.txn), tree) == Run(job, Program(job.txn), start)
      && Finished(job, start, Run(job, Program(job.txn), tree))
  {
    AcceptedParts(job, readers, start);
    hide Program, Killed, Accepts, KeepsAutomaticCpu, Recoverable, Authorized, Brings, KilledRepeatedly, Rooted, Valid,
         StoredCpuTarget, Run, Finished, Reconciles;
    ReloadingChangesNothing(job, defaults, kills, start);
    ProgramLength(job.txn);
    OnlyTheFurthestKillMatters(job, kills, start);
    FurthestIsBounded(kills, |Program(job.txn)|);
    ReconciledAt(job, readers, start, Furthest(kills));
    ReconciledIsAccepted(job, readers, KilledRepeatedly(job, kills, start));
    FinishedAfterKills(job, kills, start);
  }

  lemma FirstResumeIsRefused(job: Job, readers: Readers, defaults: Config, start: Tree)
    requires Prepared(job, start) && Accepts(job, readers, start) && KeepsAutomaticCpu(job, readers, start)
    requires Total(defaults)
    ensures Kills(job.txn, []) && !Reconciles(job, readers, ResumedRepeatedly(job.txn, defaults, [], start))
  {
    AcceptedParts(job, readers, start);
    hide Program, Killed, Accepts, KeepsAutomaticCpu, Recoverable, Authorized, Prepared, Reconciles;
    NothingIsKilled(job, start);
    KeptCpuIsNeverReconciled(job, readers, start, 0);
  }

  /** The exact condition over whole histories of kills and resumes. */
  lemma EveryResumeIsReconciledIff(job: Job, readers: Readers, defaults: Config, start: Tree)
    requires Prepared(job, start) && Brings(job, defaults, start) && Accepts(job, readers, start)
    ensures (forall kills :: Kills(job.txn, kills) ==>
               Reconciles(job, readers, ResumedRepeatedly(job.txn, defaults, kills, start)))
        <==> !KeepsAutomaticCpu(job, readers, start)
  {
    BroughtGlobals(job, defaults, start);
    hide Program, Killed, Accepts, KeepsAutomaticCpu, Recoverable, Authorized, Prepared, Brings, Reconciles,
         ResumedRepeatedly, Resumed;
    if KeepsAutomaticCpu(job, readers, start) {
      FirstResumeIsRefused(job, readers, defaults, start);
    } else {
      forall kills | Kills(job.txn, kills)
        ensures Reconciles(job, readers, ResumedRepeatedly(job.txn, defaults, kills, start))
      {
        ResumesConverge(job, readers, defaults, kills, start);
      }
    }
  }
}
