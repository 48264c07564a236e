/** When the repeated execution of an interrupted redo is accepted. The pair check always
    is; the authorization check is exactly when no retained CPU-bound phase depends on
    pinned-concurrent evidence that the transaction itself archives. */
module RedoAuthorization {
  import opened Text
  import opened RedoPlan
  import opened Artifacts
  import opened RunConfig
  import opened RunMetadata
  import opened RedoMarker
  import opened BundleTree
  import opened RedoSteps
  import opened RedoRecovery

  /** What the process running the redo brings with it: its globals were loaded from this
      bundle, and the writer recorded the pinned metadata if it was there. */
  ghost predicate Prepared(job: Job, start: Tree) {
    && WellFormed(job) && Rooted(start) && META in start && start[META].File?
    && (job.txn.version == 2 && |job.txn.values| == 7 ==>
          StoredCpuTarget(start[META].lines) == Some(job.globals[CpuTarget]))
    && (PinnedConcurrent in job.txn.phases && PINNED_META in start ==>
          Record(Some(PinnedConcurrent), PINNED_META) in job.txn.records)
  }

  /** The automatic CPU choice comes from pinned-concurrent evidence, the transaction
      archives that evidence, and completed frequency or gdb evidence is kept. */
  ghost predicate LosesItsCpuProvenance(job: Job, readers: Readers, start: Tree)
    requires Total(job.globals)
  {
    && job.txn.version >= 2 && PinnedConcurrent in job.txn.phases
    && Policy(job.txn, start) == Some("auto")
    && readers.individual(Footprint(start, Groups), Footprint(start, Individual)) == NoFailingCpu
    && exists phase :: (phase == Frequency || phase == Gdb) && phase !in job.txn.phases
         && PhaseDone(start, phase) && !IsSkip(readers, start, phase)
  }

  // Footprints of phases outside the transaction never change.

  lemma FootprintIsUntouched(t: Transaction, phase: Phase, q: Path)
    requires RecordsValid(t.records) && OwnersListed(t.phases, t.records)
    requires phase !in t.phases && InFootprint(phase, q)
    ensures !Touched(t, q)
  {
    hide RecordValid, MarkerName, OwnerOf;
    if q == MarkerOf(phase) {
      MarkerIsUntouched(t, phase);
    } else if |q| >= 1 && OwnerOf(q[..1]) == Some(phase) {
      RootIsUntouched(t, phase, q[..1], q);
    } else {
      RootIsUntouched(t, phase, q[..2], q);
    }
  }

  lemma MarkerIsUntouched(t: Transaction, phase: Phase)
    requires RecordsValid(t.records) && phase !in t.phases
    ensures !Touched(t, MarkerOf(phase))
  {
    hide RecordValid, MarkerName;
    StateNamesAreApart(phase);
    PrefixComponents(SUPERSEDED, MarkerOf(phase));
    MarkersAreNotMeta();
    forall p | p in t.phases ensures MarkerOf(p) != MarkerOf(phase) { MarkersAreDistinct(p, phase); }
    forall r | r in t.records ensures !(r.path <= MarkerOf(phase)) { SourceIsApart(t, r, MarkerOf(phase)); }
  }

  lemma RootIsUntouched(t: Transaction, phase: Phase, root: Path, q: Path)
    requires RecordsValid(t.records) && OwnersListed(t.phases, t.records)
    requires phase !in t.phases && OwnerOf(root) == Some(phase) && root <= q
    ensures !Touched(t, q)
  {
    var own := Record(Some(phase), root);
    RootIsApart(root);
    hide RecordValid, MarkerName, OwnerOf;
    PrefixesAreComparable(SUPERSEDED, root, q);
    forall p: Phase ensures MarkerOf(p) != q {
      OwnedRootIsNotMarker(root, p);
      PrefixesAreComparable(MarkerOf(p), root, q);
    }
    forall r | r in t.records ensures !(r.path <= q) {
      RecordedRootsDiffer(t, phase, root, r);
      PrefixesAreComparable(r.path, root, q);
    }
  }

  lemma RootIsApart(root: Path)
    requires OwnerOf(root).Some?
    ensures Apart(root, SUPERSEDED) && !(root <= META) && !(root <= PENDING)
  {
    OwnedIsApart(root, Gdb);
    hide ResultOwner, StateOwner, FreqOwner, DirectoryOwner, OwnerOf;
    assert "gdb"[0] == 'g' && "state"[0] == 's' && "results"[0] == 'r';
    assert META[0] == "results" && PENDING[0] == "state" && SUPERSEDED[0] == "state";
    var head := root[0];
    assert |root| == 1 ==> head == "gdb";
    PrefixComponents(root, SUPERSEDED);
    PrefixComponents(SUPERSEDED, root);
    PrefixComponents(root, META);
    PrefixComponents(root, PENDING);
  }

  lemma OwnedRootIsNotMarker(root: Path, p: Phase)
    requires OwnerOf(root).Some?
    ensures !(root <= MarkerOf(p))
  {
    OwnedIsApart(root, p);
    hide OwnerOf, MarkerName;
    assert "gdb"[0] == 'g' && "state"[0] == 's';
    assert MarkerOf(p)[0] == "state";
    var head := root[0];
    assert |root| == 1 ==> head == "gdb";
    PrefixComponents(root, MarkerOf(p));
  }

  lemma RecordedRootsDiffer(t: Transaction, phase: Phase, root: Path, r: Record)
    requires RecordsValid(t.records) && OwnersListed(t.phases, t.records) && r in t.records
    requires phase !in t.phases && OwnerOf(root) == Some(phase)
    ensures Apart(r.path, root)
  {
    var i :| 0 <= i < |t.records| && t.records[i] == r;
    assert RecordValid(r);
    DerivedIsNotOwned();
    hide OwnerOf, IsDerived;
    assert r.path != root;
    if r.path <= root { RecordedPathsDoNotNest(r.path, root); }
    if root <= r.path { RecordedPathsDoNotNest(root, r.path); }
  }

  lemma RetainedFootprint(t: Transaction, start: Tree, tree: Tree, phase: Phase)
    requires RecordsValid(t.records) && OwnersListed(t.phases, t.records)
    requires Interrupted(t, start, tree) && phase !in t.phases
    ensures Footprint(tree, phase) == Footprint(start, phase)
  {
    hide RecordValid, RecordsValid, OwnersListed, InFootprint, Touched;
    forall q | InFootprint(phase, q) ensures At(tree, q) == At(start, q) {
      FootprintIsUntouched(t, phase, q);
    }
    assert forall q :: q in Footprint(tree, phase) <==> q in Footprint(start, phase) by {
      forall q | InFootprint(phase, q) ensures q in tree <==> q in start { assert At(tree, q) == At(start, q); }
    }
  }

  // The metadata file: unchanged until published, then exactly rewritten.

  lemma EvidenceStepKeepsFile(job: Job, tree: Tree, kind: nat, step: Step, p: Path)
    requires Total(job.globals) && RecordsValid(job.txn.records)
    requires kind <= 2 && OfKind(job.txn, kind, step) && (p == META || p == PENDING)
    ensures At(Apply(job, step, tree), p) == At(tree, p)
  {
    hide RecordValid, Rewrite, CompletedValue, MarkerName, IsArchiveDirectory;
    var t := job.txn;
    MarkersAreNotMeta();
    match step
    case MakeDirectory(q) => ArchiveDirectoryIsInside(t, q);
    case Remove(q) =>
    case Archive(s, d) =>
      var r :| r in t.records && step == Archive(r.path, Target(t, r));
      SourceIsApart(t, r, p);
      SourceIsApart(t, r, d);
      PrefixComponents(SUPERSEDED, d);
      PrefixComponents(d, p);
      if s in tree && d !in tree { MoveKeepsOthers(tree, s, d, p); }
    case PublishMeta =>
  }

  lemma {:induction false} FilesUntilPublication(job: Job, start: Tree, k: nat, p: Path)
    requires WellFormed(job) && k <= |EvidenceSteps(job.txn)| && (p == META || p == PENDING)
    ensures k <= |Program(job.txn)| && At(Killed(job, k, start), p) == At(start, p)
  {
    hide Valid, Apply, OfKind, EvidenceSteps, RecordsValid, Program, Run;
    var t := job.txn;
    ProgramLength(t);
    if k == 0 {
      NoKill(job, start);
    } else {
      FilesUntilPublication(job, start, k - 1, p);
      NextKill(job, k - 1, start);
      StepHasKind(t, k - 1);
      ValidParts(t);
      EarlyKinds(t, k - 1);
      EvidenceStepKeepsFile(job, Killed(job, k - 1, start), KindAt(t, k - 1), Program(t)[k - 1], p);
    }
  }

  lemma ProgramLength(t: Transaction)
    ensures |Program(t)| == |EvidenceSteps(t)| + 2
    ensures Program(t)[|EvidenceSteps(t)|] == PublishMeta
    ensures Program(t)[|EvidenceSteps(t)| + 1] == Remove(PENDING)
  {
    hide EvidenceSteps;
  }

  lemma EarlyKinds(t: Transaction, i: nat)
    ensures i < |EvidenceSteps(t)| ==> KindAt(t, i) <= 2
  {
  }

  /** The new metadata, with the completed list as it is once the markers are gone. */
  function Published(job: Job, start: Tree): seq<string>
    requires WellFormed(job)
  {
    ProgramLength(job.txn);
    Rewrite(MetaLines(start), NewConfig(job.txn, job.globals),
            CompletedValue(Killed(job, |EvidenceSteps(job.txn)|, start), job.Schema2()))
  }

  lemma PublishedFile(job: Job, start: Tree, before: Tree)
    requires Total(job.globals) && META in start && start[META].File? && At(before, META) == At(start, META)
    ensures At(Apply(job, PublishMeta, before), META) ==
            Some(File(Rewrite(MetaLines(start), NewConfig(job.txn, job.globals),
                              CompletedValue(before, job.Schema2()))))
    ensures At(Apply(job, PublishMeta, before), PENDING) == At(before, PENDING)
  {
    MarkersAreNotMeta();
    hide Rewrite, CompletedValue, MarkerOf;
    assert before[META] == start[META];
  }

  lemma FilesAfterPublication(job: Job, start: Tree)
    requires WellFormed(job) && META in start && start[META].File?
    ensures |EvidenceSteps(job.txn)| + 1 < |Program(job.txn)|
    ensures At(Killed(job, |EvidenceSteps(job.txn)| + 1, start), META) == Some(File(Published(job, start)))
    ensures At(Killed(job, |EvidenceSteps(job.txn)| + 1, start), PENDING) == At(start, PENDING)
  {
    hide Valid, EvidenceSteps, Program, Rewrite, CompletedValue, Killed, Apply;
    var n := |EvidenceSteps(job.txn)|;
    ProgramLength(job.txn);
    FilesUntilPublication(job, start, n, META);
    FilesUntilPublication(job, start, n, PENDING);
    NextKill(job, n, start);
    PublishedFile(job, start, Killed(job, n, start));
  }

  // Authorization in an interrupted state.

  ghost predicate MetaIsOldOrNew(job: Job, start: Tree, tree: Tree)
    requires Total(job.globals)
  {
    || At(tree, META) == At(start, META)
    || exists c: string :: At(tree, META) == Some(File(Rewrite(MetaLines(start), NewConfig(job.txn, job.globals), c)))
  }

  lemma OneRowReadsBack(lines: seq<string>, key: Key, value: string)
    requires Matching(lines, key) == [value]
    ensures MetadataValue(lines, key) == value
  {
    hide Matching;
  }

  lemma EarlyKeyIsConfigured(t: Transaction, key: Key)
    requires ConfigComplete(t.version, t.values) && key in Keys(t.version) && key != CpuTarget
    ensures Configured(t, key).Some?
  {
    hide Lookup;
    var i :| 0 <= i < |Keys(t.version)| && Keys(t.version)[i] == key;
    assert t.version == 2 ==> Keys(2)[7] == CpuTarget;
    assert i < |t.values|;
  }

  lemma SchemaIsConfigured(t: Transaction)
    requires t.version == 3 && ConfigValid(3, t.values) && ConfigComplete(3, t.values)
    ensures Configured(t, RunSchemaVersion) == Some("2")
  {
    assert RunSchemaVersion in Keys(3) by { assert Keys(3)[1] == RunSchemaVersion; }
    EarlyKeyIsConfigured(t, RunSchemaVersion);
    hide Lookup, Keys;
    var found := Configured(t, RunSchemaVersion);
    var j :| 0 <= j < |Keys(3)| && j < |t.values| && Keys(3)[j] == RunSchemaVersion && t.values[j] == found.value;
    assert ValidValue(Keys(3)[j], t.values[j]);
  }

  lemma ComparedKeysAreWritten(version: nat, key: Key)
    requires key in Keys(version)
    ensures key in WrittenKeys(true) && (version != 3 ==> key in WrittenKeys(false))
  {
  }

  /** Once rewritten, every compared key reads as the transaction's value. */
  lemma NewMetaMatches(job: Job, lines: seq<string>, completed: string, key: Key)
    requires WellFormed(job) && job.txn.version >= 2 && key in Keys(job.txn.version) && key != CpuTarget
    ensures Some(MetadataValue(Rewrite(lines, NewConfig(job.txn, job.globals), completed), key)) ==
            Configured(job.txn, key)
  {
    var t := job.txn;
    var c := Adopted(t, job.globals);
    ValidParts(t);
    EarlyKeyIsConfigured(t, key);
    if t.version == 3 { SchemaIsConfigured(t); }
    ComparedKeysAreWritten(t.version, key);
    RewriteSetsConfig(lines, c, completed, key);
    hide Rewrite, Valid, Matching, Lookup, Keys, WrittenKeys, ConfigValid, RecordsValid, ClosurePresent;
    OneRowReadsBack(Rewrite(lines, Some(c), completed), key, c[key]);
  }

  lemma CpuTargetIsWritten()
    ensures CpuTarget in WrittenKeys(true) && CpuTarget in WrittenKeys(false)
  {
    assert WrittenKeys(true)[12] == CpuTarget && WrittenKeys(false)[8] == CpuTarget;
  }

  lemma CpuTargetIsOptionalOnlyInVersion2(t: Transaction)
    requires ConfigComplete(t.version, t.values) && 2 <= t.version <= 3 && Configured(t, CpuTarget).None?
    ensures t.version == 2 && |t.values| == 7
  {
    hide Lookup;
    assert Keys(2)[7] == CpuTarget && Keys(3)[12] == CpuTarget;
  }

  lemma StoredCpuTargetIsValid(lines: seq<string>)
    ensures StoredCpuTarget(lines).Some? ==> ValidValue(CpuTarget, StoredCpuTarget(lines).value)
  {
    hide Matching;
  }

  lemma OneCpuTargetRow(lines: seq<string>, value: string)
    requires Matching(lines, CpuTarget) == [value] && ValidValue(CpuTarget, value)
    ensures StoredCpuTarget(lines) == Some(value)
  {
    hide Matching;
  }

  /** A rewrite keeps a CPU target that the globals had loaded from the old file. */
  lemma RewriteKeepsCpuTarget(lines: seq<string>, c: Config, completed: string)
    requires Total(c) && StoredCpuTarget(lines) == Some(c[CpuTarget])
    ensures StoredCpuTarget(Rewrite(lines, Some(c), completed)) == Some(c[CpuTarget])
  {
    RewriteSetsConfig(lines, c, completed, CpuTarget);
    CpuTargetIsWritten();
    StoredCpuTargetIsValid(lines);
    hide Rewrite, Matching, WrittenKeys, ValidValue, StoredCpuTarget;
    OneCpuTargetRow(Rewrite(lines, Some(c), completed), c[CpuTarget]);
  }

  /** The policy the CPU check uses is the same before and after the rewrite. */
  lemma PolicyIsStable(job: Job, start: Tree, tree: Tree)
    requires Prepared(job, start) && job.txn.version >= 2
    requires MetaIsOldOrNew(job, start, tree) && Policy(job.txn, start).Some?
    ensures Policy(job.txn, tree) == Policy(job.txn, start)
  {
    var t := job.txn;
    ValidParts(t);
    if Configured(t, CpuTarget).None? && At(tree, META) != At(start, META) {
      CpuTargetIsOptionalOnlyInVersion2(t);
      hide Rewrite, Valid, Rooted, Keys, WrittenKeys, StoredCpuTarget, RankOrdered, ConfigComplete, ConfigValid,
           ClosurePresent, RecordsValid, OwnersListed, Configured;
      var c: string :| At(tree, META) == Some(File(Rewrite(MetaLines(start), NewConfig(t, job.globals), c)));
      RewriteKeepsCpuTarget(MetaLines(start), Adopted(t, job.globals), c);
    }
  }

  lemma ChangeStaysAuthorized(t: Transaction, start: Tree, tree: Tree, phase: Phase)
    requires RecordsValid(t.records) && OwnersListed(t.phases, t.records)
    requires Interrupted(t, start, tree) && ChangeAuthorized(t, start, phase)
    ensures ChangeAuthorized(t, tree, phase)
  {
    hide RecordsValid, OwnersListed, Interrupted, AttemptIsMeaningful, Footprint;
    if phase !in t.phases { RetainedFootprint(t, start, tree, phase); }
  }

  lemma WorstCpuIsStable(job: Job, readers: Readers, start: Tree, tree: Tree)
    requires Total(job.globals)
    requires Footprint(tree, Groups) == Footprint(start, Groups)
    requires Footprint(tree, Individual) == Footprint(start, Individual)
    requires readers.individual(Footprint(start, Groups), Footprint(start, Individual)) == NoFailingCpu ==>
               Footprint(tree, PinnedConcurrent) == Footprint(start, PinnedConcurrent)
    ensures WorstCpu(job, readers, tree) == WorstCpu(job, readers, start)
  {
    hide Footprint;
  }

  lemma MatchIsStable(job: Job, readers: Readers, start: Tree, tree: Tree, policy: string, phase: Phase)
    requires Total(job.globals) && Footprint(tree, phase) == Footprint(start, phase)
    requires policy == "auto" && PhaseDone(start, phase) && !IsSkip(readers, start, phase) ==>
               WorstCpu(job, readers, tree) == WorstCpu(job, readers, start)
    ensures CpuMatches(job, readers, tree, policy, phase) == CpuMatches(job, readers, start, policy, phase)
  {
    hide Footprint, WorstCpu, MarkerOf;
  }

  /** Unless provenance is lost, the automatic CPU choice of a retained phase is stable. */
  lemma CpuChoiceIsStable(job: Job, readers: Readers, start: Tree, tree: Tree, phase: Phase)
    requires Prepared(job, start) && job.txn.version >= 2 && Interrupted(job.txn, start, tree)
    requires phase == Frequency || phase == Gdb
    requires phase !in job.txn.phases && Policy(job.txn, start).Some?
    requires CpuMatches(job, readers, start, Policy(job.txn, start).value, phase)
    requires !LosesItsCpuProvenance(job, readers, start)
    ensures CpuMatches(job, readers, tree, Policy(job.txn, start).value, phase)
  {
    var t := job.txn;
    ValidParts(t);
    assert Individual !in t.phases && Groups !in t.phases;
    RetainedFootprint(t, start, tree, phase);
    RetainedFootprint(t, start, tree, Groups);
    RetainedFootprint(t, start, tree, Individual);
    if PinnedConcurrent !in t.phases { RetainedFootprint(t, start, tree, PinnedConcurrent); }
    hide Valid, RecordsValid, OwnersListed, Interrupted, Rooted, Footprint, Prepared, Policy, RankOrdered,
         CpuMatches, PhaseDone, IsSkip, WorstCpu, ClosurePresent, ConfigValid, ConfigComplete;
    var policy := Policy(t, start).value;
    if policy == "auto" && PhaseDone(start, phase) && !IsSkip(readers, start, phase) {
      WorstCpuIsStable(job, readers, start, tree);
    }
    MatchIsStable(job, readers, start, tree, policy, phase);
  }

  /** A configured value that is not yet stored was not stored at the start, and stays allowed. */
  lemma ChangeIsAllowedAgain(job: Job, start: Tree, tree: Tree, key: Key)
    requires Prepared(job, start) && job.txn.version >= 2 && key in Keys(job.txn.version) && key != CpuTarget
    requires Interrupted(job.txn, start, tree) && MetaIsOldOrNew(job, start, tree)
    requires Some(MetadataValue(MetaLines(tree), key)) != Configured(job.txn, key)
    requires Some(MetadataValue(MetaLines(start), key)) != Configured(job.txn, key) ==>
               forall phase :: phase in Described(key) ==> ChangeAuthorized(job.txn, start, phase)
    ensures Some(MetadataValue(MetaLines(start), key)) != Configured(job.txn, key)
    ensures forall phase :: phase in Described(key) ==> ChangeAuthorized(job.txn, tree, phase)
  {
    var t := job.txn;
    ValidParts(t);
    hide Valid, RecordsValid, OwnersListed, Interrupted, Rooted, Matching, Lookup, Rewrite, ChangeAuthorized, Described,
         Configured, Keys, RankOrdered, ClosurePresent, ConfigComplete, ConfigValid;
    if At(tree, META) != At(start, META) {
      var c: string :| At(tree, META) == Some(File(Rewrite(MetaLines(start), NewConfig(t, job.globals), c)));
      NewMetaMatches(job, MetaLines(start), c, key);
    }
    forall phase | phase in Described(key) ensures ChangeAuthorized(t, tree, phase) {
      ChangeStaysAuthorized(t, start, tree, phase);
    }
  }

  /** The target CPU of the frequency and gdb phases that was allowed is allowed again. */
  lemma CpuIsAllowedAgain(job: Job, readers: Readers, start: Tree, tree: Tree, phase: Phase)
    requires Prepared(job, start) && job.txn.version >= 2
    requires Interrupted(job.txn, start, tree) && MetaIsOldOrNew(job, start, tree)
    requires !LosesItsCpuProvenance(job, readers, start) && (phase == Frequency || phase == Gdb)
    requires Policy(job.txn, start).Some? && Policy(job.txn, tree) == Policy(job.txn, start)
    requires CpuAllowed(job, readers, start, phase)
    ensures CpuAllowed(job, readers, tree, phase)
  {
    ValidParts(job.txn);
    hide Valid, RecordsValid, OwnersListed, Interrupted, Rooted, Footprint, LosesItsCpuProvenance, CpuMatches, Policy,
         AttemptIsMeaningful, MetaIsOldOrNew, RankOrdered, ClosurePresent, ConfigComplete, ConfigValid;
    if ChangeAuthorized(job.txn, start, phase) {
      ChangeStaysAuthorized(job.txn, start, tree, phase);
    } else {
      CpuChoiceIsStable(job, readers, start, tree, phase);
    }
  }

  lemma ChangesAreAllowedAgain(job: Job, start: Tree, tree: Tree)
    requires Prepared(job, start) && job.txn.version >= 2 && ChangesAllowed(job.txn, start)
    requires Interrupted(job.txn, start, tree) && MetaIsOldOrNew(job, start, tree)
    ensures ChangesAllowed(job.txn, tree)
  {
    hide Prepared, Interrupted, ChangeAuthorized, Described, Configured, Keys, MetadataValue, MetaLines, MetaIsOldOrNew;
    var t := job.txn;
    forall key: Key | key in Keys(t.version) && key != CpuTarget &&
        Some(MetadataValue(MetaLines(tree), key)) != Configured(t, key)
      ensures key != RunSchemaVersion
      ensures forall phase :: phase in Described(key) ==> ChangeAuthorized(t, tree, phase)
    {
      ChangeIsAllowedAgain(job, start, tree, key);
    }
  }

  lemma AuthorizedAgain(job: Job, readers: Readers, start: Tree, tree: Tree)
    requires Prepared(job, start) && Authorized(job, readers, start)
    requires Interrupted(job.txn, start, tree) && MetaIsOldOrNew(job, start, tree)
    requires !LosesItsCpuProvenance(job, readers, start)
    ensures Authorized(job, readers, tree)
  {
    ValidParts(job.txn);
    hide Valid, RecordsValid, OwnersListed, Interrupted, Rooted, LosesItsCpuProvenance, ChangesAllowed, CpuAllowed,
         Policy, MetaIsOldOrNew, RankOrdered, ClosurePresent, ConfigComplete, ConfigValid;
    if job.txn.version != 1 {
      PolicyIsStable(job, start, tree);
      ChangesAreAllowedAgain(job, start, tree);
      CpuIsAllowedAgain(job, readers, start, tree, Frequency);
      CpuIsAllowedAgain(job, readers, start, tree, Gdb);
    }
  }
}
