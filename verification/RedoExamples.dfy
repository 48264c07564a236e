/** Concrete bundles whose interrupted redo is refused: the failing inputs behind the
    conditions of RedoTheorems.EveryKillIsAcceptedIff, RedoResume.ReconciliationAcceptsIff and
    RedoEntry.PreparationBlocksRecoveryIff. */
module RedoExamples {
  import opened Text
  import opened RedoPlan
  import opened Artifacts
  import opened RunConfig
  import opened RunMetadata
  import opened RedoMarker
  import opened BundleTree
  import opened RedoSteps
  import opened RedoRecovery
  import opened RedoAuthorization
  import opened RedoTheorems
  import opened RedoEntry
  import opened RedoResume

  const ID := "redo-20240101T000000-a"

  lemma IdIsValid()
    ensures ValidId(ID)
  {
    assert ID[..5] == "redo-";
  }

  lemma {:induction false} LookupAt(keys: seq<Key>, values: seq<string>, i: nat)
    requires i < |keys| && i < |values| && DistinctKeys(keys)
    ensures Lookup(keys, values, keys[i]) == Some(values[i])
  {
    if i > 0 {
      assert keys[1..][i - 1] == keys[i];
      LookupAt(keys[1..], values[1..], i - 1);
    }
  }

  // Redoing pinned-concurrent alone under the automatic CPU policy, with completed
  // frequency evidence that the pinned result chose the CPU for.

  const VALUES: seq<string> :=
    ["default", "2", "16", "50", "1", "1", "1", "0", "0", "100", "1", "0", "auto"]

  const PINNED_REDO := Transaction(3, ID, VALUES, [PinnedConcurrent], [Record(Some(PinnedConcurrent), PINNED_META)])

  function DefaultValue(key: Key): string {
    match key
    case Mode => "default"
    case RunSchemaVersion => "2"
    case BaselineChildren => "16"
    case BaselineWaves => "50"
    case TelemetryIntervalMs => "100"
    case ProtocolSeed => "0"
    case SkipPinnedConcurrent => "0"
    case SkipGdb => "0"
    case CpuTarget => "auto"
    case _ => "1"
  }

  function Globals(): Config { map key: Key | true :: DefaultValue(key) }

  lemma GlobalsAreTotal()
    ensures Total(Globals()) && Globals()[RunSchemaVersion] == "2"
  {
  }

  /** No CPU fails alone; pinned and frequency evidence agree on CPU 3. */
  function PinnedReaders(): Readers {
    Readers(true, (groups, individual) => NoFailingCpu, pinned => Some("3"), frequency => Some("3"), gdb => None)
  }

  function PinnedJob(): Job { Job(PINNED_REDO, Globals()) }

  function PinnedMeta(): seq<string> {
    GlobalsAreTotal();
    Rewrite([], NewConfig(PINNED_REDO, Globals()), "")
  }

  lemma NumbersAreValid()
    ensures SafePositive("1") && SafePositive("16") && SafePositive("50") && SafePositive("100")
    ensures IsCanonical("0") && Value("0") == 0 && Value("100") == 100 && IsCanonical("3")
  {
    assert "16"[..1] == "1" && "50"[..1] == "5" && "100"[..2] == "10" && "10"[..1] == "1";
  }

  lemma ValuesAreValid()
    ensures ConfigValid(3, VALUES) && |VALUES| == |Keys(3)|
  {
    NumbersAreValid();
    hide IsCanonical, Value, SafePositive;
  }

  lemma PresetIsDefault()
    ensures DistinctKeys(Keys(3)) && PresetConsistent(Keys(3), VALUES)
    ensures Configured(PINNED_REDO, CpuTarget) == Some("auto")
  {
    LookupAt(Keys(3), VALUES, 0);
    LookupAt(Keys(3), VALUES, 2);
    LookupAt(Keys(3), VALUES, 3);
    LookupAt(Keys(3), VALUES, 12);
    hide Lookup;
  }

  lemma PinnedMetaIsSafe()
    ensures SafePath(PINNED_META)
  {
    assert SafeName("results");
    var name := "pinned-concurrent.meta";
    forall i | 0 <= i < |name| ensures SafeChar(name[i]) {
      assert name[i] == '-' || name[i] == '.' || 'a' <= name[i] <= 'z';
    }
  }

  lemma PinnedPathIsAllowed()
    ensures Allowed(PinnedConcurrent, PINNED_META)
  {
    PinnedMetaIsOwned();
    PinnedMetaIsSafe();
    hide OwnerOf, SafePath;
  }

  lemma PinnedRedoPhases()
    ensures PhasesValid(3, PINNED_REDO.phases) && ClosurePresent(3, PINNED_REDO.phases)
    ensures RecordsValid(PINNED_REDO.records) && OwnersListed(PINNED_REDO.phases, PINNED_REDO.records)
  {
    PinnedPathIsAllowed();
    hide Allowed;
  }

  lemma PinnedRedoIsValid()
    ensures Valid(PINNED_REDO)
  {
    IdIsValid();
    ValuesAreValid();
    PresetIsDefault();
    PinnedRedoPhases();
    var t := PINNED_REDO;
    assert t.version == 3 && t.id == ID && t.values == VALUES && |t.phases| == 1;
    hide ValidId, ConfigValid, PresetConsistent, Allowed, Keys, ID, VALUES, PhasesValid, RecordsValid, OwnersListed,
         ClosurePresent, PINNED_REDO, Configured;
  }

  /** A bundle with a marker, a metadata file, one artifact and one completed phase. */
  function Bundle(marker: seq<string>, meta: seq<string>, artifact: Path, node: Node, done: Phase): Tree {
    map[["state"] := Directory, ["results"] := Directory, META := File(meta), PENDING := File(marker),
        MarkerOf(done) := File([])][artifact := node]
  }

  lemma BundleAt(marker: seq<string>, meta: seq<string>, artifact: Path, node: Node, done: Phase)
    requires OwnerOf(artifact).Some?
    ensures At(Bundle(marker, meta, artifact, node, done), META) == Some(File(meta))
    ensures At(Bundle(marker, meta, artifact, node, done), PENDING) == Some(File(marker))
    ensures At(Bundle(marker, meta, artifact, node, done), artifact) == Some(node)
    ensures At(Bundle(marker, meta, artifact, node, done), MarkerOf(done)) == Some(File([]))
  {
    MarkersAreNotMeta();
    OwnedIsApart(artifact, done);
    hide MarkerName, OwnerOf;
    assert "state" != "results" && ["state"] != META && ["results"] != META;
  }

  lemma BundleHasDirectories(marker: seq<string>, meta: seq<string>, artifact: Path, node: Node, done: Phase)
    requires artifact == ["gdb"] || artifact == PINNED_META
    ensures IsDirectory(Bundle(marker, meta, artifact, node, done), ["results"])
    ensures IsDirectory(Bundle(marker, meta, artifact, node, done), ["state"])
  {
    hide MarkerName;
    assert "state"[0] == 's' && "results"[0] == 'r' && "gdb"[0] == 'g';
  }

  lemma BundleIsRooted(marker: seq<string>, meta: seq<string>, artifact: Path, node: Node, done: Phase)
    requires artifact == ["gdb"] || artifact == PINNED_META
    ensures Rooted(Bundle(marker, meta, artifact, node, done))
  {
    var tree := Bundle(marker, meta, artifact, node, done);
    BundleHasDirectories(marker, meta, artifact, node, done);
    forall p | p in tree && |p| > 1 ensures IsDirectory(tree, p[..|p| - 1]) {
      BundlePaths(marker, meta, artifact, node, done, p);
    }
  }

  lemma BundlePaths(marker: seq<string>, meta: seq<string>, artifact: Path, node: Node, done: Phase, p: Path)
    requires artifact == ["gdb"] || artifact == PINNED_META
    requires p in Bundle(marker, meta, artifact, node, done) && |p| > 1
    ensures p[..|p| - 1] == ["results"] || p[..|p| - 1] == ["state"]
  {
    hide MarkerName;
    assert META[..1] == ["results"] && PENDING[..1] == ["state"] && PINNED_META[..1] == ["results"];
    assert MarkerOf(done)[..1] == ["state"];
  }

  lemma BundleHasNoArchive(marker: seq<string>, meta: seq<string>, artifact: Path, node: Node, done: Phase, p: Path)
    requires OwnerOf(artifact).Some? && SUPERSEDED <= p
    ensures p !in Bundle(marker, meta, artifact, node, done)
  {
    RootIsApart(artifact);
    StateNamesAreApart(done);
    hide MarkerName, OwnerOf;
    assert |p| >= 2 && p[0] == SUPERSEDED[0] && p[1] == SUPERSEDED[1];
    assert PENDING[1][0] == 'r' && SUPERSEDED[1][0] == 's' && META[0][0] == 'r';
  }

  lemma OtherPhasesAreNotDone(marker: seq<string>, meta: seq<string>, artifact: Path, node: Node, done: Phase, p: Phase)
    requires OwnerOf(artifact).Some? && p != done
    ensures MarkerOf(p) !in Bundle(marker, meta, artifact, node, done)
  {
    MarkersAreDistinct(p, done);
    MarkersAreNotMeta();
    OwnedIsApart(artifact, p);
    hide MarkerName, OwnerOf;
  }

  function PinnedBundle(): Tree
    requires |VALUES| <= |Keys(3)|
  {
    Bundle(WriteMarker(PINNED_REDO), PinnedMeta(), PINNED_META, File([]), Frequency)
  }

  /** A version-3 redo of a rooted bundle with a metadata file, whose pinned metadata is
      recorded. */
  lemma RecordedBundleIsPrepared(job: Job, start: Tree)
    requires WellFormed(job) && job.txn.version == 3 && Rooted(start) && At(start, META).Some?
    requires start[META].File? && Record(Some(PinnedConcurrent), PINNED_META) in job.txn.records
    ensures Prepared(job, start)
  {
    hide WellFormed, Rooted, StoredCpuTarget;
  }

  lemma PinnedBundleIsPrepared()
    ensures |VALUES| <= |Keys(3)| && Prepared(PinnedJob(), PinnedBundle())
  {
    PinnedRedoIsValid();
    GlobalsAreTotal();
    ValuesAreValid();
    PinnedMetaIsOwned();
    hide Valid, Bundle, Rooted, WriteMarker, PinnedMeta, VALUES, Globals, Keys, ConfigValid, OwnerOf, Prepared,
         MarkerOf;
    var marker, meta := WriteMarker(PINNED_REDO), PinnedMeta();
    BundleAt(marker, meta, PINNED_META, File([]), Frequency);
    BundleIsRooted(marker, meta, PINNED_META, File([]), Frequency);
    assert PINNED_REDO.records[0] == Record(Some(PinnedConcurrent), PINNED_META);
    RecordedBundleIsPrepared(PinnedJob(), PinnedBundle());
  }

  /** One record, still at its source, in a bundle without an archive. */
  lemma FreshRecordIsRecoverable(t: Transaction, tree: Tree)
    requires |t.records| == 1 && t.records[0].path in tree && SourceParentIsSafe(tree, t.records[0].path)
    requires forall p :: SUPERSEDED <= p ==> p !in tree
    ensures Recoverable(t, tree)
  {
    TargetIsInside(t, t.records[0]);
    StashIsInside(t);
    hide Target, Stash, TargetParents, SourceParentIsSafe;
    assert SUPERSEDED <= SUPERSEDED;
    var dirs := [Stash(t)] + TargetParents(t, t.records[0]);
    assert dirs[0] == Stash(t);
  }

  lemma BundleIsRecoverable(t: Transaction, marker: seq<string>, meta: seq<string>, artifact: Path, node: Node,
                            done: Phase)
    requires |t.records| == 1 && t.records[0].path == artifact
    requires OwnerOf(artifact).Some? && (artifact == ["gdb"] || artifact == PINNED_META)
    ensures Recoverable(t, Bundle(marker, meta, artifact, node, done))
  {
    BundleAt(marker, meta, artifact, node, done);
    BundleHasDirectories(marker, meta, artifact, node, done);
    hide Bundle, OwnerOf, Recoverable, MarkerOf;
    var tree := Bundle(marker, meta, artifact, node, done);
    assert SourceParentIsSafe(tree, artifact) by { assert PINNED_META[..1] == ["results"]; }
    hide SourceParentIsSafe;
    forall p | SUPERSEDED <= p ensures p !in tree {
      BundleHasNoArchive(marker, meta, artifact, node, done, p);
    }
    FreshRecordIsRecoverable(t, tree);
  }

  lemma BundleIsAccepted(job: Job, readers: Readers, meta: seq<string>, artifact: Path, node: Node, done: Phase)
    requires WellFormed(job) && |job.txn.records| == 1 && job.txn.records[0].path == artifact
    requires OwnerOf(artifact).Some? && (artifact == ["gdb"] || artifact == PINNED_META)
    requires |job.txn.values| <= |Keys(job.txn.version)|
    requires Authorized(job, readers, Bundle(WriteMarker(job.txn), meta, artifact, node, done))
    ensures Accepts(job, readers, Bundle(WriteMarker(job.txn), meta, artifact, node, done))
  {
    hide Authorized, Recoverable, ParseMarker, Bundle, WriteMarker, Valid, OwnerOf, MarkerOf, Keys;
    BundleAt(WriteMarker(job.txn), meta, artifact, node, done);
    MarkerAcceptedIff(WriteMarker(job.txn), job.txn);
    BundleIsRecoverable(job.txn, WriteMarker(job.txn), meta, artifact, node, done);
  }

  lemma ConfigurationMatches(key: Key)
    requires key in Keys(3) && key != CpuTarget
    ensures Some(MetadataValue(PinnedMeta(), key)) == Configured(PINNED_REDO, key)
  {
    PinnedRedoIsValid();
    GlobalsAreTotal();
    hide Valid, Keys, VALUES, Globals, Rewrite, Lookup;
    NewMetaMatches(PinnedJob(), [], "", key);
  }

  /** The automatic choice, by the individual or else by the pinned evidence, and the
      frequency evidence all name CPU 3. */
  ghost predicate AgreeOnCpu3(readers: Readers) {
    && readers.provenance
    && (forall a, b :: readers.individual(a, b) == NoFailingCpu || readers.individual(a, b) == Worst("3"))
    && (forall p :: readers.pinnedCpu(p) == Some("3") && readers.frequencyCpu(p) == Some("3"))
  }

  lemma PinnedResultDecides(job: Job, readers: Readers, tree: Tree)
    requires Total(job.globals) && job.globals[RunSchemaVersion] == "2" && AgreeOnCpu3(readers)
    requires PINNED_META in tree && tree[PINNED_META].File? && MarkerOf(Frequency) in tree
    ensures CpuMatches(job, readers, tree, "auto", Frequency)
    ensures PhaseDone(tree, Frequency) && !IsSkip(readers, tree, Frequency)
  {
    NumbersAreValid();
    PinnedMetaInFootprint();
    hide OwnerOf, MarkerOf, IsCanonical;
    assert PINNED_META in Footprint(tree, PinnedConcurrent);
    assert InFootprint(Frequency, MarkerOf(Frequency));
  }

  lemma UnchangedTargetIsAuthorized(job: Job, readers: Readers, tree: Tree)
    requires Total(job.globals) && Policy(job.txn, tree) == Some("auto")
    requires forall key :: key in Keys(job.txn.version) && key != CpuTarget ==>
               Some(MetadataValue(MetaLines(tree), key)) == Configured(job.txn, key)
    requires CpuMatches(job, readers, tree, "auto", Frequency) && !PhaseDone(tree, Gdb)
    ensures Authorized(job, readers, tree)
  {
    hide Policy, Keys, Configured, MetadataValue, MetaLines, ChangeAuthorized, PhaseDone, IsSkip, BoundCpu;
  }

  lemma PinnedBundleIsAuthorized(readers: Readers)
    requires AgreeOnCpu3(readers)
    ensures |VALUES| <= |Keys(3)| && Total(Globals()) && Policy(PINNED_REDO, PinnedBundle()) == Some("auto")
    ensures Authorized(PinnedJob(), readers, PinnedBundle())
    ensures PhaseDone(PinnedBundle(), Frequency) && !IsSkip(readers, PinnedBundle(), Frequency)
  {
    ValuesAreValid();
    GlobalsAreTotal();
    PinnedMetaIsOwned();
    PresetIsDefault();
    hide Bundle, WriteMarker, PinnedMeta, Keys, Globals, OwnerOf, CpuMatches, Configured, IsSkip,
         Matching, ConfigValid, PresetConsistent, DistinctKeys, Authorized, Footprint, MarkerOf, VALUES;
    var marker, meta := WriteMarker(PINNED_REDO), PinnedMeta();
    BundleAt(marker, meta, PINNED_META, File([]), Frequency);
    OtherPhasesAreNotDone(marker, meta, PINNED_META, File([]), Frequency, Gdb);
    forall key: Key | key in Keys(3) && key != CpuTarget
      ensures Some(MetadataValue(MetaLines(PinnedBundle()), key)) == Configured(PINNED_REDO, key)
    {
      ConfigurationMatches(key);
    }
    PinnedResultDecides(PinnedJob(), readers, PinnedBundle());
    AbsentIsNotDone(PinnedBundle(), Gdb);
    UnchangedTargetIsAuthorized(PinnedJob(), readers, PinnedBundle());
  }

  lemma AbsentIsNotDone(tree: Tree, phase: Phase)
    requires MarkerOf(phase) !in tree
    ensures !PhaseDone(tree, phase)
  {
    hide MarkerOf;
  }

  lemma PinnedBundleIsAccepted(readers: Readers)
    requires AgreeOnCpu3(readers)
    ensures |VALUES| <= |Keys(3)| && Prepared(PinnedJob(), PinnedBundle())
    ensures Accepts(PinnedJob(), readers, PinnedBundle()) && Policy(PINNED_REDO, PinnedBundle()) == Some("auto")
    ensures KeepsBoundEvidence(PINNED_REDO, readers, PinnedBundle(), Frequency)
  {
    hide Prepared, Authorized, PinnedBundle, VALUES, Keys, Globals, Footprint, PhaseDone, IsSkip, Accepts, Policy,
         Valid, AgreeOnCpu3;
    PinnedBundleIsPrepared();
    PinnedBundleIsAuthorized(readers);
    assert WellFormed(PinnedJob()) by { PinnedJobIsWellFormed(); }
    AuthorizedIsAccepted(readers);
  }

  lemma PinnedJobIsWellFormed()
    ensures WellFormed(PinnedJob())
  {
    PinnedRedoIsValid();
    GlobalsAreTotal();
    hide Valid, Globals;
  }

  lemma AuthorizedIsAccepted(readers: Readers)
    requires WellFormed(PinnedJob()) && |VALUES| <= |Keys(3)|
    requires Authorized(PinnedJob(), readers, PinnedBundle())
    ensures Accepts(PinnedJob(), readers, PinnedBundle())
  {
    PinnedMetaIsOwned();
    BundleIsPinned();
    hide Authorized, Bundle, WriteMarker, PinnedMeta, VALUES, Keys, Globals, Valid, OwnerOf, Accepts, PinnedBundle;
    BundleIsAccepted(PinnedJob(), readers, PinnedMeta(), PINNED_META, File([]), Frequency);
  }

  /** A redo of pinned-concurrent alone that is accepted, but refused once it was killed
      after its evidence moves. */
  lemma InterruptedPinnedRedoIsRefused()
    ensures |VALUES| <= |Keys(3)| && Prepared(PinnedJob(), PinnedBundle())
    ensures Accepts(PinnedJob(), PinnedReaders(), PinnedBundle())
    ensures exists k :: 0 <= k < |Program(PINNED_REDO)| &&
              !Accepts(PinnedJob(), PinnedReaders(), Killed(PinnedJob(), k, PinnedBundle()))
  {
    PinnedBundleIsAccepted(PinnedReaders());
    hide Prepared, PinnedBundle, Program, Killed, Footprint, PhaseDone, IsSkip, Accepts, Policy, VALUES, Keys, Globals;
    EveryKillIsAcceptedIff(PinnedJob(), PinnedReaders(), PinnedBundle());
  }

  // The same redo where the individual evidence chose the CPU: nothing it needs is archived.

  function IndividualReaders(): Readers {
    Readers(true, (groups, individual) => Worst("3"), pinned => Some("3"), frequency => Some("3"), gdb => None)
  }

  /** Every repetition of the execution is accepted, and no resume gets as far: the
      reconciliation refuses the bundle wherever the execution was killed. */
  lemma ResumedPinnedRedoIsRefused()
    ensures |VALUES| <= |Keys(3)| && Prepared(PinnedJob(), PinnedBundle())
    ensures forall k :: 0 <= k < |Program(PINNED_REDO)| ==>
              && Accepts(PinnedJob(), IndividualReaders(), Killed(PinnedJob(), k, PinnedBundle()))
              && !Reconciles(PinnedJob(), IndividualReaders(), Killed(PinnedJob(), k, PinnedBundle()))
  {
    PinnedBundleIsAccepted(IndividualReaders());
    hide Prepared, PinnedBundle, Program, Killed, Footprint, PhaseDone, IsSkip, Accepts, Policy, VALUES, Keys, Globals;
    EveryKillIsAcceptedIff(PinnedJob(), IndividualReaders(), PinnedBundle());
    ReconciliationAcceptsIff(PinnedJob(), IndividualReaders(), PinnedBundle());
  }

  // The same redo with completed baseline evidence instead: it keeps no CPU choice, and meets
  // everything RedoResume.ResumesConverge asks for.

  function ResumedJob(): Job { Job(PINNED_REDO, Adopted(PINNED_REDO, Globals())) }

  function Defaults(): Config { Globals()[RunSchemaVersion := "1"] }

  function BaselineBundle(): Tree
    requires |VALUES| <= |Keys(3)|
  {
    Bundle(WriteMarker(PINNED_REDO), PinnedMeta(), PINNED_META, File([]), Baseline)
  }

  lemma ValidIsLoadable(key: Key, value: string)
    requires ValidValue(key, value) && (key == GdbMaxRuns ==> value == "1")
    ensures Loadable(key, value)
  {
    assert Value("1") == 1;
    hide IsCanonical, Value;
  }

  lemma ValueAt(i: nat)
    requires i < |KEYS_V3| && |VALUES| == |KEYS_V3| && ConfigValid(3, VALUES)
    ensures Configured(PINNED_REDO, KEYS_V3[i]) == Some(VALUES[i]) && ValidValue(KEYS_V3[i], VALUES[i])
  {
    hide ValidValue, DistinctKeys, Lookup, VALUES;
    WrittenKeysAreDistinct(true);
    LookupAt(Keys(3), VALUES, i);
  }

  lemma ValuesAreLoadable(key: Key)
    ensures Configured(PINNED_REDO, key).Some? && Loadable(key, Configured(PINNED_REDO, key).value)
  {
    hide Configured, ConfigValid, ValidValue, Loadable, VALUES, KEYS_V3;
    ValuesAreValid();
    SchemaKeyIsListed(key);
    var i :| 0 <= i < |KEYS_V3| && KEYS_V3[i] == key;
    ValueAt(i);
    if key == GdbMaxRuns {
      OnlyTen(i);
      TenIsOne();
    }
    ValidIsLoadable(key, VALUES[i]);
  }

  lemma TenIsOne()
    ensures |VALUES| > 10 && VALUES[10] == "1"
  {
  }

  lemma OnlyTen(i: nat)
    requires i < |KEYS_V3| && KEYS_V3[i] == GdbMaxRuns
    ensures i == 10
  {
  }

  lemma ResumedGlobals()
    ensures Total(ResumedJob().globals) && ResumedJob().globals[RunSchemaVersion] == "2"
    ensures forall key :: Loadable(key, ResumedJob().globals[key])
  {
    GlobalsAreTotal();
    PinnedRedoIsValid();
    ValidParts(PINNED_REDO);
    SchemaIsConfigured(PINNED_REDO);
    hide Valid, VALUES, Configured, Loadable, ConfigValid, RecordsValid, OwnersListed, ClosurePresent, RankOrdered;
    forall key: Key ensures Loadable(key, ResumedJob().globals[key]) { ValuesAreLoadable(key); }
  }

  lemma PinnedMetaRow(key: Key)
    requires Total(ResumedJob().globals) && ResumedJob().globals[RunSchemaVersion] == "2"
    requires Loadable(key, ResumedJob().globals[key])
    ensures RowLoads(PinnedMeta(), key) && Matching(PinnedMeta(), key) == [ResumedJob().globals[key]]
  {
    hide VALUES, Rewrite, Matching, Configured, Loadable, RowLoads, WrittenKeys, Globals, Adopted;
    var g := ResumedJob().globals;
    assert PinnedMeta() == Rewrite([], Some(g), "");
    RewriteSetsConfig([], g, "", key);
    RewriteSetsConfig([], g, "", RunSchemaVersion);
    UnwrittenKeys(key, true);
    UnwrittenKeys(RunSchemaVersion, true);
    RowOfWritten(PinnedMeta(), g, key);
  }

  lemma ResumedJobReloads()
    ensures Total(ResumedJob().globals) && LoadsCleanly(PinnedMeta())
    ensures Resumed(PINNED_REDO, PinnedMeta(), Defaults()) == ResumedJob().globals
    ensures forall key :: Loadable(key, ResumedJob().globals[key])
  {
    hide VALUES, PinnedMeta, Matching, Configured, Loadable, RowLoads, Globals, Adopted;
    ResumedGlobals();
    GlobalsAreTotal();
    forall key: Key
      ensures RowLoads(PinnedMeta(), key) && Matching(PinnedMeta(), key) == [ResumedJob().globals[key]]
    {
      PinnedMetaRow(key);
    }
    assert Loaded(PinnedMeta(), Defaults()) == ResumedJob().globals;
    AdoptedTwice(PINNED_REDO, Globals());
  }

  lemma BaselineBundleIsBrought()
    ensures |VALUES| <= |Keys(3)| && Prepared(ResumedJob(), BaselineBundle())
    ensures Brings(ResumedJob(), Defaults(), BaselineBundle())
  {
    PinnedRedoIsValid();
    GlobalsAreTotal();
    ValuesAreValid();
    PinnedMetaIsOwned();
    ResumedJobReloads();
    hide Valid, Bundle, Rooted, WriteMarker, PinnedMeta, VALUES, Globals, Keys, ConfigValid, OwnerOf, Prepared,
         MarkerOf, LoadsCleanly, Resumed, WrittenKeys, Loadable;
    var marker, meta := WriteMarker(PINNED_REDO), PinnedMeta();
    BundleAt(marker, meta, PINNED_META, File([]), Baseline);
    BundleIsRooted(marker, meta, PINNED_META, File([]), Baseline);
    assert PINNED_REDO.records[0] == Record(Some(PinnedConcurrent), PINNED_META);
    RecordedBundleIsPrepared(ResumedJob(), BaselineBundle());
  }

  lemma BaselineBundleIsAuthorized(readers: Readers)
    ensures |VALUES| <= |Keys(3)| && Total(ResumedJob().globals) && Authorized(ResumedJob(), readers, BaselineBundle())
    ensures MarkerOf(Frequency) !in BaselineBundle() && MarkerOf(Gdb) !in BaselineBundle()
  {
    hide Bundle, WriteMarker, PinnedMeta, Keys, Globals, OwnerOf, Configured, Matching, ConfigValid, PresetConsistent,
         DistinctKeys, Authorized, MarkerOf, VALUES, Adopted;
    ValuesAreValid();
    GlobalsAreTotal();
    PinnedMetaIsOwned();
    PresetIsDefault();
    ResumedGlobals();
    var marker, meta := WriteMarker(PINNED_REDO), PinnedMeta();
    BundleAt(marker, meta, PINNED_META, File([]), Baseline);
    OtherPhasesAreNotDone(marker, meta, PINNED_META, File([]), Baseline, Gdb);
    OtherPhasesAreNotDone(marker, meta, PINNED_META, File([]), Baseline, Frequency);
    forall key: Key | key in Keys(3) && key != CpuTarget
      ensures Some(MetadataValue(MetaLines(BaselineBundle()), key)) == Configured(PINNED_REDO, key)
    {
      ConfigurationMatches(key);
    }
    AbsentIsNotDone(BaselineBundle(), Gdb);
    AbsentIsNotDone(BaselineBundle(), Frequency);
    UnchangedTargetIsAuthorized(ResumedJob(), readers, BaselineBundle());
  }

  lemma NothingIsKept(readers: Readers)
    requires |VALUES| <= |Keys(3)|
    requires MarkerOf(Frequency) !in BaselineBundle() && MarkerOf(Gdb) !in BaselineBundle()
    ensures !KeepsAutomaticCpu(ResumedJob(), readers, BaselineBundle())
  {
    hide Policy, BaselineBundle, MarkerOf, IsSkip;
    AbsentIsNotDone(BaselineBundle(), Gdb);
    AbsentIsNotDone(BaselineBundle(), Frequency);
  }

  /** A redo that every resume carries to its end. */
  lemma ResumedRedoIsPossible(readers: Readers)
    ensures |VALUES| <= |Keys(3)| && Prepared(ResumedJob(), BaselineBundle())
    ensures Brings(ResumedJob(), Defaults(), BaselineBundle())
    ensures Accepts(ResumedJob(), readers, BaselineBundle())
    ensures !KeepsAutomaticCpu(ResumedJob(), readers, BaselineBundle())
  {
    hide Prepared, Authorized, Recoverable, ParseMarker, Bundle, WriteMarker, PinnedMeta, VALUES, Keys, Globals,
         Valid, OwnerOf, Accepts, Brings, MarkerOf, KeepsAutomaticCpu;
    BaselineBundleIsBrought();
    BaselineBundleIsAuthorized(readers);
    NothingIsKept(readers);
    PinnedMetaIsOwned();
    assert WellFormed(ResumedJob()) by { PinnedRedoIsValid(); ResumedGlobals(); }
    BundleIsAccepted(ResumedJob(), readers, PinnedMeta(), PINNED_META, File([]), Baseline);
  }

  lemma BundleIsPinned()
    requires |VALUES| <= |Keys(3)|
    ensures PinnedBundle() == Bundle(WriteMarker(PINNED_REDO), PinnedMeta(), PINNED_META, File([]), Frequency)
  {
    hide Bundle, WriteMarker, PinnedMeta;
  }

  // Redoing gdb alone through a version-1 marker, interrupted after the gdb directory was
  // archived: main makes that directory again before it recovers.

  const GDB_REDO := Transaction(1, ID, [], [Gdb], [Record(Some(Gdb), ["gdb"])])

  function GdbJob(): Job { Job(GDB_REDO, Globals()) }

  function GdbBundle(): Tree { Bundle(WriteMarker(GDB_REDO), [], ["gdb"], Directory, Gdb) }

  lemma GdbRedoIsValid()
    ensures Valid(GDB_REDO) && WellFormed(GdbJob())
  {
    IdIsValid();
    GlobalsAreTotal();
    assert SafeName("gdb") && OwnerOf(["gdb"]) == Some(Gdb);
    hide ValidId, OwnerOf, Globals;
  }

  /** Accepted before, and refused when main prepares its directories after the kill. */
  lemma PreparedGdbRedoIsRefused(readers: Readers)
    ensures Total(Globals()) && Prepared(GdbJob(), GdbBundle()) && Accepts(GdbJob(), readers, GdbBundle())
    ensures exists k :: 0 <= k < |Program(GDB_REDO)| &&
              !Accepts(GdbJob(), readers, WithDirectories(Killed(GdbJob(), k, GdbBundle())))
  {
    GdbRedoIsValid();
    GlobalsAreTotal();
    BundleAt(WriteMarker(GDB_REDO), [], ["gdb"], Directory, Gdb);
    BundleIsRooted(WriteMarker(GDB_REDO), [], ["gdb"], Directory, Gdb);
    hide Valid, Recoverable, ParseMarker, Bundle, WriteMarker, Globals, Program, Killed, OwnerOf, Accepts,
         EvidenceSteps, MarkerOf, Rooted, StoredCpuTarget;
    BundleIsAccepted(GdbJob(), readers, [], ["gdb"], Directory, Gdb);
    AcceptedParts(GdbJob(), readers, GdbBundle());
    var n := |EvidenceSteps(GDB_REDO)|;
    var r := Record(Some(Gdb), ["gdb"]);
    assert r in GDB_REDO.records;
    ProgramLength(GDB_REDO);
    ArchivedGdbBlocks(GdbJob(), GdbBundle(), r);
    AcceptedParts(GdbJob(), readers, WithDirectories(Killed(GdbJob(), n, GdbBundle())));
  }

  lemma ArchivedGdbBlocks(job: Job, start: Tree, r: Record)
    requires Prepared(job, start) && Recoverable(job.txn, start) && r in job.txn.records && r.path in PREPARED
    ensures |EvidenceSteps(job.txn)| <= |Program(job.txn)|
    ensures !Recoverable(job.txn, WithDirectories(Killed(job, |EvidenceSteps(job.txn)|, start)))
  {
    ProgramLength(job.txn);
    StartIsInterrupted(job, start);
    hide Valid, Recoverable, Program, Killed, EvidenceSteps, Rooted, StoredCpuTarget, WithDirectories, Interrupted,
         PREPARED;
    var n := |EvidenceSteps(job.txn)|;
    KilledIsInterrupted(job, start, n);
    InterruptedIsRecoverable(job.txn, start, Killed(job, n, start));
    ArchivedAfterEvidence(job, start, n, r);
    PreparationBlocksRecoveryIff(job.txn, Killed(job, n, start));
  }
}
