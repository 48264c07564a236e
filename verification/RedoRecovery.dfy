/** Crash recovery of a redo transaction: what a kill leaves intact, when the repeated
    execution is accepted, and that it ends in the uninterrupted result
    (redo_transaction_target_is_authorized, redo_transaction_pairs_are_recoverable and
    redo_transaction_execute in diagnose.sh). */
module RedoRecovery {
  import opened Text
  import opened RedoPlan
  import opened Artifacts
  import opened RunConfig
  import opened RunMetadata
  import opened RedoMarker
  import opened BundleTree
  import opened RedoSteps

  // Evidence readers. Each looks only at the artifacts and marker of its own phases.

  datatype Verdict = Unavailable | NoFailingCpu | Worst(cpu: string)

  /** The external evidence validators, and whether this process has already derived the
      group provenance they compare against. */
  datatype Readers = Readers(provenance: bool,
                             individual: (Tree, Tree) -> Verdict,
                             pinnedCpu: Tree -> Option<string>,
                             frequencyCpu: Tree -> Option<string>,
                             gdbCpu: Tree -> Option<string>)

  predicate InFootprint(phase: Phase, p: Path) {
    || p == MarkerOf(phase)
    || (|p| >= 1 && OwnerOf(p[..1]) == Some(phase))
    || (|p| >= 2 && OwnerOf(p[..2]) == Some(phase))
  }

  /** The marker and artifacts of one phase. */
  function Footprint(tree: Tree, phase: Phase): Tree {
    map p | p in tree && InFootprint(phase, p) :: tree[p]
  }

  predicate PhaseDone(tree: Tree, phase: Phase) { MarkerOf(phase) in Footprint(tree, phase) }

  /** A path of an open-ended family, for which mere presence counts. */
  predicate IsFamilyMember(path: Path) {
    |path| == 2 &&
    ((path[0] == "freq" && ("group-" < path[1] || "freq-ab-" < path[1]))
     || (path[0] == "results" && (".gdb.manifest." < path[1] || ".gdb.meta." < path[1])))
  }

  /** phase_attempt_is_meaningful: some artifact exists, other than an empty directory. */
  predicate AttemptIsMeaningful(footprint: Tree, phase: Phase) {
    phase != Preflight &&
    exists p :: p in footprint && OwnerOf(p) == Some(phase) &&
      (footprint[p].Directory? && !IsFamilyMember(p) ==>
         exists q :: q in footprint && p < q && |q| == |p| + 1)
  }

  const PINNED_META: Path := ["results", "pinned-concurrent.meta"]

  /** worst_cpu: the individual result, or the pinned result when no CPU failed alone. */
  function WorstCpu(job: Job, readers: Readers, tree: Tree): Option<string>
    requires Total(job.globals)
  {
    if !readers.provenance then None
    else
      match readers.individual(Footprint(tree, Groups), Footprint(tree, Individual))
      case Unavailable => None
      case Worst(cpu) => Some(cpu)
      case NoFailingCpu =>
        var pinned := Footprint(tree, PinnedConcurrent);
        if job.globals[RunSchemaVersion] == "2" && PINNED_META in pinned && pinned[PINNED_META].File?
        then readers.pinnedCpu(pinned) else None
  }

  function ResolvePolicy(job: Job, readers: Readers, tree: Tree, policy: string): Option<string>
    requires Total(job.globals)
  {
    if policy == "auto" then WorstCpu(job, readers, tree)
    else if IsCanonical(policy) then Some(policy) else None
  }

  /** The CPU that completed frequency or gdb evidence is bound to; gdb answers "-" when
      the phase was completed as a skip. */
  function BoundCpu(readers: Readers, tree: Tree, phase: Phase): Option<string> {
    if phase == Gdb then readers.gdbCpu(Footprint(tree, phase))
    else readers.frequencyCpu(Footprint(tree, phase))
  }

  predicate IsSkip(readers: Readers, tree: Tree, phase: Phase) {
    phase == Gdb && BoundCpu(readers, tree, phase) == Some("-")
  }

  /** cpu_target_matches_completed_phase. */
  predicate CpuMatches(job: Job, readers: Readers, tree: Tree, policy: string, phase: Phase)
    requires Total(job.globals)
  {
    PhaseDone(tree, phase) ==>
      || IsSkip(readers, tree, phase)
      || match BoundCpu(readers, tree, phase)
         case None => false
         case Some(cpu) => IsCanonical(cpu) && ResolvePolicy(job, readers, tree, policy) == Some(cpu)
  }

  /** redo_changed_config_authorized_for_phase. */
  predicate ChangeAuthorized(t: Transaction, tree: Tree, phase: Phase) {
    PhaseDone(tree, phase) || AttemptIsMeaningful(Footprint(tree, phase), phase) ==> phase in t.phases
  }

  /** The phases whose evidence a configuration key describes. */
  function Described(key: Key): set<Phase> {
    match key
    case Mode => {Baseline, Groups, Individual, PinnedConcurrent, Gdb}
    case TelemetryIntervalMs => {Baseline, Groups, Individual, PinnedConcurrent, Gdb}
    case BaselineChildren => {Baseline}
    case BaselineWaves => {Baseline}
    case GroupWaves => {Groups}
    case IndividualRuns => {Individual}
    case PinnedConcurrentRounds => {PinnedConcurrent}
    case SkipPinnedConcurrent => {PinnedConcurrent}
    case ProtocolSeed => {Individual, PinnedConcurrent}
    case GdbMaxRuns => {Gdb}
    case SkipGdb => {Gdb}
    case _ => {}
  }

  function MetaLines(tree: Tree): seq<string> {
    if META in tree && tree[META].File? then tree[META].lines else []
  }

  function Policy(t: Transaction, tree: Tree): Option<string> {
    match Configured(t, CpuTarget)
    case Some(value) => Some(value)
    case None => if META in tree && tree[META].File? then StoredCpuTarget(tree[META].lines) else None
  }

  /** A configured value that differs from the stored one describes no evidence that is kept. */
  predicate ChangesAllowed(t: Transaction, tree: Tree) {
    forall key: Key | key in Keys(t.version) && key != CpuTarget &&
        Some(MetadataValue(MetaLines(tree), key)) != Configured(t, key) ::
      key != RunSchemaVersion && forall phase :: phase in Described(key) ==> ChangeAuthorized(t, tree, phase)
  }

  predicate CpuAllowed(job: Job, readers: Readers, tree: Tree, phase: Phase)
    requires Total(job.globals) && Policy(job.txn, tree).Some?
  {
    CpuMatches(job, readers, tree, Policy(job.txn, tree).value, phase) || ChangeAuthorized(job.txn, tree, phase)
  }

  /** redo_transaction_target_is_authorized. */
  predicate Authorized(job: Job, readers: Readers, tree: Tree)
    requires Total(job.globals)
  {
    || job.txn.version == 1
    || (ChangesAllowed(job.txn, tree) && Policy(job.txn, tree).Some?
        && CpuAllowed(job, readers, tree, Frequency) && CpuAllowed(job, readers, tree, Gdb))
  }

  /** redo_source_parent_is_safe. */
  predicate SourceParentIsSafe(tree: Tree, path: Path) {
    forall n :: 0 < n < |path| ==> IsDirectory(tree, path[..n])
  }

  /** redo_destination_parent_is_safe_readonly: walk down until something is absent. */
  predicate ParentsAreSafe(tree: Tree, dirs: seq<Path>) {
    dirs == [] || dirs[0] !in tree || (tree[dirs[0]].Directory? && ParentsAreSafe(tree, dirs[1..]))
  }

  /** Only the readiness token may have vanished from both sides. */
  predicate IsLegacyToken(r: Record) { r == Record(None, ["manifest.txt"]) }

  /** redo_transaction_pair_is_recoverable. */
  predicate PairIsRecoverable(t: Transaction, tree: Tree, r: Record) {
    (r.path in tree) != (Target(t, r) in tree)
    || (r.path !in tree && Target(t, r) !in tree && IsLegacyToken(r))
  }

  /** redo_transaction_pairs_are_recoverable. */
  predicate Recoverable(t: Transaction, tree: Tree) {
    && AbsentOrDirectory(tree, SUPERSEDED) && AbsentOrDirectory(tree, Stash(t))
    && forall i :: 0 <= i < |t.records| ==>
         && SourceParentIsSafe(tree, t.records[i].path)
         && ParentsAreSafe(tree, [Stash(t)] + TargetParents(t, t.records[i]))
         && PairIsRecoverable(t, tree, t.records[i])
  }

  /** The checks that precede every execution. */
  ghost predicate Accepts(job: Job, readers: Readers, tree: Tree)
    requires Total(job.globals)
  {
    && PENDING in tree && tree[PENDING].File? && ParseMarker(tree[PENDING].lines) == Some(job.txn)
    && Authorized(job, readers, tree)
    && Recoverable(job.txn, tree)
  }

  // What every interrupted state keeps.

  /** Paths an execution may change. */
  ghost predicate Touched(t: Transaction, q: Path) {
    || SUPERSEDED <= q || q == META || q == PENDING
    || (exists phase :: phase in t.phases && q == MarkerOf(phase))
    || (exists r :: r in t.records && r.path <= q)
  }

  function Home(t: Transaction, tree: Tree, r: Record): Path {
    if r.path in tree then r.path else Target(t, r)
  }

  /** The record exists unchanged on exactly one side. */
  ghost predicate Preserved(t: Transaction, start: Tree, tree: Tree, r: Record) {
    if r.path !in start && Target(t, r) !in start
    then IsLegacyToken(r) && r.path !in tree && Target(t, r) !in tree
    else
      && (r.path in tree) != (Target(t, r) in tree)
      && SameContents(tree, Home(t, tree, r), start, Home(t, start, r))
  }

  ghost predicate ArchiveIsClear(t: Transaction, tree: Tree) {
    forall p :: IsArchiveDirectory(t, p) ==> AbsentOrDirectory(tree, p)
  }

  /** The relation between the state an execution starts from and any state a kill leaves. */
  ghost predicate Interrupted(t: Transaction, start: Tree, tree: Tree) {
    && (forall q :: !Touched(t, q) ==> At(tree, q) == At(start, q))
    && (forall r :: r in t.records ==> Preserved(t, start, tree, r))
    && ArchiveIsClear(t, tree)
  }

  lemma ApartExtends(a: Path, b: Path, q: Path)
    requires Apart(a, b)
    ensures !(a <= b + q)
  {
    PrefixesAreComparable(a, b, b + q);
  }

  /** Changing nodes outside a record's two subtrees keeps it preserved. */
  lemma PreservedElsewhere(t: Transaction, start: Tree, tree: Tree, tree': Tree, r: Record)
    requires Preserved(t, start, tree, r)
    requires forall q: Path :: At(tree', r.path + q) == At(tree, r.path + q)
    requires forall q: Path :: At(tree', Target(t, r) + q) == At(tree, Target(t, r) + q)
    ensures Preserved(t, start, tree', r)
  {
    assert r.path + [] == r.path && Target(t, r) + [] == Target(t, r);
    assert At(tree', r.path) == At(tree, r.path) && At(tree', Target(t, r)) == At(tree, Target(t, r));
    hide Target;
    assert Home(t, tree, r) == Home(t, tree', r);
  }

  lemma DirectoryKeepsInterrupted(t: Transaction, start: Tree, tree: Tree, p: Path)
    requires RecordsValid(t.records) && Interrupted(t, start, tree) && IsArchiveDirectory(t, p) && p !in tree
    ensures Interrupted(t, start, tree[p := Directory])
  {
    var tree' := tree[p := Directory];
    hide RecordValid, Target, IsArchiveDirectory;
    forall r | r in t.records ensures Preserved(t, start, tree', r) {
      ArchiveDirectoryIsApart(t, p, r);
      PreservedElsewhere(t, start, tree, tree', r);
    }
    ArchiveDirectoryIsInside(t, p);
  }

  /** Removing a marker or rewriting the metadata touches no record. */
  lemma FileKeepsInterrupted(t: Transaction, start: Tree, tree: Tree, tree': Tree, p: Path)
    requires RecordsValid(t.records) && Interrupted(t, start, tree)
    requires p == PENDING || p == META || exists phase :: phase in t.phases && p == MarkerOf(phase)
    requires forall q: Path :: q != p ==> At(tree', q) == At(tree, q)
    ensures Interrupted(t, start, tree')
  {
    hide RecordValid, IsArchiveDirectory, MarkerName;
    forall r | r in t.records ensures Preserved(t, start, tree', r) {
      SourceIsApart(t, r, p);
      PreservedElsewhere(t, start, tree, tree', r);
    }
    forall d | IsArchiveDirectory(t, d) ensures AbsentOrDirectory(tree', d) {
      ArchiveDirectoryIsInside(t, d);
      assert At(tree', d) == At(tree, d);
    }
  }

  lemma MoveKeepsInterrupted(t: Transaction, start: Tree, tree: Tree, r: Record)
    requires RecordsValid(t.records) && Interrupted(t, start, tree) && r in t.records
    requires r.path in tree && Target(t, r) !in tree
    ensures Interrupted(t, start, Move(tree, r.path, Target(t, r)))
  {
    hide RecordValid;
    var d := Target(t, r);
    var tree' := Move(tree, r.path, d);
    SourceIsApart(t, r, d);
    assert SUPERSEDED <= d;
    forall q | !Touched(t, q) ensures At(tree', q) == At(start, q) {
      PrefixIsTransitive(SUPERSEDED, d, q);
      MoveKeepsOthers(tree, r.path, d, q);
    }
    forall r' | r' in t.records ensures Preserved(t, start, tree', r') {
      if r' == r { MovedIsPreserved(t, start, tree, r); } else { OtherIsPreserved(t, start, tree, r, r'); }
    }
    forall p | IsArchiveDirectory(t, p) ensures AbsentOrDirectory(tree', p) {
      ArchiveDirectoryIsApart(t, p, r);
      MoveKeepsOthers(tree, r.path, d, p);
      assert At(tree', p) == At(tree, p);
    }
  }

  lemma MovedIsPreserved(t: Transaction, start: Tree, tree: Tree, r: Record)
    requires Preserved(t, start, tree, r) && r.path in tree && Target(t, r) !in tree
    requires Apart(r.path, Target(t, r))
    ensures Preserved(t, start, Move(tree, r.path, Target(t, r)), r)
  {
    hide Target;
    var d := Target(t, r);
    var tree' := Move(tree, r.path, d);
    MoveKeepsContents(tree, r.path, d);
    assert r.path + [] == r.path && d + [] == d;
    assert At(tree', d + []) == At(tree, r.path + []);
    assert r.path + [] !in tree';
    forall q: Path ensures At(tree', d + q) == At(start, Home(t, start, r) + q) {
      assert At(tree', d + q) == At(tree, r.path + q);
    }
  }

  lemma OtherIsPreserved(t: Transaction, start: Tree, tree: Tree, r: Record, r': Record)
    requires RecordValid(r) && RecordValid(r') && r != r' && Preserved(t, start, tree, r')
    ensures Preserved(t, start, Move(tree, r.path, Target(t, r)), r')
  {
    TargetsAreApart(t, r, r');
    SourceIsApart(t, r, Target(t, r));
    SourceIsApart(t, r, Target(t, r'));
    SourceIsApart(t, r', Target(t, r));
    hide RecordValid, Target;
    var d, tree' := Target(t, r), Move(tree, r.path, Target(t, r));
    forall q: Path
      ensures At(tree', r'.path + q) == At(tree, r'.path + q)
      ensures At(tree', Target(t, r') + q) == At(tree, Target(t, r') + q)
    {
      ApartExtends(r.path, r'.path, q);
      ApartExtends(d, r'.path, q);
      ApartExtends(r.path, Target(t, r'), q);
      ApartExtends(d, Target(t, r'), q);
      MoveKeepsOthers(tree, r.path, d, r'.path + q);
      MoveKeepsOthers(tree, r.path, d, Target(t, r') + q);
    }
    PreservedElsewhere(t, start, tree, tree', r');
  }

  /** Every step keeps the relation. */
  lemma StepKeepsInterrupted(job: Job, start: Tree, tree: Tree, kind: nat, step: Step)
    requires Total(job.globals) && RecordsValid(job.txn.records)
    requires Interrupted(job.txn, start, tree) && kind <= 4 && OfKind(job.txn, kind, step)
    ensures Interrupted(job.txn, start, Apply(job, step, tree))
  {
    hide RecordValid, Interrupted, Rewrite, CompletedValue, MarkerName, Target, IsArchiveDirectory;
    var t := job.txn;
    match step
    case MakeDirectory(p) =>
      if p !in tree { DirectoryKeepsInterrupted(t, start, tree, p); }
    case Remove(p) =>
      FileKeepsInterrupted(t, start, tree, tree - {p}, p);
    case Archive(s, d) =>
      var r :| r in t.records && step == Archive(r.path, Target(t, r));
      if s in tree && d !in tree { MoveKeepsInterrupted(t, start, tree, r); }
    case PublishMeta =>
      FileKeepsInterrupted(t, start, tree, Apply(job, step, tree), META);
  }

  lemma NoKill(job: Job, start: Tree)
    requires Total(job.globals)
    ensures Killed(job, 0, start) == start
  {
  }

  lemma NextKill(job: Job, k: nat, start: Tree)
    requires Total(job.globals) && k < |Program(job.txn)|
    ensures Killed(job, k + 1, start) == Apply(job, Program(job.txn)[k], Killed(job, k, start))
  {
    hide Apply, Program;
    assert Program(job.txn)[..k + 1][..k] == Program(job.txn)[..k];
  }

  lemma {:induction false} KilledIsInterrupted(job: Job, start: Tree, k: nat)
    requires WellFormed(job) && k <= |Program(job.txn)| && Interrupted(job.txn, start, start)
    ensures Interrupted(job.txn, start, Killed(job, k, start))
  {
    hide Interrupted, Valid, Apply, OfKind, Program, Run;
    var t := job.txn;
    assert k == 0 ==> Killed(job, k, start) == start by { NoKill(job, start); }
    if k > 0 {
      KilledIsInterrupted(job, start, k - 1);
      NextKill(job, k - 1, start);
      StepHasKind(t, k - 1);
      KindsAreOrdered(t, k - 1, k - 1);
      assert RecordsValid(t.records) by { ValidParts(t); }
      StepKeepsInterrupted(job, start, Killed(job, k - 1, start), KindAt(t, k - 1), Program(t)[k - 1]);
    }
  }

  lemma ValidParts(t: Transaction)
    requires Valid(t)
    ensures RecordsValid(t.records) && RankOrdered(t.phases) && OwnersListed(t.phases, t.records)
    ensures ClosurePresent(t.version, t.phases) && 1 <= t.version <= 3
    ensures ConfigComplete(t.version, t.values) && ConfigValid(t.version, t.values)
  {
    hide RecordsValid, RankOrdered, OwnersListed, ClosurePresent, ConfigValid, PresetConsistent, ValidId, Keys;
  }

  /** A state that passes the pair check in a real directory tree can be the start. */
  lemma RecoverableStarts(t: Transaction, start: Tree)
    requires RecordsValid(t.records) && Recoverable(t, start) && Rooted(start)
    ensures Interrupted(t, start, start)
  {
    hide RecordValid, Target;
    forall p | IsArchiveDirectory(t, p) ensures AbsentOrDirectory(start, p) {
      if p != SUPERSEDED && p != Stash(t) {
        var r :| r in t.records && SUPERSEDED <= p && p < Target(t, r);
        ParentIsClear(t, start, r, p);
      }
    }
  }

  lemma ParentIsClear(t: Transaction, start: Tree, r: Record, p: Path)
    requires Rooted(start) && AbsentOrDirectory(start, SUPERSEDED)
    requires ParentsAreSafe(start, [Stash(t)] + TargetParents(t, r))
    requires SUPERSEDED <= p && p < Target(t, r)
    ensures AbsentOrDirectory(start, p)
  {
    if |p| >= 3 {
      var dirs := [Stash(t)] + TargetParents(t, r);
      DirsAreAncestors(t, r);
      assert p == Target(t, r)[..|p|] == dirs[|p| - 3];
      hide Target, TargetParents;
      ChainIsClear(start, dirs, |p| - 3);
    } else {
      assert p == SUPERSEDED;
    }
  }

  /** The stash and a target's parents are the target's ancestors, from the stash down. */
  lemma DirsAreAncestors(t: Transaction, r: Record)
    ensures var dirs := [Stash(t)] + TargetParents(t, r);
      && |Target(t, r)| == 3 + |dirs|
      && (forall i :: 0 <= i < |dirs| ==> dirs[i] == Target(t, r)[..3 + i])
      && (forall i, j :: 0 <= i < j < |dirs| ==> dirs[i] <= dirs[j])
  {
    var dirs := [Stash(t)] + TargetParents(t, r);
    var relative := [Bucket(r)] + r.path;
    assert Target(t, r) == Stash(t) + relative;
    forall i | 0 <= i < |dirs| ensures dirs[i] == Target(t, r)[..3 + i] {
      if i > 0 { assert TargetParents(t, r)[i - 1] == Stash(t) + relative[..i]; }
    }
  }

  lemma {:induction false} ChainIsClear(tree: Tree, dirs: seq<Path>, i: nat)
    requires Rooted(tree) && ParentsAreSafe(tree, dirs) && i < |dirs|
    requires forall i :: 0 <= i < |dirs| ==> dirs[i] != []
    requires forall i, j :: 0 <= i < j < |dirs| ==> dirs[i] <= dirs[j]
    ensures AbsentOrDirectory(tree, dirs[i])
  {
    if dirs[0] !in tree {
      if i > 0 { NothingBelowAbsent(tree, dirs[0], dirs[i]); }
    } else if i > 0 {
      assert dirs[1..][i - 1] == dirs[i];
      ChainIsClear(tree, dirs[1..], i - 1);
    }
  }

  /** Any interrupted state passes the pair check again. */
  lemma InterruptedIsRecoverable(t: Transaction, start: Tree, tree: Tree)
    requires Valid(t) && Recoverable(t, start) && Interrupted(t, start, tree)
    ensures Recoverable(t, tree)
  {
    ValidParts(t);
    hide RecordValid, Target, Valid;
    forall i | 0 <= i < |t.records|
      ensures SourceParentIsSafe(tree, t.records[i].path)
      ensures ParentsAreSafe(tree, [Stash(t)] + TargetParents(t, t.records[i]))
      ensures PairIsRecoverable(t, tree, t.records[i])
    {
      var r := t.records[i];
      assert r in t.records;
      assert Preserved(t, start, tree, r);
      SourceParentStays(t, start, tree, r);
      ClearParentsAreSafe(t, tree, r);
    }
  }

  lemma SourceParentStays(t: Transaction, start: Tree, tree: Tree, r: Record)
    requires RecordsValid(t.records) && r in t.records
    requires SourceParentIsSafe(start, r.path) && forall q :: !Touched(t, q) ==> At(tree, q) == At(start, q)
    ensures SourceParentIsSafe(tree, r.path)
  {
    RecordShape(r);
    hide RecordValid;
    if |r.path| == 2 {
      var parent := r.path[..1];
      forall r' | r' in t.records ensures !(r'.path <= parent) {
        PrefixComponents(r'.path, parent);
        PrefixComponents(r'.path, r.path);
        if r' != r { SourcesAreApart(r', r); }
      }
      assert forall phase: Phase :: parent != MarkerOf(phase);
      assert At(tree, parent) == At(start, parent);
      assert IsDirectory(start, r.path[..1]);
    }
  }

  lemma ClearParentsAreSafe(t: Transaction, tree: Tree, r: Record)
    requires r in t.records && ArchiveIsClear(t, tree)
    ensures ParentsAreSafe(tree, [Stash(t)] + TargetParents(t, r))
  {
    var dirs := [Stash(t)] + TargetParents(t, r);
    var relative := [Bucket(r)] + r.path;
    assert Target(t, r) == Stash(t) + relative;
    forall i | 0 <= i < |dirs| ensures AbsentOrDirectory(tree, dirs[i]) {
      if i > 0 {
        assert dirs[i] == Stash(t) + relative[..i] == Target(t, r)[..3 + i];
        assert IsArchiveDirectory(t, dirs[i]);
      }
    }
    AllClearIsSafe(tree, dirs);
  }

  lemma {:induction false} AllClearIsSafe(tree: Tree, dirs: seq<Path>)
    requires forall i :: 0 <= i < |dirs| ==> AbsentOrDirectory(tree, dirs[i])
    ensures ParentsAreSafe(tree, dirs)
  {
    if dirs != [] { AllClearIsSafe(tree, dirs[1..]); }
  }

  // Convergence.

  /** The bundle after a run that was killed once for every entry of kills, each time after
      that many of its own steps. */
  function KilledRepeatedly(job: Job, kills: seq<nat>, start: Tree): Tree
    requires Total(job.globals) && forall i :: 0 <= i < |kills| ==> kills[i] <= |Program(job.txn)|
    decreases |kills|
  {
    if kills == [] then start
    else Killed(job, kills[|kills| - 1], KilledRepeatedly(job, kills[..|kills| - 1], start))
  }

  function Furthest(kills: seq<nat>): nat
    decreases |kills|
  {
    if kills == [] then 0
    else
      var rest := Furthest(kills[..|kills| - 1]);
      if rest < kills[|kills| - 1] then kills[|kills| - 1] else rest
  }

  /** Many kills leave what the furthest of them alone would leave. */
  lemma {:induction false} OnlyTheFurthestKillMatters(job: Job, kills: seq<nat>, start: Tree)
    requires WellFormed(job) && forall i :: 0 <= i < |kills| ==> kills[i] <= |Program(job.txn)|
    ensures Furthest(kills) <= |Program(job.txn)|
    ensures KilledRepeatedly(job, kills, start) == Killed(job, Furthest(kills), start)
    decreases |kills|
  {
    hide Valid, Program, PairwiseCompatible;
    if kills == [] {
      assert Program(job.txn)[..0] == [];
    } else {
      var front := kills[..|kills| - 1];
      OnlyTheFurthestKillMatters(job, front, start);
      ProgramIsCompatible(job.txn);
      RepeatedPrefix(job, Program(job.txn), Furthest(front), kills[|kills| - 1], start);
    }
  }

  /** Repeating the whole execution after any sequence of kills gives the uninterrupted
      bundle. */
  lemma RecoveryConverges(job: Job, kills: seq<nat>, start: Tree)
    requires WellFormed(job) && forall i :: 0 <= i < |kills| ==> kills[i] <= |Program(job.txn)|
    ensures Run(job, Program(job.txn), KilledRepeatedly(job, kills, start)) == Run(job, Program(job.txn), start)
  {
    hide Valid, Program, PairwiseCompatible;
    OnlyTheFurthestKillMatters(job, kills, start);
    ProgramIsCompatible(job.txn);
    var n := |Program(job.txn)|;
    RepeatedPrefix(job, Program(job.txn), Furthest(kills), n, start);
    assert Program(job.txn)[..n] == Program(job.txn);
  }
}
