/** The atomic steps of a redo transaction and what a kill between two of them leaves
    behind (redo_transaction_execute in diagnose.sh). */
module RedoSteps {
  import opened Text
  import opened RedoPlan
  import opened Artifacts
  import opened RunConfig
  import opened RunMetadata
  import opened RedoMarker
  import opened BundleTree

  datatype Step = MakeDirectory(path: Path) | Remove(path: Path)
    | Archive(source: Path, target: Path) | PublishMeta

  function Stash(t: Transaction): Path { SUPERSEDED + [t.id] }

  function Bucket(r: Record): string {
    match r.owner
    case None => "derived"
    case Some(phase) => phase.Name()
  }

  /** Where a record is archived. */
  function Target(t: Transaction, r: Record): Path { Stash(t) + [Bucket(r)] + r.path }

  function Ancestors(base: Path, relative: Path): (dirs: seq<Path>)
    ensures |dirs| == if relative == [] then 0 else |relative| - 1
    ensures forall i :: 0 <= i < |dirs| ==> dirs[i] == base + relative[..i + 1]
  {
    seq(if relative == [] then 0 else |relative| - 1,
        i requires 0 <= i < |relative| => base + relative[..i + 1])
  }

  function TargetParents(t: Transaction, r: Record): seq<Path> { Ancestors(Stash(t), [Bucket(r)] + r.path) }

  function MakeAll(dirs: seq<Path>): seq<Step> {
    seq(|dirs|, i requires 0 <= i < |dirs| => MakeDirectory(dirs[i]))
  }

  function PrepareSteps(t: Transaction, records: seq<Record>): seq<Step> {
    if records == [] then []
    else PrepareSteps(t, records[..|records| - 1]) + MakeAll(TargetParents(t, records[|records| - 1]))
  }

  function InvalidateSteps(phases: seq<Phase>): seq<Step> {
    seq(|phases|, i requires 0 <= i < |phases| => Remove(MarkerOf(phases[i])))
  }

  function ArchiveSteps(t: Transaction, records: seq<Record>): seq<Step> {
    seq(|records|, i requires 0 <= i < |records| => Archive(records[i].path, Target(t, records[i])))
  }

  function OpeningSteps(t: Transaction): seq<Step> {
    [MakeDirectory(SUPERSEDED), MakeDirectory(Stash(t))] + PrepareSteps(t, t.records)
  }

  /** Everything up to, and without, the metadata publication. */
  function EvidenceSteps(t: Transaction): seq<Step> {
    OpeningSteps(t) + InvalidateSteps(t.phases) + ArchiveSteps(t, t.records)
  }

  /** The whole execution, in the order of the source. */
  function Program(t: Transaction): seq<Step> {
    EvidenceSteps(t) + [PublishMeta, Remove(PENDING)]
  }

  // Effects.

  /** The configuration a transaction leaves in effect (redo_adopt_pending_config). */
  function Adopted(t: Transaction, globals: Config): (c: Config)
    ensures c.Keys == globals.Keys
  {
    map key: Key | key in globals ::
      match Configured(t, key) case Some(value) => value case None => globals[key]
  }

  /** Version-1 markers carry no configuration and rewrite only the completed list. */
  function NewConfig(t: Transaction, globals: Config): Option<Config> {
    if t.version >= 2 then Some(Adopted(t, globals)) else None
  }

  function CompletedNames(tree: Tree, phases: seq<Phase>, schema2: bool): seq<string> {
    if phases == [] then []
    else
      (if MarkerOf(phases[0]) in tree && (schema2 || phases[0] != PinnedConcurrent) then [phases[0].Name()] else [])
      + CompletedNames(tree, phases[1..], schema2)
  }

  /** completed_phases_value. */
  function CompletedValue(tree: Tree, schema2: bool): string {
    var names := CompletedNames(tree, RANKED, schema2);
    if names == [] then "" else Join(names, ',')
  }

  datatype Job = Job(txn: Transaction, globals: Config)
  {
    function Schema2(): bool
      requires Total(globals)
    {
      Adopted(txn, globals)[RunSchemaVersion] == "2"
    }
  }

  ghost predicate WellFormed(job: Job) { Valid(job.txn) && Total(job.globals) }

  function Apply(job: Job, step: Step, tree: Tree): Tree
    requires Total(job.globals)
  {
    match step
    case MakeDirectory(p) => if p in tree then tree else tree[p := Directory]
    case Remove(p) => tree - {p}
    case Archive(s, d) => if s in tree && d !in tree then Move(tree, s, d) else tree
    case PublishMeta =>
      if META in tree && tree[META].File?
      then tree[META := File(Rewrite(tree[META].lines, NewConfig(job.txn, job.globals),
                                     CompletedValue(tree, job.Schema2())))]
      else tree
  }

  function Run(job: Job, steps: seq<Step>, tree: Tree): Tree
    requires Total(job.globals)
    decreases |steps|
  {
    if steps == [] then tree
    else Apply(job, steps[|steps| - 1], Run(job, steps[..|steps| - 1], tree))
  }

  /** The bundle after a kill that lets the first k steps of an execution happen. */
  function Killed(job: Job, k: nat, tree: Tree): Tree
    requires Total(job.globals) && k <= |Program(job.txn)|
  {
    Run(job, Program(job.txn)[..k], tree)
  }

  lemma {:induction false} RunConcat(job: Job, a: seq<Step>, b: seq<Step>, tree: Tree)
    requires Total(job.globals)
    ensures Run(job, a + b, tree) == Run(job, b, Run(job, a, tree))
    decreases |b|
  {
    hide Apply;
    if b == [] {
      assert a + b == a;
    } else {
      var front := b[..|b| - 1];
      assert (a + b)[..|a + b| - 1] == a + front;
      RunConcat(job, a, front, tree);
    }
  }

  // Completed steps stay completed: re-running them has no effect.

  /** The step has nothing left to do. */
  ghost predicate Settled(job: Job, step: Step, tree: Tree)
    requires Total(job.globals)
  {
    match step
    case MakeDirectory(p) => p in tree
    case Remove(p) => p !in tree
    case Archive(s, d) => s !in tree || d in tree
    case PublishMeta => Apply(job, PublishMeta, tree) == tree
  }

  /** What must hold of the paths for a later step to leave an earlier one settled. */
  predicate Compatible(earlier: Step, later: Step) {
    match (earlier, later)
    case (MakeDirectory(p), Remove(q)) => p != q
    case (MakeDirectory(p), Archive(s, d)) => !(s <= p) && !(d <= p)
    case (Remove(p), MakeDirectory(q)) => p != q
    case (Remove(p), Archive(s, d)) => !(d <= p)
    case (Remove(p), PublishMeta) => p != META
    case (Archive(s, d), MakeDirectory(q)) => s != q
    case (Archive(s, d), Remove(q)) => d != q
    case (Archive(s, d), Archive(s', d')) => !(d' <= s) && !(s' <= d) && !(d' <= d)
    case (Archive(s, d), PublishMeta) => true
    case (PublishMeta, Remove(q)) => q == PENDING
    case (PublishMeta, _) => false
    case _ => true
  }

  predicate ProperArchive(step: Step) { step.Archive? ==> Apart(step.source, step.target) }

  lemma SettledIsNoOp(job: Job, step: Step, tree: Tree)
    requires Total(job.globals) && Settled(job, step, tree)
    ensures Apply(job, step, tree) == tree
  {
    hide Rewrite, CompletedValue;
    if step.Remove? { assert tree - {step.path} == tree; }
  }

  lemma CompletedIgnores(tree: Tree, tree': Tree, phases: seq<Phase>, schema2: bool)
    requires forall p: Phase :: MarkerOf(p) in tree <==> MarkerOf(p) in tree'
    ensures CompletedNames(tree, phases, schema2) == CompletedNames(tree', phases, schema2)
  {
    hide MarkerOf;
  }

  lemma StepSettles(job: Job, step: Step, tree: Tree)
    requires Total(job.globals) && ProperArchive(step)
    ensures Settled(job, step, Apply(job, step, tree))
  {
    match step
    case MakeDirectory(p) =>
    case Remove(p) =>
    case Archive(s, d) =>
      if s in tree && d !in tree { MoveAt(tree, s, d, s); }
    case PublishMeta =>
      PublishIsIdempotent(job, tree);
  }

  lemma PublishIsIdempotent(job: Job, tree: Tree)
    requires Total(job.globals)
    ensures Apply(job, PublishMeta, Apply(job, PublishMeta, tree)) == Apply(job, PublishMeta, tree)
  {
    hide Rewrite, CompletedNames, Join, MarkerOf, Adopted;
    if META in tree && tree[META].File? {
      var once := Apply(job, PublishMeta, tree);
      assert once.Keys == tree.Keys;
      CompletedIgnores(tree, once, RANKED, job.Schema2());
      RewriteIsIdempotent(tree[META].lines, NewConfig(job.txn, job.globals), CompletedValue(tree, job.Schema2()));
    }
  }

  lemma MarkersAreNotMeta()
    ensures forall p: Phase :: MarkerOf(p) != META && MarkerOf(p) != PENDING && META != PENDING
  {
    hide MarkerName;
    forall p: Phase ensures MarkerOf(p) != PENDING { StateNamesAreApart(p); }
  }

  lemma SettledStays(job: Job, step: Step, later: Step, tree: Tree)
    requires Total(job.globals) && ProperArchive(later)
    requires Settled(job, step, tree) && Compatible(step, later)
    ensures Settled(job, step, Apply(job, later, tree))
  {
    match step
    case MakeDirectory(p) => NodeStays(job, p, later, tree);
    case Remove(p) =>
      hide Rewrite, CompletedValue;
      if later.Archive? { MoveKeepsAbsent(tree, later.source, later.target, p); }
    case Archive(s, d) =>
      hide Rewrite, CompletedValue;
      if later.Archive? {
        if s !in tree { MoveKeepsAbsent(tree, later.source, later.target, s); }
        if d in tree { MoveAt(tree, later.source, later.target, d); }
      }
    case PublishMeta => RemovingMarkerKeepsMeta(job, tree);
  }

  lemma NodeStays(job: Job, p: Path, later: Step, tree: Tree)
    requires Total(job.globals) && ProperArchive(later) && p in tree
    requires Compatible(MakeDirectory(p), later)
    ensures p in Apply(job, later, tree)
  {
    hide Rewrite, CompletedValue;
    if later.Archive? { MoveAt(tree, later.source, later.target, p); }
  }

  lemma MoveKeepsAbsent(tree: Tree, s: Path, d: Path, p: Path)
    requires Apart(s, d) && p !in tree && !(d <= p)
    ensures p !in Move(tree, s, d)
  {
    MoveAt(tree, s, d, p);
  }

  lemma RemovingMarkerKeepsMeta(job: Job, tree: Tree)
    requires Total(job.globals) && Settled(job, PublishMeta, tree)
    ensures Settled(job, PublishMeta, Apply(job, Remove(PENDING), tree))
  {
    hide Rewrite, CompletedNames, Join, MarkerOf, Adopted;
    var after := tree - {PENDING};
    MarkersAreNotMeta();
    assert forall p: Phase :: MarkerOf(p) in tree <==> MarkerOf(p) in after;
    CompletedIgnores(tree, after, RANKED, job.Schema2());
    if META in tree && tree[META].File? {
      assert Apply(job, PublishMeta, tree)[META] == tree[META];
      assert Apply(job, PublishMeta, after) == after[META := tree[META]];
    }
  }

  // Convergence of any program whose steps are pairwise compatible.

  predicate PairwiseCompatible(steps: seq<Step>) {
    && (forall i :: 0 <= i < |steps| ==> ProperArchive(steps[i]))
    && (forall i, j :: 0 <= i < j < |steps| ==> Compatible(steps[i], steps[j]))
  }

  lemma {:induction false} PrefixIsSettled(job: Job, steps: seq<Step>, k: nat, i: nat, tree: Tree)
    requires Total(job.globals) && PairwiseCompatible(steps) && i < k <= |steps|
    ensures Settled(job, steps[i], Run(job, steps[..k], tree))
  {
    hide Settled, Apply, Compatible;
    assert steps[..k][..k - 1] == steps[..k - 1];
    if i == k - 1 {
      StepSettles(job, steps[i], Run(job, steps[..k - 1], tree));
    } else {
      PrefixIsSettled(job, steps, k - 1, i, tree);
      SettledStays(job, steps[i], steps[k - 1], Run(job, steps[..k - 1], tree));
    }
  }

  /** Repeating the first m steps on a state that already has the first k does nothing new. */
  lemma {:induction false} RepeatedPrefix(job: Job, steps: seq<Step>, k: nat, m: nat, tree: Tree)
    requires Total(job.globals) && PairwiseCompatible(steps) && k <= |steps| && m <= |steps|
    ensures Run(job, steps[..m], Run(job, steps[..k], tree)) ==
            Run(job, steps[..if m <= k then k else m], tree)
  {
    hide Settled, Apply, Compatible, ProperArchive;
    if m > 0 {
      RepeatedPrefix(job, steps, k, m - 1, tree);
      assert steps[..m][..m - 1] == steps[..m - 1];
      if m <= k {
        PrefixIsSettled(job, steps, k, m - 1, tree);
        SettledIsNoOp(job, steps[m - 1], Run(job, steps[..k], tree));
      } else if m == k + 1 {
        assert steps[..m][..k] == steps[..k];
      }
    }
  }

  // The program of a valid transaction is pairwise compatible.

  lemma RecordShape(r: Record)
    requires RecordValid(r)
    ensures |r.path| == 1 || |r.path| == 2
    ensures r.path != SUPERSEDED && r.path != PENDING && r.path != META
    ensures forall p: Phase :: r.path != MarkerOf(p)
    ensures |r.path| == 2 ==> r.path[0] != "gdb" && OwnerOf(r.path).Some?
    ensures |r.path| == 1 ==> r.path[0] != "state" && r.path[0] != "results"
  {
    hide ResultOwner, StateOwner, FreqOwner, DirectoryOwner, MarkerName;
    match r.owner
    case None =>
      assert "results.json" != "results" && "report.md"[0] == 'r';
    case Some(phase) =>
      forall p: Phase ensures r.path != MarkerOf(p) { OwnedIsApart(r.path, p); }
      OwnedIsApart(r.path, Gdb);
      assert "gdb"[0] == 'g';
  }

  /** No recorded source contains or lies in the archive, the marker, the metadata or a
      phase marker. */
  lemma SourceIsApart(t: Transaction, r: Record, q: Path)
    requires RecordValid(r)
    requires SUPERSEDED <= q || q == PENDING || q == META || exists p: Phase :: q == MarkerOf(p)
    ensures Apart(r.path, q)
  {
    RecordShape(r);
    hide MarkerName, RecordValid;
    PrefixComponents(r.path, q);
    PrefixComponents(q, r.path);
    PrefixComponents(SUPERSEDED, q);
    assert |q| >= 2 && (q[0] == "state" || q[0] == "results");
    assert |r.path| == 2 ==> r.path == [r.path[0], r.path[1]];
  }

  lemma TargetsAreApart(t: Transaction, a: Record, b: Record)
    requires RecordValid(a) && RecordValid(b) && a != b
    ensures Apart(a.path, b.path) && Apart(Target(t, a), Target(t, b))
  {
    assert Apart(a.path, b.path) by { SourcesAreApart(a, b); }
    hide RecordValid;
    var x, y := Target(t, a), Target(t, b);
    assert x[4..] == a.path && y[4..] == b.path;
    PrefixOfRest(x, y, 4);
    PrefixOfRest(y, x, 4);
  }

  lemma SourcesAreApart(a: Record, b: Record)
    requires RecordValid(a) && RecordValid(b) && a != b
    ensures Apart(a.path, b.path)
  {
    DerivedIsNotOwned();
    hide OwnerOf, IsDerived;
    if a.path <= b.path { RecordedPathsDoNotNest(a.path, b.path); }
    if b.path <= a.path { RecordedPathsDoNotNest(b.path, a.path); }
  }

  lemma DerivedIsNotOwned()
    ensures forall p: Path :: IsDerived(p) ==> OwnerOf(p).None?
  {
    assert "gdb"[0] == 'g' && "results.json"[0] == 'r' && "report.md"[0] == 'r';
    assert "privacy-review.txt"[0] == 'p' && "manifest.txt"[0] == 'm';
  }

  /** A directory above some archive target. */
  ghost predicate IsArchiveDirectory(t: Transaction, p: Path) {
    || p == SUPERSEDED || p == Stash(t)
    || exists r :: r in t.records && SUPERSEDED <= p && p < Target(t, r)
  }

  /** The five kinds of step, numbered in the order they run. */
  ghost predicate OfKind(t: Transaction, kind: nat, step: Step) {
    match kind
    case 0 => step.MakeDirectory? && IsArchiveDirectory(t, step.path)
    case 1 => step.Remove? && exists phase :: phase in t.phases && step.path == MarkerOf(phase)
    case 2 => step.Archive? && exists r :: r in t.records && step == Archive(r.path, Target(t, r))
    case 3 => step.PublishMeta?
    case _ => step == Remove(PENDING)
  }

  lemma ArchiveDirectoryIsApart(t: Transaction, p: Path, r: Record)
    requires RecordsValid(t.records) && IsArchiveDirectory(t, p) && r in t.records
    ensures SUPERSEDED <= p && !(r.path <= p) && !(Target(t, r) <= p)
  {
    hide RecordValid;
    SourceIsApart(t, r, p);
    forall r' | r' in t.records && p < Target(t, r') ensures !(Target(t, r) <= p) {
      if r' != r { TargetsAreApart(t, r, r'); }
      PrefixIsTransitive(Target(t, r), p, Target(t, r'));
    }
  }

  lemma KindsAreCompatible(t: Transaction, kind: nat, a: Step, kind': nat, b: Step)
    requires RecordsValid(t.records)
    requires kind <= kind' <= 4 && OfKind(t, kind, a) && OfKind(t, kind', b)
    requires kind == kind' ==> kind == 0 || (kind < 3 && a != b)
    ensures Compatible(a, b) && ProperArchive(a) && ProperArchive(b)
  {
    hide RecordValid, MarkerName, RecordsValid;
    MarkersAreNotMeta();
    if kind' == 2 { ArchiveKindIsApart(t, b); }
    if kind == 2 { ArchiveKindIsApart(t, a); }
    if kind == 0 && kind' == 2 {
      var r :| r in t.records && b == Archive(r.path, Target(t, r));
      ArchiveDirectoryIsApart(t, a.path, r);
    }
    if kind == 2 && kind' == 2 {
      var r :| r in t.records && a == Archive(r.path, Target(t, r));
      var r' :| r' in t.records && b == Archive(r'.path, Target(t, r'));
      ArchivesAreCompatible(t, r, r');
    }
    if kind == 0 { ArchiveDirectoryIsInside(t, a.path); }
  }

  lemma ArchiveDirectoryIsInside(t: Transaction, p: Path)
    requires IsArchiveDirectory(t, p)
    ensures SUPERSEDED <= p && p != PENDING && p != META && forall q: Phase :: p != MarkerOf(q)
  {
    hide MarkerName;
    assert p[0] == "state" && p[1] == "superseded";
    assert PENDING[1][0] == 'r' && META[1][0] == 'm' && p[1][0] == 's';
    forall q: Phase ensures p != MarkerOf(q) {
      StateNamesAreApart(q);
      assert MarkerOf(q)[1] == MarkerName(q);
    }
  }

  lemma ArchiveKindIsApart(t: Transaction, step: Step)
    requires RecordsValid(t.records) && OfKind(t, 2, step)
    ensures ProperArchive(step) && SUPERSEDED <= step.target && |step.target| > 3
    ensures step.source != PENDING
  {
    hide RecordValid;
    var r :| r in t.records && step == Archive(r.path, Target(t, r));
    SourceIsApart(t, r, Target(t, r));
    SourceIsApart(t, r, PENDING);
  }

  lemma ArchivesAreCompatible(t: Transaction, r: Record, r': Record)
    requires RecordsValid(t.records) && r in t.records && r' in t.records && r != r'
    ensures Compatible(Archive(r.path, Target(t, r)), Archive(r'.path, Target(t, r')))
  {
    hide RecordValid;
    TargetsAreApart(t, r, r');
    SourceIsApart(t, r, SUPERSEDED);
    SourceIsApart(t, r', Target(t, r));
    PrefixIsTransitive(SUPERSEDED, Target(t, r'), r.path);
  }

  function KindAt(t: Transaction, i: nat): nat {
    var start := |OpeningSteps(t)|;
    if i < start then 0
    else if i < start + |t.phases| then 1
    else if i < start + |t.phases| + |t.records| then 2
    else if i == start + |t.phases| + |t.records| then 3
    else 4
  }

  lemma {:induction false} PrepareStepsMakeDirectories(t: Transaction, records: seq<Record>, i: nat)
    requires forall r :: r in records ==> r in t.records
    requires i < |PrepareSteps(t, records)|
    ensures OfKind(t, 0, PrepareSteps(t, records)[i])
  {
    var last := records[|records| - 1];
    var front := PrepareSteps(t, records[..|records| - 1]);
    if i < |front| {
      PrepareStepsMakeDirectories(t, records[..|records| - 1], i);
    } else {
      var relative := [Bucket(last)] + last.path;
      var j := i - |front|;
      assert PrepareSteps(t, records)[i] == MakeAll(TargetParents(t, last))[j];
      assert TargetParents(t, last)[j] == Stash(t) + relative[..j + 1];
      assert Target(t, last) == Stash(t) + relative;
      assert Stash(t) + relative[..j + 1] == Target(t, last)[..3 + j + 1];
    }
  }

  lemma StepHasKind(t: Transaction, i: nat)
    requires i < |Program(t)|
    ensures OfKind(t, KindAt(t, i), Program(t)[i])
  {
    hide MarkerName;
    if i == 0 {
    } else if i == 1 {
    } else if i < |OpeningSteps(t)| {
      PrepareStepsMakeDirectories(t, t.records, i - 2);
      assert Program(t)[i] == PrepareSteps(t, t.records)[i - 2];
    } else if KindAt(t, i) == 1 {
      assert Program(t)[i] == InvalidateSteps(t.phases)[i - |OpeningSteps(t)|];
    } else if KindAt(t, i) == 2 {
      assert Program(t)[i] == ArchiveSteps(t, t.records)[i - |OpeningSteps(t)| - |t.phases|];
    }
  }

  lemma RepeatedKindsDiffer(t: Transaction, i: nat, j: nat)
    requires RecordsValid(t.records) && RankOrdered(t.phases)
    requires i < j < |Program(t)| && KindAt(t, i) == KindAt(t, j)
    ensures KindAt(t, i) == 0 || (KindAt(t, i) < 3 && Program(t)[i] != Program(t)[j])
  {
    hide RecordValid;
    var start := |OpeningSteps(t)|;
    if KindAt(t, i) == 1 {
      assert Program(t)[i] == Remove(MarkerOf(t.phases[i - start]));
      assert Program(t)[j] == Remove(MarkerOf(t.phases[j - start]));
      MarkersAreDistinct(t.phases[i - start], t.phases[j - start]);
    } else if KindAt(t, i) == 2 {
      var a, b := t.records[i - start - |t.phases|], t.records[j - start - |t.phases|];
      assert Program(t)[i] == Archive(a.path, Target(t, a)) && Program(t)[j] == Archive(b.path, Target(t, b));
      SourcesAreApart(a, b);
    }
  }

  lemma MarkersAreDistinct(p: Phase, q: Phase)
    requires p != q
    ensures MarkerOf(p) != MarkerOf(q)
  {
    PhaseNameIsPlain(p);
    PhaseNameIsPlain(q);
    hide Phase.Name, PhaseNamed;
    assert MarkerName(p)[6..|MarkerName(p)| - 5] == p.Name();
    assert MarkerName(q)[6..|MarkerName(q)| - 5] == q.Name();
  }

  lemma ProgramIsCompatible(t: Transaction)
    requires Valid(t)
    ensures PairwiseCompatible(Program(t))
  {
    hide Compatible, OfKind, KindAt, ProperArchive, Program, RecordValid, RecordsValid, PresetConsistent,
         ValidId, ValidValue, ClosurePresent, Keys;
    forall i, j | 0 <= i < j < |Program(t)|
      ensures Compatible(Program(t)[i], Program(t)[j]) && ProperArchive(Program(t)[i])
    {
      StepHasKind(t, i);
      StepHasKind(t, j);
      KindsAreOrdered(t, i, j);
      if KindAt(t, i) == KindAt(t, j) { RepeatedKindsDiffer(t, i, j); }
      KindsAreCompatible(t, KindAt(t, i), Program(t)[i], KindAt(t, j), Program(t)[j]);
    }
    assert ProperArchive(Remove(PENDING)) by { ProperRemove(); }
    LastStep(t);
  }

  lemma ProperRemove()
    ensures ProperArchive(Remove(PENDING))
  {
  }

  lemma LastStep(t: Transaction)
    ensures |Program(t)| == |EvidenceSteps(t)| + 2
    ensures Program(t)[|Program(t)| - 1] == Remove(PENDING)
    ensures Program(t)[|EvidenceSteps(t)|] == PublishMeta
    ensures forall i :: 0 <= i < |EvidenceSteps(t)| ==> Program(t)[i] == EvidenceSteps(t)[i]
  {
  }

  lemma KindsAreOrdered(t: Transaction, i: nat, j: nat)
    requires i <= j
    ensures KindAt(t, i) <= KindAt(t, j) <= 4
  {
  }
}
