/** Which bundle paths belong to which phase. Paths are sequences of components relative
    to the bundle root. The allowlist of redo_path_is_allowed in diagnose.sh names every
    path under one phase, so it is written here as a map from path to phase. */
module Artifacts {
  import opened Text
  import opened RedoPlan

  type Path = seq<string>

  predicate IsPreflightResult(name: string) { name == "preflight.meta" || ".preflight.meta." < name }

  predicate IsBaselineResult(name: string) {
    name == "baseline.meta" || name == "telemetry-baseline.tsv" || name == "telemetry-baseline.meta"
  }

  predicate IsGroupsResult(name: string) {
    name == "groups.tsv" || name == "groups.meta" || name == "telemetry-groups.tsv"
    || name == "telemetry-groups.meta"
  }

  predicate IsIndividualResult(name: string) {
    name == "individual.tsv" || name == "individual.meta" || name == "individual.plan.tsv"
    || name == "individual.boundaries.ndjson" || name == "telemetry-individual.tsv"
    || name == "telemetry-individual.meta"
  }

  predicate IsPinnedResult(name: string) {
    name == "pinned-concurrent.tsv" || name == "pinned-concurrent.meta"
    || name == "pinned-concurrent.groups.tsv" || name == "pinned-concurrent.plan.tsv"
    || name == "pinned-concurrent.boundaries.ndjson" || name == "pinned-concurrent.unavailable.meta"
    || name == "telemetry-pinned-concurrent.tsv" || name == "telemetry-pinned-concurrent.meta"
  }

  predicate IsFrequencyResult(name: string) {
    name == "frequency-ab.tsv" || name == "frequency-ab.meta" || name == "frequency-cap.tsv"
    || name == "frequency-cap.meta"
  }

  predicate IsGdbResult(name: string) {
    name == "gdb.meta" || name == "gdb.manifest" || name == "telemetry-gdb.tsv"
    || name == "telemetry-gdb.meta" || ".gdb.manifest." < name || ".gdb.meta." < name
  }

  function ResultOwner(name: string): Option<Phase> {
    if IsPreflightResult(name) then Some(Preflight)
    else if IsBaselineResult(name) then Some(Baseline)
    else if IsGroupsResult(name) then Some(Groups)
    else if IsIndividualResult(name) then Some(Individual)
    else if IsPinnedResult(name) then Some(PinnedConcurrent)
    else if IsFrequencyResult(name) then Some(Frequency)
    else if IsGdbResult(name) then Some(Gdb)
    else None
  }

  const ENVIRONMENT_NAMES: set<string> := {
    "preflight.manifest", "cmdline.txt", "cpuinfo-extra.txt", "cpufreq.txt", "cctk.txt",
    "date.txt", "dependencies.txt", "dmi.txt", "kernel-warnings.txt", "lscpu.txt", "node.txt",
    "online.txt", "os-release.txt", "power.txt", "summary.env", "topology.tsv", "uname.txt",
    "undervolt.txt", "root"}

  /** logs/ and telemetry/ hold one directory for each workload phase. */
  function DirectoryOwner(name: string): Option<Phase> {
    match PhaseNamed(name)
    case Some(Preflight) => None
    case Some(Frequency) => None
    case owner => owner
  }

  function FreqOwner(name: string): Option<Phase> {
    if name == "baseline.samples" || name == "baseline.method" then Some(Baseline)
    else if "group-" < name then Some(Groups)
    else if "freq-ab-" < name then Some(Frequency)
    else None
  }

  function StateOwner(name: string): Option<Phase> {
    if name == "telemetry-baseline" then Some(Baseline)
    else if name == "telemetry-groups" then Some(Groups)
    else if name == "individual-attempts" || name == "individual-finalize"
      || name == "telemetry-individual" then Some(Individual)
    else if name == "phase-pinned-concurrent-unavailable.done"
      || name == "pinned-concurrent-waves" || name == "pinned-concurrent-finalize"
      || name == "telemetry-pinned-concurrent" then Some(PinnedConcurrent)
    else if name == "telemetry-gdb" then Some(Gdb)
    else None
  }

  function OwnerOf(path: Path): Option<Phase> {
    if path == ["gdb"] then Some(Gdb)
    else if |path| != 2 then None
    else if path[0] == "results" then ResultOwner(path[1])
    else if path[0] == "env" then
      if path[1] in ENVIRONMENT_NAMES || ".preflight.manifest." < path[1] then Some(Preflight) else None
    else if path[0] == "logs" || path[0] == "telemetry" then DirectoryOwner(path[1])
    else if path[0] == "freq" then FreqOwner(path[1])
    else if path[0] == "state" then StateOwner(path[1])
    else None
  }

  predicate SafeChar(c: char) {
    'A' <= c <= 'Z' || 'a' <= c <= 'z' || '0' <= c <= '9' || c in "._:-"
  }

  /** redo_relative_path_is_safe for one component. */
  predicate SafeName(name: string) {
    name != "" && name != "." && name != ".." && forall i :: 0 <= i < |name| ==> SafeChar(name[i])
  }

  predicate SafePath(path: Path) {
    path != [] && forall i :: 0 <= i < |path| ==> SafeName(path[i])
  }

  /** redo_path_is_allowed. */
  predicate Allowed(phase: Phase, path: Path) {
    SafePath(path) && OwnerOf(path) == Some(phase)
  }

  /** redo_derived_path_is_allowed. */
  predicate IsDerived(path: Path) {
    path == ["results.json"] || path == ["report.md"] || path == ["privacy-review.txt"]
    || path == ["manifest.txt"]
  }

  // Bundle paths the journal itself uses.

  const META: Path := ["results", "meta.env"]
  const PENDING: Path := ["state", "redo.pending"]
  const SUPERSEDED: Path := ["state", "superseded"]

  function MarkerName(phase: Phase): string { "phase-" + phase.Name() + ".done" }

  function MarkerOf(phase: Phase): Path { ["state", MarkerName(phase)] }

  lemma StateNamesAreApart(phase: Phase)
    ensures StateOwner("superseded").None? && StateOwner("redo.pending").None?
    ensures StateOwner(MarkerName(phase)).None?
    ensures MarkerName(phase) != "superseded" && MarkerName(phase) != "redo.pending"
  {
    var name := MarkerName(phase);
    assert name[1] == 'h';
    assert "pinned-concurrent-waves"[1] == 'i' && "pinned-concurrent-finalize"[1] == 'i';
    assert |"phase-pinned-concurrent-unavailable.done"| == 40 && |name| < 40;
  }

  lemma EarlyResultNames(name: string)
    requires name != "" && name[0] == 'm'
    ensures !IsPreflightResult(name) && !IsBaselineResult(name) && !IsGroupsResult(name)
  {
  }

  lemma MiddleResultNames(name: string)
    requires name != "" && name[0] == 'm'
    ensures !IsIndividualResult(name) && !IsFrequencyResult(name)
  {
  }

  lemma LateResultNames(name: string)
    requires name != "" && name[0] == 'm'
    ensures !IsPinnedResult(name) && !IsGdbResult(name)
  {
  }

  lemma ResultNamesDoNotStartWithM(name: string)
    requires name != "" && name[0] == 'm'
    ensures ResultOwner(name).None?
  {
    EarlyResultNames(name);
    MiddleResultNames(name);
    LateResultNames(name);
    hide IsPreflightResult, IsBaselineResult, IsGroupsResult, IsIndividualResult, IsPinnedResult,
         IsFrequencyResult, IsGdbResult;
  }

  /** What the journal itself needs is never on the allowlist: the archive root, the
      marker, the metadata file, a phase marker, or a parent of any of them. */
  lemma OwnedIsApart(path: Path, phase: Phase)
    requires OwnerOf(path).Some?
    ensures path == ["gdb"] || (|path| == 2 && path[0] != "gdb")
    ensures path != SUPERSEDED && path != PENDING && path != META && path != MarkerOf(phase)
  {
    hide ResultOwner, StateOwner, FreqOwner, DirectoryOwner, MarkerName;
    StateNamesAreApart(phase);
    assert META[1][0] == 'm';
    ResultNamesDoNotStartWithM(META[1]);
    assert "results" != "state" && "results" != "env" && "state" != "env";
  }

  /** Two different owned or derived paths never nest. */
  lemma RecordedPathsDoNotNest(a: Path, b: Path)
    requires OwnerOf(a).Some? || IsDerived(a)
    requires OwnerOf(b).Some? || IsDerived(b)
    requires a <= b
    ensures a == b
  {
    if OwnerOf(a).Some? { OwnedIsApart(a, Gdb); }
    if OwnerOf(b).Some? { OwnedIsApart(b, Gdb); }
  }
}
