/** The artifact names the redo writer looks for, phase by phase (apply_redo_plan in
    diagnose.sh): each is allowlisted under its own phase, and none is listed twice. */
module RedoNames {
  import opened Text
  import opened RedoPlan
  import opened Artifacts

  /** A path of two components. */
  datatype Place = Place(dir: string, name: string)

  const PREFLIGHT_PLACES: seq<Place> := [
    Place("results", "preflight.meta"), Place("env", "preflight.manifest"), Place("env", "cmdline.txt"),
    Place("env", "cpuinfo-extra.txt"), Place("env", "cpufreq.txt"), Place("env", "cctk.txt"),
    Place("env", "date.txt"), Place("env", "dependencies.txt"), Place("env", "dmi.txt"),
    Place("env", "kernel-warnings.txt"), Place("env", "lscpu.txt"), Place("env", "node.txt"),
    Place("env", "online.txt"), Place("env", "os-release.txt"), Place("env", "power.txt"),
    Place("env", "summary.env"), Place("env", "topology.tsv"), Place("env", "uname.txt"),
    Place("env", "undervolt.txt"), Place("env", "root")]

  const BASELINE_PLACES: seq<Place> := [
    Place("results", "baseline.meta"), Place("logs", "baseline"), Place("freq", "baseline.samples"),
    Place("freq", "baseline.method"), Place("results", "telemetry-baseline.tsv"),
    Place("results", "telemetry-baseline.meta"), Place("telemetry", "baseline"),
    Place("state", "telemetry-baseline")]

  const GROUPS_PLACES: seq<Place> := [
    Place("results", "groups.tsv"), Place("results", "groups.meta"), Place("logs", "groups"),
    Place("results", "telemetry-groups.tsv"), Place("results", "telemetry-groups.meta"),
    Place("telemetry", "groups"), Place("state", "telemetry-groups")]

  const INDIVIDUAL_PLACES: seq<Place> := [
    Place("results", "individual.tsv"), Place("results", "individual.meta"), Place("results", "individual.plan.tsv"),
    Place("results", "individual.boundaries.ndjson"), Place("logs", "individual"),
    Place("state", "individual-attempts"), Place("state", "individual-finalize"),
    Place("results", "telemetry-individual.tsv"), Place("results", "telemetry-individual.meta"),
    Place("telemetry", "individual"), Place("state", "telemetry-individual")]

  const PINNED_PLACES: seq<Place> := [
    Place("results", "pinned-concurrent.tsv"), Place("results", "pinned-concurrent.meta"),
    Place("results", "pinned-concurrent.groups.tsv"), Place("results", "pinned-concurrent.plan.tsv"),
    Place("results", "pinned-concurrent.boundaries.ndjson"), Place("results", "pinned-concurrent.unavailable.meta"),
    Place("state", "phase-pinned-concurrent-unavailable.done"), Place("logs", "pinned-concurrent"),
    Place("state", "pinned-concurrent-waves"), Place("state", "pinned-concurrent-finalize"),
    Place("results", "telemetry-pinned-concurrent.tsv"), Place("results", "telemetry-pinned-concurrent.meta"),
    Place("telemetry", "pinned-concurrent"), Place("state", "telemetry-pinned-concurrent")]

  const FREQUENCY_PLACES: seq<Place> := [
    Place("results", "frequency-ab.tsv"), Place("results", "frequency-ab.meta"), Place("results", "frequency-cap.tsv"),
    Place("results", "frequency-cap.meta")]

  /** Beside the directory gdb itself. */
  const GDB_PLACES: seq<Place> := [
    Place("results", "gdb.meta"), Place("results", "gdb.manifest"), Place("logs", "gdb"),
    Place("results", "telemetry-gdb.tsv"), Place("results", "telemetry-gdb.meta"), Place("telemetry", "gdb"),
    Place("state", "telemetry-gdb")]

  function Places(phase: Phase): seq<Place> {
    match phase
    case Preflight => PREFLIGHT_PLACES
    case Baseline => BASELINE_PLACES
    case Groups => GROUPS_PLACES
    case Individual => INDIVIDUAL_PLACES
    case PinnedConcurrent => PINNED_PLACES
    case Frequency => FREQUENCY_PLACES
    case Gdb => GDB_PLACES
  }

  function PathsOf(places: seq<Place>): seq<Path> {
    seq(|places|, i requires 0 <= i < |places| => [places[i].dir, places[i].name])
  }

  /** In the writer's order. */
  function FixedPaths(phase: Phase): seq<Path> {
    if phase == Gdb then PathsOf(GDB_PLACES[..2]) + [["gdb"]] + PathsOf(GDB_PLACES[2..]) else PathsOf(Places(phase))
  }

  // No place is listed twice.

  lemma WorkloadsAreDistinct()
    ensures Distinct(BASELINE_PLACES) && Distinct(GROUPS_PLACES)
  {
  }

  lemma IndividualIsDistinct()
    ensures Distinct(INDIVIDUAL_PLACES)
  {
    assert "individual-attempts"[11] == 'a' && "individual-finalize"[11] == 'f';
  }

  lemma PinnedIsDistinct()
    ensures Distinct(PINNED_PLACES)
  {
  }

  lemma ManualIsDistinct()
    ensures Distinct(FREQUENCY_PLACES) && Distinct(GDB_PLACES)
  {
    assert "frequency-ab.meta"[10] == 'a' && "frequency-cap.tsv"[10] == 'c';
  }

  /** Length and second letter tell the environment names apart. */
  function Code(p: Place): int { if |p.name| > 1 then |p.name| * 1000 + p.name[1] as int else 0 }

  const PREFLIGHT_CODES: seq<int> := [
    14114, 18114, 11109, 17112, 11112, 8099, 8097, 16101, 7109, 19101, 9115, 8111, 10110, 14115, 9111, 11117,
    12111, 9110, 13110, 4111]

  lemma PreflightCodes()
    ensures |PREFLIGHT_CODES| == |PREFLIGHT_PLACES|
    ensures forall i :: 0 <= i < |PREFLIGHT_PLACES| ==> Code(PREFLIGHT_PLACES[i]) == PREFLIGHT_CODES[i]
  {
  }

  lemma CodesDiffer()
    ensures forall i, j :: 0 < i < j < |PREFLIGHT_CODES| ==> PREFLIGHT_CODES[i] != PREFLIGHT_CODES[j]
  {
  }

  lemma OnlyOneResult()
    ensures forall j :: 0 < j < |PREFLIGHT_PLACES| ==> PREFLIGHT_PLACES[j] != PREFLIGHT_PLACES[0]
  {
  }

  lemma PreflightIsDistinct()
    ensures Distinct(PREFLIGHT_PLACES)
  {
    hide Code, PREFLIGHT_PLACES, PREFLIGHT_CODES;
    PreflightCodes();
    CodesDiffer();
    OnlyOneResult();
    forall i, j | 0 <= i < j < |PREFLIGHT_PLACES| ensures PREFLIGHT_PLACES[i] != PREFLIGHT_PLACES[j] {
      if i > 0 { assert PREFLIGHT_CODES[i] != PREFLIGHT_CODES[j]; }
    }
  }

  // Every name is safe.

  predicate Simple(s: string) {
    |s| > 2 && forall i :: 0 <= i < |s| ==> 'a' <= s[i] <= 'z' || s[i] == '-' || s[i] == '.'
  }

  predicate AllSimple(places: seq<Place>) {
    forall i :: 0 <= i < |places| ==> Simple(places[i].dir) && Simple(places[i].name)
  }

  lemma DirectoriesAreSimple()
    ensures Simple("results") && Simple("env") && Simple("logs") && Simple("freq") && Simple("telemetry")
    ensures Simple("state")
  {
  }

  lemma EnvironmentIsSimple()
    ensures Simple("preflight.meta") && Simple("preflight.manifest") && Simple("cmdline.txt")
    ensures Simple("cpuinfo-extra.txt") && Simple("cpufreq.txt") && Simple("cctk.txt") && Simple("date.txt")
    ensures Simple("dependencies.txt") && Simple("dmi.txt") && Simple("kernel-warnings.txt")
  {
  }

  lemma OtherEnvironmentIsSimple()
    ensures Simple("lscpu.txt") && Simple("node.txt") && Simple("online.txt") && Simple("os-release.txt")
    ensures Simple("power.txt") && Simple("summary.env") && Simple("topology.tsv") && Simple("uname.txt")
    ensures Simple("undervolt.txt") && Simple("root")
  {
  }

  lemma PreflightIsSimple()
    ensures AllSimple(PREFLIGHT_PLACES)
  {
    hide Simple;
    DirectoriesAreSimple();
    EnvironmentIsSimple();
    OtherEnvironmentIsSimple();
  }

  lemma BaselineNames()
    ensures Simple("baseline.meta") && Simple("baseline") && Simple("baseline.samples") && Simple("baseline.method")
    ensures Simple("telemetry-baseline.tsv") && Simple("telemetry-baseline.meta") && Simple("telemetry-baseline")
  {
  }

  lemma GroupsNames()
    ensures Simple("groups.tsv") && Simple("groups.meta") && Simple("groups") && Simple("telemetry-groups.tsv")
    ensures Simple("telemetry-groups.meta") && Simple("telemetry-groups")
  {
  }

  lemma WorkloadsAreSimple()
    ensures AllSimple(BASELINE_PLACES) && AllSimple(GROUPS_PLACES)
  {
    hide Simple;
    DirectoriesAreSimple();
    BaselineNames();
    GroupsNames();
  }

  lemma IndividualNames()
    ensures Simple("individual.tsv") && Simple("individual.meta") && Simple("individual.plan.tsv")
    ensures Simple("individual.boundaries.ndjson") && Simple("individual") && Simple("individual-attempts")
  {
  }

  lemma OtherIndividualNames()
    ensures Simple("individual-finalize") && Simple("telemetry-individual.tsv")
    ensures Simple("telemetry-individual.meta") && Simple("telemetry-individual")
  {
  }

  lemma IndividualIsSimple()
    ensures AllSimple(INDIVIDUAL_PLACES)
  {
    hide Simple;
    DirectoriesAreSimple();
    IndividualNames();
    OtherIndividualNames();
  }

  lemma PinnedNames()
    ensures Simple("pinned-concurrent.tsv") && Simple("pinned-concurrent.meta")
    ensures Simple("pinned-concurrent.groups.tsv") && Simple("pinned-concurrent.plan.tsv")
    ensures Simple("pinned-concurrent.boundaries.ndjson")
  {
  }

  lemma MorePinnedNames()
    ensures Simple("pinned-concurrent.unavailable.meta") && Simple("phase-pinned-concurrent-unavailable.done")
    ensures Simple("pinned-concurrent") && Simple("pinned-concurrent-waves")
  {
  }

  lemma OtherPinnedNames()
    ensures Simple("pinned-concurrent-finalize") && Simple("telemetry-pinned-concurrent.tsv")
    ensures Simple("telemetry-pinned-concurrent.meta") && Simple("telemetry-pinned-concurrent")
  {
  }

  lemma PinnedIsSimple()
    ensures AllSimple(PINNED_PLACES)
  {
    hide Simple;
    DirectoriesAreSimple();
    PinnedNames();
    MorePinnedNames();
    OtherPinnedNames();
  }

  lemma FrequencyNames()
    ensures Simple("frequency-ab.tsv") && Simple("frequency-ab.meta") && Simple("frequency-cap.tsv")
    ensures Simple("frequency-cap.meta")
  {
  }

  lemma GdbNames()
    ensures Simple("gdb.meta") && Simple("gdb.manifest") && Simple("gdb") && Simple("telemetry-gdb.tsv")
    ensures Simple("telemetry-gdb.meta") && Simple("telemetry-gdb")
  {
  }

  lemma ManualIsSimple()
    ensures AllSimple(FREQUENCY_PLACES) && AllSimple(GDB_PLACES) && Simple("gdb")
  {
    hide Simple;
    DirectoriesAreSimple();
    FrequencyNames();
    GdbNames();
  }

  // Every place belongs to its phase. Two letters tell the families of results apart.

  predicate Owned(dir: string, name: string, phase: Phase) { OwnerOf([dir, name]) == Some(phase) }

  predicate AllOwned(phase: Phase, places: seq<Place>) {
    forall i :: 0 <= i < |places| ==> Owned(places[i].dir, places[i].name, phase)
  }

  predicate Starts(name: string, first: char, second: char) {
    || (|name| > 11 && name[0] == 't' && name[10] == first && name[11] == second)
    || (|name| > 1 && name[0] != 't' && name[0] == first && name[1] == second)
  }

  predicate IsTemporary(name: string) { |name| > 1 && name[0] == '.' }

  lemma PreflightInitials(name: string)
    ensures IsPreflightResult(name) ==> Starts(name, 'p', 'r') || IsTemporary(name)
  {
  }

  lemma BaselineInitials(name: string)
    ensures IsBaselineResult(name) ==> Starts(name, 'b', 'a')
  {
  }

  lemma GroupsInitials(name: string)
    ensures IsGroupsResult(name) ==> Starts(name, 'g', 'r')
  {
  }

  lemma IndividualInitials(name: string)
    ensures IsIndividualResult(name) ==> Starts(name, 'i', 'n')
  {
  }

  lemma PinnedTelemetryInitials(name: string)
    requires name == "telemetry-pinned-concurrent.tsv" || name == "telemetry-pinned-concurrent.meta"
    ensures Starts(name, 'p', 'i')
  {
    assert name[10] == 'p' && name[11] == 'i';
  }

  lemma PinnedListInitials(name: string)
    requires name == "pinned-concurrent.tsv" || name == "pinned-concurrent.meta"
             || name == "pinned-concurrent.groups.tsv"
    ensures Starts(name, 'p', 'i')
  {
    assert name[0] == 'p' && name[1] == 'i';
  }

  lemma PinnedPlanInitials(name: string)
    requires name == "pinned-concurrent.plan.tsv" || name == "pinned-concurrent.boundaries.ndjson"
             || name == "pinned-concurrent.unavailable.meta"
    ensures Starts(name, 'p', 'i')
  {
    assert name[0] == 'p' && name[1] == 'i';
  }

  lemma PinnedInitials(name: string)
    ensures IsPinnedResult(name) ==> Starts(name, 'p', 'i')
  {
    hide Starts;
    if name == "telemetry-pinned-concurrent.tsv" || name == "telemetry-pinned-concurrent.meta" {
      PinnedTelemetryInitials(name);
    } else if name == "pinned-concurrent.tsv" || name == "pinned-concurrent.meta"
              || name == "pinned-concurrent.groups.tsv" {
      PinnedListInitials(name);
    } else if IsPinnedResult(name) {
      PinnedPlanInitials(name);
    }
  }

  lemma FrequencyInitials(name: string)
    ensures IsFrequencyResult(name) ==> Starts(name, 'f', 'r')
  {
  }

  lemma GdbInitials(name: string)
    ensures IsGdbResult(name) ==> Starts(name, 'g', 'd') || IsTemporary(name)
  {
  }

  /** The families do not overlap: a result belongs to the phase whose family it is in. */
  lemma ResultsAreOwned(name: string)
    ensures IsBaselineResult(name) ==> ResultOwner(name) == Some(Baseline)
    ensures IsGroupsResult(name) ==> ResultOwner(name) == Some(Groups)
    ensures IsIndividualResult(name) ==> ResultOwner(name) == Some(Individual)
    ensures IsPinnedResult(name) ==> ResultOwner(name) == Some(PinnedConcurrent)
    ensures IsFrequencyResult(name) ==> ResultOwner(name) == Some(Frequency)
    ensures IsGdbResult(name) && !IsTemporary(name) ==> ResultOwner(name) == Some(Gdb)
  {
    hide IsPreflightResult, IsBaselineResult, IsGroupsResult, IsIndividualResult, IsPinnedResult, IsFrequencyResult,
         IsGdbResult;
    PreflightInitials(name);
    BaselineInitials(name);
    GroupsInitials(name);
    IndividualInitials(name);
    PinnedInitials(name);
    FrequencyInitials(name);
    GdbInitials(name);
  }

  lemma EnvironmentIsOwned(name: string)
    requires name in ENVIRONMENT_NAMES
    ensures Owned("env", name, Preflight)
  {
    assert "env"[0] == 'e' && "results"[0] == 'r';
  }

  lemma PreflightMetaIsOwned()
    ensures Owned("results", "preflight.meta", Preflight) && PREFLIGHT_PLACES[0] == Place("results", "preflight.meta")
  {
  }

  lemma PreflightIsOwned()
    ensures AllOwned(Preflight, PREFLIGHT_PLACES)
  {
    hide Owned, ENVIRONMENT_NAMES;
    PreflightMetaIsOwned();
    forall i | 1 <= i < |PREFLIGHT_PLACES| ensures Owned("env", PREFLIGHT_PLACES[i].name, Preflight) {
      EnvironmentIsListed(i);
      EnvironmentIsOwned(PREFLIGHT_PLACES[i].name);
    }
  }

  lemma EnvironmentIsListed(i: nat)
    requires 1 <= i < |PREFLIGHT_PLACES|
    ensures PREFLIGHT_PLACES[i].dir == "env" && PREFLIGHT_PLACES[i].name in ENVIRONMENT_NAMES
  {
  }

  lemma BaselineResults()
    ensures Owned("results", "baseline.meta", Baseline)
    ensures Owned("results", "telemetry-baseline.tsv", Baseline)
    ensures Owned("results", "telemetry-baseline.meta", Baseline)
  {
    hide ResultOwner;
    ResultsAreOwned("baseline.meta");
    ResultsAreOwned("telemetry-baseline.tsv");
    ResultsAreOwned("telemetry-baseline.meta");
  }

  lemma BaselineFiles()
    ensures Owned("logs", "baseline", Baseline)
    ensures Owned("freq", "baseline.samples", Baseline)
    ensures Owned("freq", "baseline.method", Baseline)
    ensures Owned("telemetry", "baseline", Baseline)
    ensures Owned("state", "telemetry-baseline", Baseline)
  {
  }

  lemma BaselineIsOwned()
    ensures AllOwned(Baseline, BASELINE_PLACES)
  {
    hide Owned;
    BaselineResults();
    BaselineFiles();
  }

  lemma GroupsResults()
    ensures Owned("results", "groups.tsv", Groups)
    ensures Owned("results", "groups.meta", Groups)
    ensures Owned("results", "telemetry-groups.tsv", Groups)
    ensures Owned("results", "telemetry-groups.meta", Groups)
  {
    hide ResultOwner;
    ResultsAreOwned("groups.tsv");
    ResultsAreOwned("groups.meta");
    ResultsAreOwned("telemetry-groups.tsv");
    ResultsAreOwned("telemetry-groups.meta");
  }

  lemma GroupsFiles()
    ensures Owned("logs", "groups", Groups)
    ensures Owned("telemetry", "groups", Groups)
    ensures Owned("state", "telemetry-groups", Groups)
  {
  }

  lemma GroupsIsOwned()
    ensures AllOwned(Groups, GROUPS_PLACES)
  {
    hide Owned;
    GroupsResults();
    GroupsFiles();
  }

  lemma IndividualResults()
    ensures Owned("results", "individual.tsv", Individual)
    ensures Owned("results", "individual.meta", Individual)
    ensures Owned("results", "individual.plan.tsv", Individual)
    ensures Owned("results", "individual.boundaries.ndjson", Individual)
    ensures Owned("results", "telemetry-individual.tsv", Individual)
    ensures Owned("results", "telemetry-individual.meta", Individual)
  {
    hide ResultOwner;
    ResultsAreOwned("individual.tsv");
    ResultsAreOwned("individual.meta");
    ResultsAreOwned("individual.plan.tsv");
    ResultsAreOwned("individual.boundaries.ndjson");
    ResultsAreOwned("telemetry-individual.tsv");
    ResultsAreOwned("telemetry-individual.meta");
  }

  lemma IndividualFiles()
    ensures Owned("logs", "individual", Individual)
    ensures Owned("state", "individual-attempts", Individual)
    ensures Owned("state", "individual-finalize", Individual)
    ensures Owned("telemetry", "individual", Individual)
    ensures Owned("state", "telemetry-individual", Individual)
  {
  }

  lemma IndividualIsOwned()
    ensures AllOwned(Individual, INDIVIDUAL_PLACES)
  {
    hide Owned;
    IndividualResults();
    IndividualFiles();
  }

  lemma PinnedResults()
    ensures Owned("results", "pinned-concurrent.tsv", PinnedConcurrent)
    ensures Owned("results", "pinned-concurrent.meta", PinnedConcurrent)
    ensures Owned("results", "pinned-concurrent.groups.tsv", PinnedConcurrent)
    ensures Owned("results", "pinned-concurrent.plan.tsv", PinnedConcurrent)
    ensures Owned("results", "pinned-concurrent.boundaries.ndjson", PinnedConcurrent)
    ensures Owned("results", "pinned-concurrent.unavailable.meta", PinnedConcurrent)
    ensures Owned("results", "telemetry-pinned-concurrent.tsv", PinnedConcurrent)
    ensures Owned("results", "telemetry-pinned-concurrent.meta", PinnedConcurrent)
  {
    hide ResultOwner;
    ResultsAreOwned("pinned-concurrent.tsv");
    ResultsAreOwned("pinned-concurrent.meta");
    ResultsAreOwned("pinned-concurrent.groups.tsv");
    ResultsAreOwned("pinned-concurrent.plan.tsv");
    ResultsAreOwned("pinned-concurrent.boundaries.ndjson");
    ResultsAreOwned("pinned-concurrent.unavailable.meta");
    ResultsAreOwned("telemetry-pinned-concurrent.tsv");
    ResultsAreOwned("telemetry-pinned-concurrent.meta");
  }

  lemma PinnedFiles()
    ensures Owned("state", "phase-pinned-concurrent-unavailable.done", PinnedConcurrent)
    ensures Owned("logs", "pinned-concurrent", PinnedConcurrent)
    ensures Owned("state", "pinned-concurrent-waves", PinnedConcurrent)
    ensures Owned("state", "pinned-concurrent-finalize", PinnedConcurrent)
    ensures Owned("telemetry", "pinned-concurrent", PinnedConcurrent)
    ensures Owned("state", "telemetry-pinned-concurrent", PinnedConcurrent)
  {
  }

  lemma PinnedIsOwned()
    ensures AllOwned(PinnedConcurrent, PINNED_PLACES)
  {
    hide Owned;
    PinnedResults();
    PinnedFiles();
  }

  lemma FrequencyResults()
    ensures Owned("results", "frequency-ab.tsv", Frequency)
    ensures Owned("results", "frequency-ab.meta", Frequency)
    ensures Owned("results", "frequency-cap.tsv", Frequency)
    ensures Owned("results", "frequency-cap.meta", Frequency)
  {
    hide ResultOwner;
    ResultsAreOwned("frequency-ab.tsv");
    ResultsAreOwned("frequency-ab.meta");
    ResultsAreOwned("frequency-cap.tsv");
    ResultsAreOwned("frequency-cap.meta");
  }

  lemma FrequencyIsOwned()
    ensures AllOwned(Frequency, FREQUENCY_PLACES)
  {
    hide Owned;
    FrequencyResults();
  }

  lemma GdbResults()
    ensures Owned("results", "gdb.meta", Gdb)
    ensures Owned("results", "gdb.manifest", Gdb)
    ensures Owned("results", "telemetry-gdb.tsv", Gdb)
    ensures Owned("results", "telemetry-gdb.meta", Gdb)
  {
    hide ResultOwner;
    ResultsAreOwned("gdb.meta");
    ResultsAreOwned("gdb.manifest");
    ResultsAreOwned("telemetry-gdb.tsv");
    ResultsAreOwned("telemetry-gdb.meta");
  }

  lemma GdbFiles()
    ensures Owned("logs", "gdb", Gdb)
    ensures Owned("telemetry", "gdb", Gdb)
    ensures Owned("state", "telemetry-gdb", Gdb)
  {
  }

  lemma GdbIsOwned()
    ensures AllOwned(Gdb, GDB_PLACES)
  {
    hide Owned;
    GdbResults();
    GdbFiles();
  }

  // The families the writer expands against the bundle.

  /** A name one of the phase's patterns matches. */
  predicate IsGlobbed(phase: Phase, path: Path) {
    |path| == 2 &&
    match phase
    case Preflight =>
      (path[0] == "env" && ".preflight.manifest." <= path[1]) || (path[0] == "results" && ".preflight.meta." <= path[1])
    case Groups => path[0] == "freq" && "group-" <= path[1]
    case Frequency => path[0] == "freq" && "freq-ab-" <= path[1]
    case Gdb => path[0] == "results" && (".gdb.manifest." <= path[1] || ".gdb.meta." <= path[1])
    case _ => false
  }

  /** No fixed name is one of a family. */
  predicate AllFixed(places: seq<Place>) {
    forall i :: 0 <= i < |places| ==> |places[i].name| > 0 && places[i].name[0] != '.' && places[i].dir != "freq"
  }

  lemma FixedNames()
    ensures AllFixed(PREFLIGHT_PLACES) && AllFixed(GROUPS_PLACES) && AllFixed(FREQUENCY_PLACES) && AllFixed(GDB_PLACES)
  {
  }

  /** A fixed path is the directory gdb or one of the places. */
  lemma FixedPathHasPlace(phase: Phase, path: Path) returns (i: nat)
    requires path in FixedPaths(phase) && path != ["gdb"]
    ensures i < |Places(phase)| && path == [Places(phase)[i].dir, Places(phase)[i].name]
  {
    hide PREFLIGHT_PLACES, BASELINE_PLACES, GROUPS_PLACES, INDIVIDUAL_PLACES, PINNED_PLACES, FREQUENCY_PLACES,
         GDB_PLACES;
    if phase == Gdb {
      GdbCount();
      var k: nat :| k < |FixedPaths(phase)| && FixedPaths(phase)[k] == path;
      i := if k < 2 then k else k - 1;
    } else {
      i :| i < |PathsOf(Places(phase))| && PathsOf(Places(phase))[i] == path;
    }
  }

  lemma FixedIsNotGlobbed(phase: Phase, path: Path)
    requires path in FixedPaths(phase)
    ensures !IsGlobbed(phase, path)
  {
    hide PREFLIGHT_PLACES, BASELINE_PLACES, GROUPS_PLACES, INDIVIDUAL_PLACES, PINNED_PLACES, FREQUENCY_PLACES,
         GDB_PLACES, FixedPaths;
    FixedNames();
    if path != ["gdb"] {
      var i := FixedPathHasPlace(phase, path);
      assert path[1] == Places(phase)[i].name;
    }
  }

  lemma SimpleIsSafe(s: string)
    requires Simple(s)
    ensures SafeName(s)
  {
  }

  lemma PlacesAreDistinct(phase: Phase)
    ensures Distinct(Places(phase))
  {
    hide Distinct, PREFLIGHT_PLACES, BASELINE_PLACES, GROUPS_PLACES, INDIVIDUAL_PLACES, PINNED_PLACES, FREQUENCY_PLACES,
         GDB_PLACES;
    PreflightIsDistinct();
    WorkloadsAreDistinct();
    IndividualIsDistinct();
    PinnedIsDistinct();
    ManualIsDistinct();
  }

  lemma PlacesAreSimple(phase: Phase)
    ensures AllSimple(Places(phase))
  {
    hide AllSimple, PREFLIGHT_PLACES, BASELINE_PLACES, GROUPS_PLACES, INDIVIDUAL_PLACES, PINNED_PLACES,
         FREQUENCY_PLACES, GDB_PLACES;
    PreflightIsSimple();
    WorkloadsAreSimple();
    IndividualIsSimple();
    PinnedIsSimple();
    ManualIsSimple();
  }

  lemma PlacesAreOwned(phase: Phase)
    ensures AllOwned(phase, Places(phase))
  {
    hide AllOwned, PREFLIGHT_PLACES, BASELINE_PLACES, GROUPS_PLACES, INDIVIDUAL_PLACES, PINNED_PLACES,
         FREQUENCY_PLACES, GDB_PLACES;
    PreflightIsOwned();
    BaselineIsOwned();
    GroupsIsOwned();
    IndividualIsOwned();
    PinnedIsOwned();
    FrequencyIsOwned();
    GdbIsOwned();
  }

  lemma DistinctPaths(places: seq<Place>)
    requires Distinct(places)
    ensures Distinct(PathsOf(places))
  {
    forall i, j | 0 <= i < j < |places| ensures PathsOf(places)[i] != PathsOf(places)[j] {
      assert PathsOf(places)[i][0] == places[i].dir && PathsOf(places)[i][1] == places[i].name;
      assert PathsOf(places)[j][0] == places[j].dir && PathsOf(places)[j][1] == places[j].name;
    }
  }

  lemma GdbPathsAreDistinct()
    requires Distinct(PathsOf(GDB_PLACES))
    ensures Distinct(FixedPaths(Gdb))
  {
    hide GDB_PLACES;
    var all, paths := FixedPaths(Gdb), PathsOf(GDB_PLACES);
    assert |GDB_PLACES| == 7 by { GdbCount(); }
    forall i, j | 0 <= i < j < |all| ensures all[i] != all[j] {
      assert i < 2 ==> all[i] == paths[i];
      assert i > 2 ==> all[i] == paths[i - 1];
      assert j < 2 ==> all[j] == paths[j];
      assert j > 2 ==> all[j] == paths[j - 1];
      assert |all[2]| == 1 && (i != 2 ==> |all[i]| == 2) && (j != 2 ==> |all[j]| == 2);
    }
  }

  lemma GdbCount()
    ensures |GDB_PLACES| == 7
  {
  }

  /** Every fixed name is listed once, and allowlisted under its own phase. */
  lemma FixedPathsAreAllowed(phase: Phase)
    ensures Distinct(FixedPaths(phase)) && forall path :: path in FixedPaths(phase) ==> Allowed(phase, path)
  {
    hide PREFLIGHT_PLACES, BASELINE_PLACES, GROUPS_PLACES, INDIVIDUAL_PLACES, PINNED_PLACES, FREQUENCY_PLACES,
         GDB_PLACES, Simple, SafeName, OwnerOf, Places;
    PlacesAreDistinct(phase);
    DistinctPaths(Places(phase));
    if phase == Gdb {
      assert Places(Gdb) == GDB_PLACES by { GdbPlaces(); }
      GdbPathsAreDistinct();
    }
    forall path | path in FixedPaths(phase) ensures Allowed(phase, path) { FixedPathIsAllowed(phase, path); }
  }

  lemma GdbPlaces()
    ensures Places(Gdb) == GDB_PLACES
  {
  }

  lemma FixedPathIsAllowed(phase: Phase, path: Path)
    requires path in FixedPaths(phase)
    ensures Allowed(phase, path)
  {
    if path == ["gdb"] {
      OnlyGdbHasDirectory(phase);
      assert Simple("gdb") by { ManualIsSimple(); }
      SimpleIsSafe("gdb");
    } else {
      var i := FixedPathHasPlace(phase, path);
      PlaceIsAllowed(phase, i);
    }
  }

  lemma PlaceIsAllowed(phase: Phase, i: nat)
    requires i < |Places(phase)|
    ensures Allowed(phase, [Places(phase)[i].dir, Places(phase)[i].name])
  {
    hide Simple, SafeName, Places, OwnerOf;
    PlacesAreSimple(phase);
    PlacesAreOwned(phase);
    SimpleIsSafe(Places(phase)[i].dir);
    SimpleIsSafe(Places(phase)[i].name);
    assert Owned(Places(phase)[i].dir, Places(phase)[i].name, phase);
  }

  lemma OnlyGdbHasDirectory(phase: Phase)
    requires ["gdb"] in FixedPaths(phase)
    ensures phase == Gdb
  {
    hide PREFLIGHT_PLACES, BASELINE_PLACES, GROUPS_PLACES, INDIVIDUAL_PLACES, PINNED_PLACES, FREQUENCY_PLACES,
         GDB_PLACES;
  }
}
