/** The persisted run configuration: its keys and the syntax of their values
    (redo_config_value_is_valid in diagnose.sh). */
module RunConfig {
  import opened Text

  datatype Key = Mode | RunSchemaVersion | BaselineChildren | BaselineWaves | GroupWaves
    | IndividualRuns | PinnedConcurrentRounds | ProtocolSeed | SkipPinnedConcurrent
    | TelemetryIntervalMs | GdbMaxRuns | SkipGdb | CpuTarget
  {
    function Name(): string {
      match this
      case Mode => "MODE"
      case RunSchemaVersion => "RUN_SCHEMA_VERSION"
      case BaselineChildren => "BASELINE_CHILDREN"
      case BaselineWaves => "BASELINE_WAVES"
      case GroupWaves => "GROUP_WAVES"
      case IndividualRuns => "INDIVIDUAL_RUNS"
      case PinnedConcurrentRounds => "PINNED_CONCURRENT_ROUNDS"
      case ProtocolSeed => "PROTOCOL_SEED"
      case SkipPinnedConcurrent => "SKIP_PINNED_CONCURRENT"
      case TelemetryIntervalMs => "TELEMETRY_INTERVAL_MS"
      case GdbMaxRuns => "GDB_MAX_RUNS"
      case SkipGdb => "SKIP_GDB"
      case CpuTarget => "CPU_TARGET"
    }
  }

  const KEYS_V2: seq<Key> :=
    [Mode, BaselineChildren, BaselineWaves, GroupWaves, IndividualRuns, GdbMaxRuns, SkipGdb, CpuTarget]

  const KEYS_V3: seq<Key> :=
    [Mode, RunSchemaVersion, BaselineChildren, BaselineWaves, GroupWaves, IndividualRuns,
     PinnedConcurrentRounds, ProtocolSeed, SkipPinnedConcurrent, TelemetryIntervalMs, GdbMaxRuns,
     SkipGdb, CpuTarget]

  lemma NamesAreDistinct(a: Key, b: Key)
    requires a.Name() == b.Name()
    ensures a == b
  {
  }

  lemma ShortNamesArePlain(k: Key)
    requires k.Mode? || k.SkipGdb? || k.CpuTarget? || k.GdbMaxRuns? || k.GroupWaves? || k.ProtocolSeed?
    ensures '\t' !in k.Name() && '=' !in k.Name()
  {
  }

  lemma MiddleNamesArePlain(k: Key)
    requires k.BaselineChildren? || k.BaselineWaves? || k.IndividualRuns?
    ensures '\t' !in k.Name() && '=' !in k.Name()
  {
  }

  lemma LongNamesArePlain(k: Key)
    requires k.PinnedConcurrentRounds? || k.SkipPinnedConcurrent?
    ensures '\t' !in k.Name() && '=' !in k.Name()
  {
  }

  lemma OtherNamesArePlain(k: Key)
    requires k.RunSchemaVersion? || k.TelemetryIntervalMs?
    ensures '\t' !in k.Name() && '=' !in k.Name()
  {
  }

  lemma NamesArePlain(k: Key)
    ensures '\t' !in k.Name() && '=' !in k.Name()
  {
    hide Key.Name;
    match k
    case Mode | SkipGdb | CpuTarget | GdbMaxRuns | GroupWaves | ProtocolSeed => ShortNamesArePlain(k);
    case BaselineChildren | BaselineWaves | IndividualRuns => MiddleNamesArePlain(k);
    case PinnedConcurrentRounds | SkipPinnedConcurrent => LongNamesArePlain(k);
    case RunSchemaVersion | TelemetryIntervalMs => OtherNamesArePlain(k);
  }

  /** diag_is_safe_positive_uint: a canonical positive integer below 2^53. */
  predicate SafePositive(s: string) {
    IsCanonical(s) && 0 < Value(s) < 9007199254740992
  }

  predicate ValidValue(key: Key, value: string) {
    match key
    case Mode => value == "default" || value == "quick" || value == "full"
    case RunSchemaVersion => value == "2"
    case ProtocolSeed => IsCanonical(value) && Value(value) <= 4294967295
    case SkipPinnedConcurrent => value == "0" || value == "1"
    case SkipGdb => value == "0" || value == "1"
    case TelemetryIntervalMs => SafePositive(value) && 50 <= Value(value) <= 60000
    case CpuTarget => value == "auto" || IsCanonical(value)
    case _ => SafePositive(value)
  }

  lemma ValuesArePlain(key: Key, value: string)
    requires ValidValue(key, value)
    ensures '\t' !in value
  {
    if !IsCanonical(value) {
      assert value == "default" || value == "quick" || value == "full" || value == "auto";
    }
  }

  /** The value paired with a key, or none when the list does not carry the key. */
  function Lookup(keys: seq<Key>, values: seq<string>, key: Key): (r: Option<string>)
    ensures r.Some? ==> exists i :: 0 <= i < |keys| && i < |values| && keys[i] == key && values[i] == r.value
    ensures r.None? ==> forall i :: 0 <= i < |keys| && i < |values| ==> keys[i] != key
  {
    if keys == [] || values == [] then None
    else if keys[0] == key then Some(values[0])
    else Lookup(keys[1..], values[1..], key)
  }

  /** MODE fixes the baseline size. */
  predicate PresetConsistent(keys: seq<Key>, values: seq<string>) {
    var children := Lookup(keys, values, BaselineChildren);
    var waves := Lookup(keys, values, BaselineWaves);
    match Lookup(keys, values, Mode)
    case Some(mode) =>
      if mode == "quick" then children == Some("8") && waves == Some("10")
      else if mode == "default" then children == Some("16") && waves == Some("50")
      else mode == "full" ==> children == Some("16") && waves == Some("100")
    case None => true
  }
}
