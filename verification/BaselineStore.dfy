/** The files of a baseline phase store (diagnose-lib/baseline-phase-store.mjs): their names,
    the inventory check, and the whole-store read. Canonical JSON lines are a parameter. */
module BaselineStore {
  import opened Text
  import opened BaselinePhase
  import opened SortedIds

  const PHASE_FILE := "baseline-phase.json"
  const PHASE_FILE_MAX := 1048576
  const WAVE_FILE_MAX := 67108864
  const STORE_MAX_WAVES := 65536
  const STORE_MAX_TOTAL := 536870912

  const WAVE_PREFIX := "baseline-wave-"
  const WAVE_SUFFIX := ".json"

  type Files = map<string, string>

  // File names.

  function Padded(n: nat): string { PadStart(Decimal(n), 9) }

  function WaveFileName(ordinal: nat): string { WAVE_PREFIX + Padded(ordinal) + WAVE_SUFFIX }

  /** The nine-digit pattern, then the number it stands for, if that is how it is written. */
  function WaveOrdinal(name: string): Option<nat> {
    if |name| == 28 && name[..14] == WAVE_PREFIX && name[23..] == WAVE_SUFFIX && AllDigits(name[14..23]) then
      var ordinal := Value(name[14..23]);
      if 1 <= ordinal <= STORE_MAX_WAVES && name == WaveFileName(ordinal) then Some(ordinal) else None
    else None
  }

  function PowerOfTen(k: nat): nat { if k == 0 then 1 else 10 * PowerOfTen(k - 1) }

  lemma {:induction false} DecimalLength(n: nat, k: nat)
    requires k >= 1 && n < PowerOfTen(k)
    ensures |Decimal(n)| <= k
  {
    if n >= 10 { DecimalLength(n / 10, k - 1); }
  }

  lemma {:induction false} LeadingZeros(z: nat, s: string)
    requires AllDigits(s)
    ensures AllDigits(Zeros(z) + s) && Value(Zeros(z) + s) == Value(s)
    decreases |s|, z
  {
    var padded := Zeros(z) + s;
    if |s| == 1 {
      if z > 0 {
        var front := padded[..|padded| - 1];
        assert front == Zeros(z - 1) + "0";
        LeadingZeros(z - 1, "0");
      }
    } else {
      var front := s[..|s| - 1];
      LeadingZeros(z, front);
      assert padded[..|padded| - 1] == Zeros(z) + front;
    }
  }

  /** Every wave's name is read back as its ordinal. */
  lemma WaveNameRoundTrip(ordinal: nat)
    requires 1 <= ordinal <= STORE_MAX_WAVES
    ensures WaveOrdinal(WaveFileName(ordinal)) == Some(ordinal)
  {
    assert PowerOfTen(1) == 10 && PowerOfTen(3) == 1000 && PowerOfTen(5) == 100000;
    DecimalLength(ordinal, 5);
    DecimalRoundTrip(ordinal);
    var d := Decimal(ordinal);
    LeadingZeros(9 - |d|, d);
    var name := WaveFileName(ordinal);
    assert name[14..23] == Padded(ordinal) && name[..14] == WAVE_PREFIX && name[23..] == WAVE_SUFFIX;
  }

  lemma OrdinalIsNamed(name: string)
    requires WaveOrdinal(name).Some?
    ensures 1 <= WaveOrdinal(name).value <= STORE_MAX_WAVES && name == WaveFileName(WaveOrdinal(name).value)
  {
  }

  lemma PhaseIsNoWave()
    ensures WaveOrdinal(PHASE_FILE).None?
  {
    assert |PHASE_FILE| == 19;
  }

  /** Record 0 is the manifest, record i the wave with ordinal i. */
  function RecordName(i: nat): string { if i == 0 then PHASE_FILE else WaveFileName(i) }

  lemma RecordNamesDiffer(i: nat, j: nat)
    requires i <= STORE_MAX_WAVES && j <= STORE_MAX_WAVES && RecordName(i) == RecordName(j)
    ensures i == j
  {
    PhaseIsNoWave();
    if i > 0 { WaveNameRoundTrip(i); }
    if j > 0 { WaveNameRoundTrip(j); }
  }

  // parseStoreNames.

  datatype Inventory = Inventory(manifestPresent: bool, waves: nat)

  ghost predicate Distinct<T(!new)>(s: seq<T>) { forall i, j :: 0 <= i < j < |s| ==> s[i] != s[j] }

  /** The manifest or not, and exactly the waves 1 to k. */
  ghost predicate Lists(names: seq<string>, inventory: Inventory) {
    && inventory.waves <= STORE_MAX_WAVES
    && (forall n :: n in names ==> n == PHASE_FILE || WaveOrdinal(n).Some?)
    && (PHASE_FILE in names <==> inventory.manifestPresent)
    && (forall o: nat :: 1 <= o <= STORE_MAX_WAVES ==> (WaveFileName(o) in names <==> o <= inventory.waves))
  }

  lemma {:induction false} IncreasingRange(s: seq<nat>, k: nat)
    requires Increasing(s) && forall x :: x in s <==> 1 <= x <= k
    ensures |s| == k && forall i :: 0 <= i < |s| ==> s[i] == i + 1
    decreases k
  {
    assert |s| == 0 || s[0] in s;
    if k > 0 {
      assert k in s;
      var last := |s| - 1;
      assert s[last] in s;
      var at :| 0 <= at < |s| && s[at] == k;
      var front := s[..last];
      forall x ensures x in front <==> 1 <= x <= k - 1 {
        if x in front { assert x in s && x < s[last]; }
        if 1 <= x <= k - 1 {
          assert x in s;
          var j :| 0 <= j < |s| && s[j] == x;
          assert front[j] == x;
        }
      }
      IncreasingRange(front, k - 1);
    }
  }

  /** The ordinals of the listed waves, in order, and whether the manifest is listed. */
  method CollectOrdinals(names: seq<string>) returns (known: bool, present: bool, waves: seq<nat>)
    requires Distinct(names)
    ensures known <==> forall n :: n in names ==> n == PHASE_FILE || WaveOrdinal(n).Some?
    ensures known ==> (present <==> PHASE_FILE in names) && Increasing(waves)
    ensures known ==> forall o :: o in waves <==> 1 <= o <= STORE_MAX_WAVES && WaveFileName(o) in names
  {
    hide WaveOrdinal, WaveFileName;
    present, waves := false, [];
    for i := 0 to |names|
      invariant present <==> PHASE_FILE in names[..i]
      invariant forall n :: n in names[..i] ==> n == PHASE_FILE || WaveOrdinal(n).Some?
      invariant Increasing(waves)
      invariant forall o :: o in waves ==> 1 <= o <= STORE_MAX_WAVES && WaveFileName(o) in names[..i]
      invariant forall n :: n in names[..i] && n != PHASE_FILE ==> WaveOrdinal(n).value in waves
    {
      var name := names[i];
      assert names[..i + 1] == names[..i] + [name];
      if name == PHASE_FILE {
        present := true;
      } else {
        var ordinal := WaveOrdinal(name);
        if ordinal.None? {
          assert name in names;
          return false, present, waves;
        }
        OrdinalIsNamed(name);
        assert name !in names[..i];
        InsertSorts(waves, ordinal.value);
        waves := Insert(waves, ordinal.value);
      }
    }
    assert names[..|names|] == names;
    known := true;
    forall o: nat | 1 <= o <= STORE_MAX_WAVES ensures WaveFileName(o) in names <==> o in waves {
      WaveNameRoundTrip(o);
      PhaseIsNoWave();
    }
  }

  lemma RangeLength(names: seq<string>, waves: seq<nat>, inventory: Inventory)
    requires Increasing(waves) && Lists(names, inventory)
    requires forall o :: o in waves <==> 1 <= o <= STORE_MAX_WAVES && WaveFileName(o) in names
    ensures |waves| == inventory.waves && forall i :: 0 <= i < |waves| ==> waves[i] == i + 1
  {
    hide WaveOrdinal, WaveFileName;
    forall x: nat ensures x in waves <==> 1 <= x <= inventory.waves {
      if 1 <= x <= STORE_MAX_WAVES { assert WaveFileName(x) in names <==> x <= inventory.waves; }
    }
    IncreasingRange(waves, inventory.waves);
  }

  lemma OutOfRange(names: seq<string>, waves: seq<nat>, index: nat)
    requires Increasing(waves) && index < |waves| && waves[index] != index + 1
    requires forall o :: o in waves <==> 1 <= o <= STORE_MAX_WAVES && WaveFileName(o) in names
    ensures forall inventory :: !Lists(names, inventory)
  {
    hide WaveOrdinal, WaveFileName, Lists;
    forall inventory ensures !Lists(names, inventory) {
      if Lists(names, inventory) {
        RangeLength(names, waves, inventory);
        assert false;
      }
    }
  }

  lemma InOrder(names: seq<string>, present: bool, waves: seq<nat>)
    requires forall n :: n in names ==> n == PHASE_FILE || WaveOrdinal(n).Some?
    requires present <==> PHASE_FILE in names
    requires forall i :: 0 <= i < |waves| ==> waves[i] == i + 1
    requires forall o :: o in waves <==> 1 <= o <= STORE_MAX_WAVES && WaveFileName(o) in names
    ensures forall inventory :: Lists(names, inventory) <==> inventory == Inventory(present, |waves|)
  {
    hide WaveOrdinal, WaveFileName;
    forall o: nat | 1 <= o <= STORE_MAX_WAVES ensures WaveFileName(o) in names <==> o <= |waves| {
      if o <= |waves| { assert waves[o - 1] in waves; }
    }
    assert |waves| == 0 || waves[|waves| - 1] in waves;
    forall inventory | Lists(names, inventory) ensures inventory == Inventory(present, |waves|) {
      RangeLength(names, waves, inventory);
    }
  }

  /** It accepts exactly the listings of a contiguous prefix, and says which. */
  method ParseStoreNames(names: seq<string>) returns (r: Option<Inventory>)
    requires Distinct(names)
    ensures r.Some? ==> Lists(names, r.value)
    ensures forall inventory :: Lists(names, inventory) ==> r == Some(inventory)
  {
    var known, present, waves := CollectOrdinals(names);
    if !known { return None; }
    hide WaveOrdinal, WaveFileName, Lists;
    for index := 0 to |waves|
      invariant forall k :: 0 <= k < index ==> waves[k] == k + 1
    {
      if waves[index] != index + 1 {
        OutOfRange(names, waves, index);
        return None;
      }
    }
    InOrder(names, present, waves);
    r := Some(Inventory(present, |waves|));
  }

  // The whole-store read.

  /** Canonical lines: how a manifest and an envelope are written, and what is read back. */
  datatype Codec = Codec(manifestLine: Manifest -> string, parseManifest: string -> Option<Manifest>,
                         waveLine: Envelope -> string, parseWave: string -> Option<Envelope>)

  ghost predicate Lawful(codec: Codec) {
    && (forall m :: codec.parseManifest(codec.manifestLine(m)) == Some(m))
    && (forall e :: codec.parseWave(codec.waveLine(e)) == Some(e))
    && (forall m :: codec.manifestLine(m) != "") && (forall e :: codec.waveLine(e) != "")
  }

  function TotalBytes(codec: Codec, m: Manifest, envelopes: seq<Envelope>): nat {
    if envelopes == [] then |codec.manifestLine(m)|
    else TotalBytes(codec, m, envelopes[..|envelopes| - 1]) + |codec.waveLine(envelopes[|envelopes| - 1])|
  }

  /** The files hold exactly the manifest and the waves 1 to k. */
  ghost predicate Counts(files: Files, k: nat) {
    && k <= STORE_MAX_WAVES && PHASE_FILE in files
    && (forall n :: n in files ==> n == PHASE_FILE || WaveOrdinal(n).Some?)
    && (forall o: nat :: 1 <= o <= STORE_MAX_WAVES ==> (WaveFileName(o) in files <==> o <= k))
  }

  lemma CountedFiles(files: Files, k: nat)
    requires Counts(files, k)
    ensures PHASE_FILE in files && k <= STORE_MAX_WAVES && forall o: nat :: 1 <= o <= k ==> WaveFileName(o) in files
  {
    hide WaveOrdinal, WaveFileName;
  }

  lemma CountsOnce(files: Files, k: nat, k': nat)
    requires Counts(files, k) && Counts(files, k')
    ensures k == k'
  {
    hide WaveOrdinal, WaveFileName;
    var o := if k < k' then k' else k;
    assert o >= 1 ==> (WaveFileName(o) in files <==> o <= k);
    assert o >= 1 ==> (WaveFileName(o) in files <==> o <= k');
  }

  ghost predicate HoldsManifest(files: Files, rules: Rules, codec: Codec, m: Manifest) {
    && PHASE_FILE in files && files[PHASE_FILE] == codec.manifestLine(m) && 0 < |files[PHASE_FILE]| <= PHASE_FILE_MAX
    && ValidManifest(rules, m)
  }

  ghost predicate HoldsWave(files: Files, rules: Rules, codec: Codec, m: Manifest, e: Envelope, ordinal: nat) {
    && WaveFileName(ordinal) in files && files[WaveFileName(ordinal)] == codec.waveLine(e)
    && 0 < |files[WaveFileName(ordinal)]| <= WAVE_FILE_MAX
    && ValidEnvelope(rules, m, e) && e.wave == ordinal
  }

  ghost predicate HoldsWaves(files: Files, rules: Rules, codec: Codec, m: Manifest, envelopes: seq<Envelope>) {
    forall i :: 0 <= i < |envelopes| ==> HoldsWave(files, rules, codec, m, envelopes[i], i + 1)
  }

  /** The files are the manifest and a prefix of valid waves, in canonical lines of allowed size. */
  ghost predicate Stores(files: Files, rules: Rules, codec: Codec, m: Manifest, envelopes: seq<Envelope>) {
    && HoldsManifest(files, rules, codec, m) && HoldsWaves(files, rules, codec, m, envelopes)
    && Counts(files, |envelopes|) && |envelopes| <= m.schedule.waves
  }

  ghost predicate Readable(files: Files, rules: Rules, codec: Codec, m: Manifest, envelopes: seq<Envelope>) {
    Stores(files, rules, codec, m, envelopes) && TotalBytes(codec, m, envelopes) <= STORE_MAX_TOTAL
  }

  datatype Store = Store(manifest: Manifest, envelopes: seq<Envelope>)

  lemma SameManifest(files: Files, rules: Rules, codec: Codec, m: Manifest, m': Manifest)
    requires Lawful(codec) && HoldsManifest(files, rules, codec, m) && HoldsManifest(files, rules, codec, m')
    ensures m == m'
  {
    assert codec.parseManifest(codec.manifestLine(m)) == Some(m);
    assert codec.parseManifest(codec.manifestLine(m')) == Some(m');
  }

  lemma SameWaves(files: Files, rules: Rules, codec: Codec, m: Manifest, some: seq<Envelope>, all: seq<Envelope>)
    requires Lawful(codec) && |some| <= |all|
    requires HoldsWaves(files, rules, codec, m, some) && HoldsWaves(files, rules, codec, m, all)
    ensures some == all[..|some|]
  {
    hide WaveFileName, ValidEnvelope;
    forall i | 0 <= i < |some| ensures some[i] == all[i] {
      assert HoldsWave(files, rules, codec, m, some[i], i + 1) && HoldsWave(files, rules, codec, m, all[i], i + 1);
      assert codec.parseWave(codec.waveLine(some[i])) == Some(some[i]);
      assert codec.parseWave(codec.waveLine(all[i])) == Some(all[i]);
    }
  }

  lemma StoredManifest(files: Files, rules: Rules, codec: Codec, m: Manifest, envelopes: seq<Envelope>)
    requires Stores(files, rules, codec, m, envelopes)
    ensures PHASE_FILE in files && files != map[]
  {
    hide HoldsWaves, Counts;
  }

  /** One file store holds one phase. */
  lemma StoresOnce(files: Files, rules: Rules, codec: Codec, m: Manifest, envelopes: seq<Envelope>, m': Manifest,
                   envelopes': seq<Envelope>)
    requires Lawful(codec) && Stores(files, rules, codec, m, envelopes) && Stores(files, rules, codec, m', envelopes')
    ensures m == m' && envelopes == envelopes'
  {
    SameManifest(files, rules, codec, m, m');
    CountsOnce(files, |envelopes|, |envelopes'|);
    SameWaves(files, rules, codec, m, envelopes, envelopes');
  }

  lemma {:induction false} TotalGrows(codec: Codec, m: Manifest, all: seq<Envelope>, i: nat)
    requires i <= |all|
    ensures TotalBytes(codec, m, all[..i]) <= TotalBytes(codec, m, all)
    decreases |all| - i
  {
    if i < |all| {
      TotalGrows(codec, m, all, i + 1);
      assert all[..i + 1][..i] == all[..i];
    } else {
      assert all[..i] == all;
    }
  }

  lemma TotalWith(codec: Codec, m: Manifest, envelopes: seq<Envelope>, e: Envelope)
    ensures TotalBytes(codec, m, envelopes + [e]) == TotalBytes(codec, m, envelopes) + |codec.waveLine(e)|
  {
    assert (envelopes + [e])[..|envelopes|] == envelopes;
  }

  /** In a readable store, every check on the next wave passes. */
  lemma NextWavePasses(files: Files, rules: Rules, codec: Codec, m: Manifest, envelopes: seq<Envelope>,
                       all: seq<Envelope>)
    requires Lawful(codec) && |envelopes| < |all|
    requires HoldsWaves(files, rules, codec, m, envelopes) && HoldsWaves(files, rules, codec, m, all)
    requires TotalBytes(codec, m, all) <= STORE_MAX_TOTAL
    ensures HoldsWave(files, rules, codec, m, all[|envelopes|], |envelopes| + 1)
    ensures codec.parseWave(files[WaveFileName(|envelopes| + 1)]) == Some(all[|envelopes|])
    ensures TotalBytes(codec, m, envelopes) + |files[WaveFileName(|envelopes| + 1)]| <= STORE_MAX_TOTAL
  {
    hide WaveFileName, ValidEnvelope, TotalBytes;
    var i := |envelopes|;
    SameWaves(files, rules, codec, m, envelopes, all);
    assert HoldsWave(files, rules, codec, m, all[i], i + 1);
    assert codec.parseWave(codec.waveLine(all[i])) == Some(all[i]);
    TotalGrows(codec, m, all, i + 1);
    TotalWith(codec, m, envelopes, all[i]);
    assert all[..i + 1] == envelopes + [all[i]];
  }

  predicate WavePasses(rules: Rules, codec: Codec, m: Manifest, wave: int, line: string) {
    var e := codec.parseWave(line);
    && 0 < |line| <= WAVE_FILE_MAX && e.Some? && ValidEnvelope(rules, m, e.value) && e.value.wave == wave
    && codec.waveLine(e.value) == line
  }

  lemma WaveRefused(files: Files, rules: Rules, codec: Codec, m: Manifest, k: nat, envelopes: seq<Envelope>)
    requires Lawful(codec) && |envelopes| < k && HoldsWaves(files, rules, codec, m, envelopes)
    requires WaveFileName(|envelopes| + 1) in files
    requires var line := files[WaveFileName(|envelopes| + 1)];
      TotalBytes(codec, m, envelopes) + |line| > STORE_MAX_TOTAL
      || !WavePasses(rules, codec, m, |envelopes| + 1, line)
    ensures forall all :: |all| == k && HoldsWaves(files, rules, codec, m, all) ==>
                            TotalBytes(codec, m, all) > STORE_MAX_TOTAL
  {
    hide WaveFileName, ValidEnvelope, TotalBytes, HoldsWaves;
    forall all | |all| == k && HoldsWaves(files, rules, codec, m, all)
      ensures TotalBytes(codec, m, all) > STORE_MAX_TOTAL
    {
      if TotalBytes(codec, m, all) <= STORE_MAX_TOTAL {
        NextWavePasses(files, rules, codec, m, envelopes, all);
        assert false;
      }
    }
  }

  lemma WaveAdded(files: Files, rules: Rules, codec: Codec, m: Manifest, envelopes: seq<Envelope>)
    requires HoldsWaves(files, rules, codec, m, envelopes) && WaveFileName(|envelopes| + 1) in files
    requires WavePasses(rules, codec, m, |envelopes| + 1, files[WaveFileName(|envelopes| + 1)])
    ensures var line := files[WaveFileName(|envelopes| + 1)];
      && codec.parseWave(line).Some? && codec.waveLine(codec.parseWave(line).value) == line
      && HoldsWaves(files, rules, codec, m, envelopes + [codec.parseWave(line).value])
      && TotalBytes(codec, m, envelopes + [codec.parseWave(line).value]) == TotalBytes(codec, m, envelopes) + |line|
  {
    hide WaveFileName, ValidEnvelope;
    TotalWith(codec, m, envelopes, codec.parseWave(files[WaveFileName(|envelopes| + 1)]).value);
  }

  /** The loop over the waves: parse, count bytes, compare with the canonical line. */
  method ReadWaves(files: Files, rules: Rules, codec: Codec, m: Manifest, k: nat) returns (r: Option<seq<Envelope>>)
    requires Lawful(codec) && k <= STORE_MAX_WAVES && HoldsManifest(files, rules, codec, m)
    requires forall o: nat :: 1 <= o <= k ==> WaveFileName(o) in files
    ensures r.Some? ==> |r.value| == k && HoldsWaves(files, rules, codec, m, r.value)
                        && TotalBytes(codec, m, r.value) <= STORE_MAX_TOTAL
    ensures forall all :: && |all| == k && HoldsWaves(files, rules, codec, m, all)
                          && TotalBytes(codec, m, all) <= STORE_MAX_TOTAL
                          ==> r == Some(all)
  {
    var envelopes: seq<Envelope> := [];
    var total := |files[PHASE_FILE]|;
    assert TotalBytes(codec, m, []) == total;
    assert HoldsWaves(files, rules, codec, m, []);
    hide WaveOrdinal, WaveFileName, ValidEnvelope, ValidManifest, TotalBytes, HoldsWaves, HoldsManifest,
      WavePasses;
    for i := 0 to k
      invariant |envelopes| == i && HoldsWaves(files, rules, codec, m, envelopes)
      invariant total == TotalBytes(codec, m, envelopes) <= STORE_MAX_TOTAL
    {
      var line := files[WaveFileName(i + 1)];
      total := total + |line|;
      if total > STORE_MAX_TOTAL || !WavePasses(rules, codec, m, i + 1, line) {
        WaveRefused(files, rules, codec, m, k, envelopes);
        return None;
      }
      var e := codec.parseWave(line);
      WaveAdded(files, rules, codec, m, envelopes);
      envelopes := envelopes + [e.value];
    }
    r := Some(envelopes);
    forall all | |all| == k && HoldsWaves(files, rules, codec, m, all) ensures envelopes == all {
      SameWaves(files, rules, codec, m, envelopes, all);
    }
  }

  lemma ListedIsCounted(files: Files, names: seq<string>, k: nat)
    requires forall n :: n in names <==> n in files
    ensures Lists(names, Inventory(true, k)) <==> Counts(files, k)
  {
    hide WaveOrdinal, WaveFileName;
  }

  lemma WavesMakeAPrefix(files: Files, rules: Rules, codec: Codec, m: Manifest, envelopes: seq<Envelope>)
    requires HoldsWaves(files, rules, codec, m, envelopes) && |envelopes| <= m.schedule.waves
    ensures IsPrefix(rules, m, envelopes)
  {
    hide WaveFileName, ValidEnvelope;
    forall i | 0 <= i < |envelopes| ensures ValidEnvelope(rules, m, envelopes[i]) && envelopes[i].wave == i + 1 {
      assert HoldsWave(files, rules, codec, m, envelopes[i], i + 1);
    }
  }

  /** readStoreWithAdapter, on the names listed and the files read. It accepts exactly the
      stores whose total size is allowed. */
  method ReadStore(files: Files, names: seq<string>, rules: Rules, codec: Codec) returns (r: Option<Store>)
    requires Lawful(codec) && Distinct(names) && forall n :: n in names <==> n in files
    ensures r.Some? ==> Readable(files, rules, codec, r.value.manifest, r.value.envelopes)
    ensures forall m, envelopes :: Readable(files, rules, codec, m, envelopes) ==> r == Some(Store(m, envelopes))
  {
    hide WaveOrdinal, WaveFileName, ValidEnvelope, TotalBytes, Lists, Counts, HoldsWaves, ValidManifest, IsPrefix;
    var inventory := ParseStoreNames(names);
    forall k ensures Counts(files, k) <==> Lists(names, Inventory(true, k)) { ListedIsCounted(files, names, k); }
    if inventory.None? || !inventory.value.manifestPresent { return None; }
    var k := inventory.value.waves;
    CountedFiles(files, k);
    var bytes := files[PHASE_FILE];
    var parsed := codec.parseManifest(bytes);
    forall m | HoldsManifest(files, rules, codec, m) ensures parsed == Some(m) {
      assert codec.parseManifest(codec.manifestLine(m)) == Some(m);
    }
    if !(0 < |bytes| <= PHASE_FILE_MAX) || parsed.None? || !ValidManifest(rules, parsed.value)
       || codec.manifestLine(parsed.value) != bytes {
      return None;
    }
    var m := parsed.value;
    var envelopes := ReadWaves(files, rules, codec, m, k);
    if envelopes.None? { return None; }
    if |envelopes.value| <= m.schedule.waves { WavesMakeAPrefix(files, rules, codec, m, envelopes.value); }
    var progress := AssessPrefix(rules, m, envelopes.value);
    if progress.None? { return None; }
    PrefixIsBounded(rules, m, envelopes.value);
    r := Some(Store(m, envelopes.value));
    forall m', all | Readable(files, rules, codec, m', all) ensures r == Some(Store(m', all)) {
      StoresOnce(files, rules, codec, m, envelopes.value, m', all);
    }
  }
}
