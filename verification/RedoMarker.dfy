/** The redo transaction marker: its text, its writer and its validator
    (redo_write_config_records, apply_redo_plan and redo_transaction_validate in
    diagnose.sh). A marker is a sequence of lines of tab-separated fields. */
module RedoMarker {
  import opened Text
  import opened RedoPlan
  import opened Artifacts
  import opened RunConfig

  /** A file recorded for archival; derived outputs have no phase. */
  datatype Record = Record(owner: Option<Phase>, path: Path)

  datatype Transaction = Transaction(version: nat, id: string, values: seq<string>,
                                     phases: seq<Phase>, records: seq<Record>)

  function Keys(version: nat): seq<Key> {
    if version == 2 then KEYS_V2 else if version == 3 then KEYS_V3 else []
  }

  /** The value recorded for a key, or none when this marker does not carry it. */
  function Configured(t: Transaction, key: Key): Option<string> {
    Lookup(Keys(t.version), t.values, key)
  }

  predicate IsAlphanumeric(c: char) { 'A' <= c <= 'Z' || 'a' <= c <= 'z' || IsDigit(c) }

  /** redo-YYYYMMDDTHHMMSS-suffix. */
  predicate ValidId(id: string) {
    && |id| > 21 && id[..5] == "redo-" && id[13] == 'T' && id[20] == '-'
    && (forall i :: 5 <= i < 13 ==> IsDigit(id[i]))
    && (forall i :: 14 <= i < 20 ==> IsDigit(id[i]))
    && (forall i :: 21 <= i < |id| ==> IsAlphanumeric(id[i]))
  }

  // The text of a transaction.

  function Row(fields: seq<string>): string
    requires |fields| > 0
  {
    Join(fields, '\t')
  }

  function ConfigLines(keys: seq<Key>, values: seq<string>): seq<string>
    requires |values| <= |keys|
  {
    seq(|values|, i requires 0 <= i < |values| => Row(["CONFIG", keys[i].Name(), values[i]]))
  }

  function PhaseLines(phases: seq<Phase>): seq<string> {
    seq(|phases|, i requires 0 <= i < |phases| => Row(["PHASE", phases[i].Name()]))
  }

  function PathText(path: Path): string {
    if path == [] then "" else Join(path, '/')
  }

  function RecordLine(r: Record): string {
    match r.owner
    case None => Row(["DERIVED", "-", PathText(r.path)])
    case Some(phase) => Row(["ARTIFACT", phase.Name(), PathText(r.path)])
  }

  function RecordLines(records: seq<Record>): seq<string> {
    seq(|records|, i requires 0 <= i < |records| => RecordLine(records[i]))
  }

  function WriteMarker(t: Transaction): seq<string>
    requires |t.values| <= |Keys(t.version)|
  {
    [Row(["VERSION", Decimal(t.version)]), Row(["TXN", t.id])]
    + ConfigLines(Keys(t.version), t.values) + PhaseLines(t.phases) + RecordLines(t.records)
  }

  // What makes a transaction acceptable.

  predicate ConfigValid(version: nat, values: seq<string>) {
    && |values| <= |Keys(version)|
    && forall i :: 0 <= i < |values| ==> ValidValue(Keys(version)[i], values[i])
  }

  /** A version-2 marker may predate CPU_TARGET, its last key. */
  predicate ConfigComplete(version: nat, values: seq<string>) {
    |values| == |Keys(version)| || (version == 2 && |values| == 7)
  }

  ghost predicate PhasesValid(version: nat, phases: seq<Phase>) {
    RankOrdered(phases) && (PinnedConcurrent in phases ==> version == 3)
  }

  predicate RecordValid(r: Record) {
    match r.owner
    case None => IsDerived(r.path)
    case Some(phase) => Allowed(phase, r.path)
  }

  /** Derived records precede artifact records and no record repeats. */
  ghost predicate RecordsValid(records: seq<Record>) {
    && (forall i :: 0 <= i < |records| ==> RecordValid(records[i]))
    && Distinct(records)
    && (forall i, j :: 0 <= i < j < |records| && records[j].owner.None? ==> records[i].owner.None?)
  }

  predicate OwnersListed(phases: seq<Phase>, records: seq<Record>) {
    forall i :: 0 <= i < |records| ==> records[i].owner.None? || records[i].owner.value in phases
  }

  predicate ClosurePresent(version: nat, phases: seq<Phase>) {
    && (Groups in phases ==>
          && Individual in phases && Frequency in phases && Gdb in phases
          && (version == 3 ==> PinnedConcurrent in phases))
    && (Individual in phases ==> Frequency in phases && Gdb in phases)
    && (Preflight in phases ==>
          && Baseline in phases && Groups in phases && Individual in phases
          && Frequency in phases && Gdb in phases
          && (version == 3 ==> PinnedConcurrent in phases))
  }

  ghost predicate Valid(t: Transaction) {
    && 1 <= t.version <= 3 && ValidId(t.id)
    && ConfigValid(t.version, t.values) && ConfigComplete(t.version, t.values)
    && (t.version >= 2 ==> PresetConsistent(Keys(t.version), t.values))
    && |t.phases| > 0 && PhasesValid(t.version, t.phases)
    && RecordsValid(t.records) && OwnersListed(t.phases, t.records)
    && ClosurePresent(t.version, t.phases)
  }

  // The validator: one pass over the lines, section by section.

  datatype Section = InVersion | InTxn | InConfig | InPhases | InDerived | InArtifacts

  datatype Scan = Scan(section: Section, t: Transaction)

  const START: Scan := Scan(InVersion, Transaction(0, "", [], [], []))

  function PathOf(text: string): Path { Split(text, '/') }

  function ReadVersion(s: Scan, fields: seq<string>): Option<Scan> {
    if |fields| == 2 && s.section.InVersion? && fields[1] in ["1", "2", "3"]
    then Some(Scan(InTxn, s.t.(version := Value(fields[1])))) else None
  }

  function ReadTxn(s: Scan, fields: seq<string>): Option<Scan> {
    if |fields| == 2 && s.section.InTxn? && ValidId(fields[1])
    then Some(Scan(if s.t.version >= 2 then InConfig else InPhases, s.t.(id := fields[1]))) else None
  }

  function ReadConfig(s: Scan, fields: seq<string>): Option<Scan> {
    var t := s.t;
    if |fields| == 3 && s.section.InConfig? && |t.values| < |Keys(t.version)|
      && fields[1] == Keys(t.version)[|t.values|].Name()
      && ValidValue(Keys(t.version)[|t.values|], fields[2])
    then Some(s.(t := t.(values := t.values + [fields[2]]))) else None
  }

  function ReadPhase(s: Scan, fields: seq<string>): Option<Scan> {
    var t := s.t;
    if |fields| != 2 || PhaseNamed(fields[1]).None? then None
    else
      var phase := PhaseNamed(fields[1]).value;
      if (s.section.InPhases? || (s.section.InConfig? && ConfigComplete(t.version, t.values)))
        && (phase == PinnedConcurrent ==> t.version == 3)
        && (t.phases == [] || t.phases[|t.phases| - 1].Rank() < phase.Rank())
      then Some(Scan(InPhases, t.(phases := t.phases + [phase]))) else None
  }

  function ReadDerived(s: Scan, fields: seq<string>): Option<Scan> {
    if |fields| != 3 then None
    else
      var r := Record(None, PathOf(fields[2]));
      if (s.section.InPhases? || s.section.InDerived?) && s.t.phases != []
        && fields[1] == "-" && RecordValid(r) && r !in s.t.records
      then Some(Scan(InDerived, s.t.(records := s.t.records + [r]))) else None
  }

  function ReadArtifact(s: Scan, fields: seq<string>): Option<Scan> {
    if |fields| != 3 || PhaseNamed(fields[1]).None? then None
    else
      var r := Record(PhaseNamed(fields[1]), PathOf(fields[2]));
      if (s.section.InPhases? || s.section.InDerived? || s.section.InArtifacts?) && s.t.phases != []
        && RecordValid(r) && r !in s.t.records
      then Some(Scan(InArtifacts, s.t.(records := s.t.records + [r]))) else None
  }

  /** One iteration of the reading loop; none is the script's early refusal. */
  function ReadLine(s: Scan, line: string): Option<Scan> {
    var fields := Split(line, '\t');
    if fields[0] == "VERSION" then ReadVersion(s, fields)
    else if fields[0] == "TXN" then ReadTxn(s, fields)
    else if fields[0] == "CONFIG" then ReadConfig(s, fields)
    else if fields[0] == "PHASE" then ReadPhase(s, fields)
    else if fields[0] == "DERIVED" then ReadDerived(s, fields)
    else if fields[0] == "ARTIFACT" then ReadArtifact(s, fields)
    else None
  }

  function ReadLines(s: Scan, lines: seq<string>): Option<Scan>
    decreases |lines|
  {
    if lines == [] then Some(s)
    else
      match ReadLines(s, lines[..|lines| - 1])
      case None => None
      case Some(s') => ReadLine(s', lines[|lines| - 1])
  }

  /** The checks after the loop. */
  predicate Finishes(t: Transaction) {
    && t.version >= 1 && t.id != "" && |t.phases| > 0 && ConfigComplete(t.version, t.values)
    && (t.version >= 2 ==> PresetConsistent(Keys(t.version), t.values))
    && OwnersListed(t.phases, t.records) && ClosurePresent(t.version, t.phases)
  }

  function ParseMarker(lines: seq<string>): Option<Transaction> {
    match ReadLines(START, lines)
    case None => None
    case Some(s) => if Finishes(s.t) then Some(s.t) else None
  }

  method ValidateMarker(lines: seq<string>) returns (r: Option<Transaction>)
    ensures r == ParseMarker(lines)
  {
    var s := START;
    for k := 0 to |lines|
      invariant ReadLines(START, lines[..k]) == Some(s)
    {
      var next := ReadLine(s, lines[k]);
      assert lines[..k + 1][..k] == lines[..k];
      if next.None? {
        RefusalIsFinal(START, lines, k + 1);
        return None;
      }
      s := next.value;
    }
    assert lines[..|lines|] == lines;
    return if Finishes(s.t) then Some(s.t) else None;
  }

  lemma {:induction false} RefusalIsFinal(s: Scan, lines: seq<string>, k: nat)
    requires k <= |lines| && ReadLines(s, lines[..k]).None?
    ensures ReadLines(s, lines).None?
    decreases |lines|
  {
    if k == |lines| {
      assert lines[..k] == lines;
    } else {
      var front := lines[..|lines| - 1];
      assert front[..k] == lines[..k];
      RefusalIsFinal(s, front, k);
    }
  }

  // The validator accepts exactly the text of valid transactions.

  /** The lines read so far are the beginning of the transaction's text. */
  function Rendered(s: Scan): seq<string>
    requires |s.t.values| <= |Keys(s.t.version)|
  {
    match s.section
    case InVersion => []
    case InTxn => [Row(["VERSION", Decimal(s.t.version)])]
    case _ => WriteMarker(s.t)
  }

  ghost predicate ScanInvariant(s: Scan) {
    var t := s.t;
    && ConfigValid(t.version, t.values)
    && PhasesValid(t.version, t.phases) && RecordsValid(t.records)
    && (if s.section.InVersion? then t == START.t else 1 <= t.version <= 3)
    && (s.section.InTxn? ==> t == START.t.(version := t.version))
    && (!s.section.InVersion? && !s.section.InTxn? ==> ValidId(t.id))
    && (s.section.InConfig? ==> t.version >= 2 && t.phases == [])
    && (s.section.InPhases? || s.section.InConfig? ==> t.records == [])
    && (s.section.InPhases? || s.section.InDerived? || s.section.InArtifacts? ==>
          ConfigComplete(t.version, t.values))
    && (s.section.InDerived? || s.section.InArtifacts? ==> t.phases != [])
    && (s.section.InDerived? ==> forall i :: 0 <= i < |t.records| ==> t.records[i].owner.None?)
  }

  lemma VersionText(version: nat)
    requires 1 <= version <= 3
    ensures Decimal(version) == ["1", "2", "3"][version - 1] && Value(Decimal(version)) == version
  {
    DecimalRoundTrip(version);
    assert Digit(1) == '1' && Digit(2) == '2' && Digit(3) == '3';
  }

  lemma PathTextRoundTrip(text: string)
    ensures PathOf(text) != [] && PathText(PathOf(text)) == text
  {
    JoinSplit(text, '/');
  }

  lemma SafeCharIsPlain(name: string, sep: char)
    requires SafeName(name) && (sep == '/' || sep == '\t')
    ensures sep !in name
  {
  }

  lemma {:induction false} JoinAvoids(fields: seq<string>, sep: char, c: char)
    requires |fields| > 0 && c != sep && forall i :: 0 <= i < |fields| ==> c !in fields[i]
    ensures c !in Join(fields, sep)
  {
    if |fields| > 1 { JoinAvoids(fields[1..], sep, c); }
  }

  /** A record's path text has no tab and splits back into the path. */
  lemma RecordPathText(r: Record)
    requires RecordValid(r)
    ensures '\t' !in PathText(r.path) && PathOf(PathText(r.path)) == r.path
  {
    assert SafePath(r.path) by {
      if IsDerived(r.path) { assert SafeName(r.path[0]); }
    }
    forall i | 0 <= i < |r.path| ensures '/' !in r.path[i] && '\t' !in r.path[i] {
      SafeCharIsPlain(r.path[i], '/');
      SafeCharIsPlain(r.path[i], '\t');
    }
    JoinAvoids(r.path, '/', '\t');
    SplitJoin(r.path, '/');
  }

  ghost predicate Follows(s: Scan, next: Option<Scan>, fields: seq<string>)
    requires ScanInvariant(s) && |fields| > 0
  {
    next.Some? ==> ScanInvariant(next.value) && Rendered(next.value) == Rendered(s) + [Row(fields)]
  }

  lemma VersionFollows(s: Scan, fields: seq<string>)
    requires ScanInvariant(s) && |fields| > 0 && fields[0] == "VERSION"
    ensures Follows(s, ReadVersion(s, fields), fields)
  {
    hide RecordsValid, ValidId, Split;
    if ReadVersion(s, fields).Some? {
      VersionText(Value(fields[1]));
      assert fields == ["VERSION", fields[1]];
    }
  }

  lemma TxnFollows(s: Scan, fields: seq<string>)
    requires ScanInvariant(s) && |fields| > 0 && fields[0] == "TXN"
    ensures Follows(s, ReadTxn(s, fields), fields)
  {
    hide RecordsValid, ValidId, Row;
    if ReadTxn(s, fields).Some? {
      assert fields == ["TXN", fields[1]];
      assert ConfigLines(Keys(s.t.version), []) == [] && PhaseLines([]) == [] && RecordLines([]) == [];
    }
  }

  lemma ConfigFollows(s: Scan, fields: seq<string>)
    requires ScanInvariant(s) && |fields| > 0 && fields[0] == "CONFIG"
    ensures Follows(s, ReadConfig(s, fields), fields)
  {
    hide RecordsValid, PhasesValid, ValidId, ValidValue, Keys, Key.Name;
    if ReadConfig(s, fields).Some? {
      var t, t' := s.t, ReadConfig(s, fields).value.t;
      assert fields == ["CONFIG", fields[1], fields[2]];
      assert ConfigLines(Keys(t.version), t'.values) == ConfigLines(Keys(t.version), t.values) + [Row(fields)];
      assert PhaseLines(t.phases) == [] && RecordLines(t.records) == [];
    }
  }

  lemma PhaseFollows(s: Scan, fields: seq<string>)
    requires ScanInvariant(s) && |fields| > 0 && fields[0] == "PHASE"
    ensures Follows(s, ReadPhase(s, fields), fields)
  {
    hide RecordsValid, ConfigValid, ValidId, Keys, PhaseNamed;
    if ReadPhase(s, fields).Some? {
      var t, t' := s.t, ReadPhase(s, fields).value.t;
      assert fields == ["PHASE", fields[1]];
      assert PhaseLines(t'.phases) == PhaseLines(t.phases) + [Row(fields)];
      assert RecordLines(t.records) == [];
    }
  }

  lemma RecordLinesGrow(records: seq<Record>, r: Record)
    ensures RecordLines(records + [r]) == RecordLines(records) + [RecordLine(r)]
  {
    hide RecordLine;
  }

  lemma DerivedFollows(s: Scan, fields: seq<string>)
    requires ScanInvariant(s) && |fields| > 0 && fields[0] == "DERIVED"
    ensures Follows(s, ReadDerived(s, fields), fields)
  {
    hide RecordValid, ConfigValid, PhasesValid, ValidId, Keys, PathText, PathOf, RecordLines;
    if ReadDerived(s, fields).Some? {
      PathTextRoundTrip(fields[2]);
      assert fields == ["DERIVED", "-", fields[2]];
      RecordLinesGrow(s.t.records, Record(None, PathOf(fields[2])));
    }
  }

  lemma ArtifactFollows(s: Scan, fields: seq<string>)
    requires ScanInvariant(s) && |fields| > 0 && fields[0] == "ARTIFACT"
    ensures Follows(s, ReadArtifact(s, fields), fields)
  {
    hide RecordValid, ConfigValid, PhasesValid, ValidId, Keys, PhaseNamed, PathText, PathOf, RecordLines;
    if ReadArtifact(s, fields).Some? {
      PathTextRoundTrip(fields[2]);
      assert fields == ["ARTIFACT", fields[1], fields[2]];
      RecordLinesGrow(s.t.records, Record(PhaseNamed(fields[1]), PathOf(fields[2])));
    }
  }

  /** Every accepted line keeps the invariant and is the next line of the text. */
  lemma LineIsRendered(s: Scan, line: string)
    requires ScanInvariant(s)
    ensures ReadLine(s, line).Some? ==>
              && ScanInvariant(ReadLine(s, line).value)
              && Rendered(ReadLine(s, line).value) == Rendered(s) + [line]
  {
    hide ScanInvariant, Rendered, ReadVersion, ReadTxn, ReadConfig, ReadPhase, ReadDerived, ReadArtifact;
    var fields := Split(line, '\t');
    JoinSplit(line, '\t');
    if fields[0] == "VERSION" { VersionFollows(s, fields); }
    if fields[0] == "TXN" { TxnFollows(s, fields); }
    if fields[0] == "CONFIG" { ConfigFollows(s, fields); }
    if fields[0] == "PHASE" { PhaseFollows(s, fields); }
    if fields[0] == "DERIVED" { DerivedFollows(s, fields); }
    if fields[0] == "ARTIFACT" { ArtifactFollows(s, fields); }
  }

  lemma StartIsRendered()
    ensures ScanInvariant(START) && Rendered(START) == []
  {
  }

  lemma {:induction false} AcceptedLinesAreRendered(lines: seq<string>)
    requires ReadLines(START, lines).Some?
    ensures ScanInvariant(ReadLines(START, lines).value)
    ensures Rendered(ReadLines(START, lines).value) == lines
    decreases |lines|
  {
    hide ScanInvariant, Rendered, ReadLine;
    StartIsRendered();
    if lines != [] {
      var front := lines[..|lines| - 1];
      AcceptedLinesAreRendered(front);
      LineIsRendered(ReadLines(START, front).value, lines[|lines| - 1]);
      assert lines == front + [lines[|lines| - 1]];
    }
  }

  // Completeness: reading the text of a valid transaction, block by block.

  lemma ReadSnoc(lines: seq<string>, line: string)
    ensures ReadLines(START, lines + [line]) ==
            match ReadLines(START, lines) case None => None case Some(s) => ReadLine(s, line)
  {
    hide ReadLine;
    assert (lines + [line])[..|lines|] == lines;
  }

  /** A transaction whose values, phases and records are still being read. */
  function Part(t: Transaction, values: nat, phases: nat, records: nat): Transaction
    requires values <= |t.values| && phases <= |t.phases| && records <= |t.records|
  {
    t.(values := t.values[..values], phases := t.phases[..phases], records := t.records[..records])
  }

  lemma VersionLineIsRead(version: nat)
    requires 1 <= version <= 3
    ensures ReadLine(START, Row(["VERSION", Decimal(version)])) == Some(Scan(InTxn, START.t.(version := version)))
  {
    VersionText(version);
    SplitJoin(["VERSION", Decimal(version)], '\t');
    hide Split, Decimal, ReadTxn, ReadConfig, ReadPhase, ReadDerived, ReadArtifact, Value;
  }

  lemma TxnLineIsRead(s: Scan, id: string)
    requires s.section.InTxn? && ValidId(id) && s.t.version >= 1
    ensures ReadLine(s, Row(["TXN", id])) ==
            Some(Scan(if s.t.version >= 2 then InConfig else InPhases, s.t.(id := id)))
  {
    assert '\t' !in id by { IdIsPlain(id); }
    SplitJoin(["TXN", id], '\t');
    assert "TXN" != "VERSION" by { assert "TXN"[0] != "VERSION"[0]; }
    hide Split, ValidId, ReadVersion, ReadConfig, ReadPhase, ReadDerived, ReadArtifact;
  }

  lemma IdIsPlain(id: string)
    requires ValidId(id)
    ensures '\t' !in id
  {
    assert id[0] == "redo-"[0] && id[1] == "redo-"[1] && id[2] == "redo-"[2] && id[3] == "redo-"[3] && id[4] == '-';
  }

  lemma HeaderIsRead(t: Transaction)
    requires 1 <= t.version <= 3 && ValidId(t.id)
    ensures ReadLines(START, [Row(["VERSION", Decimal(t.version)]), Row(["TXN", t.id])]) ==
            Some(Scan(if t.version >= 2 then InConfig else InPhases, Part(t, 0, 0, 0)))
  {
    hide ReadLine, Row, ValidId, Decimal;
    var v, x := Row(["VERSION", Decimal(t.version)]), Row(["TXN", t.id]);
    VersionLineIsRead(t.version);
    TxnLineIsRead(Scan(InTxn, START.t.(version := t.version)), t.id);
    assert [v] == [] + [v] && [v, x] == [v] + [x];
    ReadSnoc([], v);
    ReadSnoc([v], x);
  }

  lemma ConfigLineIsRead(s: Scan, key: Key, value: string)
    requires s.section.InConfig? && |s.t.values| < |Keys(s.t.version)|
    requires key == Keys(s.t.version)[|s.t.values|] && ValidValue(key, value)
    ensures ReadLine(s, Row(["CONFIG", key.Name(), value])) == Some(s.(t := s.t.(values := s.t.values + [value])))
  {
    NamesArePlain(key);
    ValuesArePlain(key, value);
    hide Keys, ValidValue, Key.Name;
    SplitJoin(["CONFIG", key.Name(), value], '\t');
  }

  lemma KeysNeedVersion(version: nat)
    ensures |Keys(version)| > 0 ==> version >= 2
  {
  }

  lemma {:induction false} ConfigIsRead(t: Transaction, k: nat)
    requires 1 <= t.version <= 3 && ValidId(t.id) && ConfigValid(t.version, t.values) && k <= |t.values|
    ensures ReadLines(START, WriteMarker(Part(t, k, 0, 0))) ==
            Some(Scan(if t.version >= 2 then InConfig else InPhases, Part(t, k, 0, 0)))
  {
    hide ReadLine, ValidId, ValidValue, Keys, Key.Name;
    assert PhaseLines([]) == [] && RecordLines([]) == [];
    if k == 0 {
      HeaderIsRead(t);
      assert ConfigLines(Keys(t.version), []) == [];
    } else {
      ConfigIsRead(t, k - 1);
      var before, part := Part(t, k - 1, 0, 0), Part(t, k, 0, 0);
      var key, value := Keys(t.version)[k - 1], t.values[k - 1];
      var line := Row(["CONFIG", key.Name(), value]);
      assert part.values == before.values + [value];
      assert ConfigLines(Keys(t.version), part.values) == ConfigLines(Keys(t.version), before.values) + [line];
      assert WriteMarker(part) == WriteMarker(before) + [line];
      ReadSnoc(WriteMarker(before), line);
      assert t.version >= 2 by { KeysNeedVersion(t.version); }
      ConfigLineIsRead(Scan(InConfig, before), key, value);
    }
  }

  lemma PhaseLineIsRead(s: Scan, phase: Phase)
    requires s.section.InPhases? || (s.section.InConfig? && ConfigComplete(s.t.version, s.t.values))
    requires phase == PinnedConcurrent ==> s.t.version == 3
    requires s.t.phases == [] || s.t.phases[|s.t.phases| - 1].Rank() < phase.Rank()
    ensures ReadLine(s, Row(["PHASE", phase.Name()])) ==
            Some(Scan(InPhases, s.t.(phases := s.t.phases + [phase])))
  {
    PhaseNameIsPlain(phase);
    hide Keys, PhaseNamed;
    SplitJoin(["PHASE", phase.Name()], '\t');
  }

  lemma PhaseNameIsPlain(phase: Phase)
    ensures '\t' !in phase.Name() && PhaseNamed(phase.Name()) == Some(phase)
  {
  }

  lemma PhaseTextGrows(t: Transaction, phase: Phase)
    requires |t.values| <= |Keys(t.version)| && t.records == []
    ensures WriteMarker(t.(phases := t.phases + [phase])) == WriteMarker(t) + [Row(["PHASE", phase.Name()])]
  {
    hide Keys, ConfigLines, Row;
    assert PhaseLines(t.phases + [phase]) == PhaseLines(t.phases) + [Row(["PHASE", phase.Name()])];
    assert RecordLines([]) == [];
  }

  lemma {:induction false} PhasesAreRead(t: Transaction, k: nat)
    requires Valid(t) && k <= |t.phases|
    ensures ReadLines(START, WriteMarker(Part(t, |t.values|, k, 0))) ==
            Some(Scan(if t.version >= 2 && k == 0 then InConfig else InPhases, Part(t, |t.values|, k, 0)))
  {
    hide ReadLine, ValidId, ValidValue, Keys, PresetConsistent, ClosurePresent, RecordsValid, OwnersListed,
         Key.Name, Phase.Name, Row, WriteMarker;
    if k == 0 {
      ConfigIsRead(t, |t.values|);
    } else {
      PhasesAreRead(t, k - 1);
      var before, part := Part(t, |t.values|, k - 1, 0), Part(t, |t.values|, k, 0);
      var phase := t.phases[k - 1];
      assert before.values == t.values;
      assert part == before.(phases := before.phases + [phase]);
      PhaseTextGrows(before, phase);
      ReadSnoc(WriteMarker(before), Row(["PHASE", phase.Name()]));
      PhaseLineIsRead(Scan(if t.version >= 2 && k == 1 then InConfig else InPhases, before), phase);
    }
  }

  lemma RecordLineIsRead(s: Scan, r: Record)
    requires RecordValid(r) && r !in s.t.records && s.t.phases != []
    requires s.section.InPhases? || s.section.InDerived? || (s.section.InArtifacts? && r.owner.Some?)
    ensures ReadLine(s, RecordLine(r)) ==
            Some(Scan(if r.owner.None? then InDerived else InArtifacts,
                      s.t.(records := s.t.records + [r])))
  {
    RecordPathText(r);
    RecordFields(r);
    hide PhaseNamed, RecordValid, RecordLine, PathText, ReadLine;
    if r.owner.Some? { ArtifactIsDispatched(s, RecordLine(r)); } else { DerivedIsDispatched(s, RecordLine(r)); }
  }

  lemma ArtifactIsDispatched(s: Scan, line: string)
    requires Split(line, '\t')[0] == "ARTIFACT"
    ensures ReadLine(s, line) == ReadArtifact(s, Split(line, '\t'))
  {
    hide Split, ReadVersion, ReadTxn, ReadConfig, ReadPhase, ReadDerived, ReadArtifact;
  }

  lemma DerivedIsDispatched(s: Scan, line: string)
    requires Split(line, '\t')[0] == "DERIVED"
    ensures ReadLine(s, line) == ReadDerived(s, Split(line, '\t'))
  {
    hide Split, ReadVersion, ReadTxn, ReadConfig, ReadPhase, ReadDerived, ReadArtifact;
  }

  lemma RecordFields(r: Record)
    requires '\t' !in PathText(r.path)
    ensures r.owner.Some? ==>
              && Split(RecordLine(r), '\t') == ["ARTIFACT", r.owner.value.Name(), PathText(r.path)]
              && PhaseNamed(r.owner.value.Name()) == r.owner
    ensures r.owner.None? ==> Split(RecordLine(r), '\t') == ["DERIVED", "-", PathText(r.path)]
  {
    if r.owner.Some? { PhaseNameIsPlain(r.owner.value); }
    hide PhaseNamed, PathText;
    if r.owner.Some? {
      SplitJoin(["ARTIFACT", r.owner.value.Name(), PathText(r.path)], '\t');
    } else {
      SplitJoin(["DERIVED", "-", PathText(r.path)], '\t');
    }
  }

  lemma RecordTextGrows(t: Transaction, r: Record)
    requires |t.values| <= |Keys(t.version)|
    ensures WriteMarker(t.(records := t.records + [r])) == WriteMarker(t) + [RecordLine(r)]
  {
    hide Keys, ConfigLines, Row, RecordLine, PhaseLines, RecordLines;
    RecordLinesGrow(t.records, r);
  }

  lemma {:induction false} RecordsAreRead(t: Transaction, k: nat)
    requires Valid(t) && k <= |t.records|
    ensures ReadLines(START, WriteMarker(Part(t, |t.values|, |t.phases|, k))) ==
            Some(Scan(if k == 0 then InPhases else if t.records[k - 1].owner.None? then InDerived else InArtifacts,
                      Part(t, |t.values|, |t.phases|, k)))
  {
    hide ReadLine, ValidId, ValidValue, Keys, PresetConsistent, ClosurePresent, PhasesValid, OwnersListed,
         RecordValid, RecordLine, WriteMarker;
    if k == 0 {
      PhasesAreRead(t, |t.phases|);
    } else {
      RecordsAreRead(t, k - 1);
      var before, part := Part(t, |t.values|, |t.phases|, k - 1), Part(t, |t.values|, |t.phases|, k);
      var r := t.records[k - 1];
      assert part == before.(records := before.records + [r]);
      RecordTextGrows(before, r);
      ReadSnoc(WriteMarker(before), RecordLine(r));
      RecordLineIsRead(Scan(if k == 1 then InPhases else if t.records[k - 2].owner.None? then InDerived
                            else InArtifacts, before), r);
    }
  }

  /** The validator accepts a marker exactly when it is the written text of a valid
      transaction, and then returns that transaction. */
  lemma MarkerAcceptedIff(lines: seq<string>, t: Transaction)
    ensures ParseMarker(lines) == Some(t) <==> Valid(t) && lines == WriteMarker(t)
  {
    hide ParseMarker, WriteMarker, ValidId, PhasesValid, RecordsValid, OwnersListed, ClosurePresent, PresetConsistent,
         ConfigComplete;
    if ParseMarker(lines) == Some(t) { AcceptedIsWritten(lines, t); }
    if Valid(t) && lines == WriteMarker(t) { WrittenIsAccepted(t); }
  }

  lemma AcceptedIsWritten(lines: seq<string>, t: Transaction)
    requires ParseMarker(lines) == Some(t)
    ensures Valid(t) && lines == WriteMarker(t)
  {
    hide Valid, ReadLines, Finishes, Rendered, WriteMarker, ScanInvariant;
    AcceptedLinesAreRendered(lines);
    AcceptedIsValid(ReadLines(START, lines).value);
  }

  lemma WrittenIsAccepted(t: Transaction)
    requires Valid(t)
    ensures ParseMarker(WriteMarker(t)) == Some(t)
  {
    assert 1 <= t.version <= 3;
    hide Valid, ReadLines, Finishes, WriteMarker;
    RecordsAreRead(t, |t.records|);
    assert Part(t, |t.values|, |t.phases|, |t.records|) == t;
    FinishesIfValid(t);
  }

  lemma AcceptedIsValid(s: Scan)
    requires ScanInvariant(s) && Finishes(s.t)
    ensures Valid(s.t) && Rendered(s) == WriteMarker(s.t)
  {
    hide Keys, ValidId, ClosurePresent, PresetConsistent, RecordValid;
  }

  lemma FinishesIfValid(t: Transaction)
    requires Valid(t)
    ensures Finishes(t)
  {
    hide Keys, ClosurePresent, PresetConsistent, RecordValid;
  }
}
