/** results/meta.env as lines of KEY=value text (metadata_value, stored_cpu_target_value and
    rewrite_meta_atomic in diagnose.sh). */
module RunMetadata {
  import opened Text
  import opened RunConfig

  type Config = map<Key, string>

  const COMPLETED := "COMPLETED_PHASES"

  /** The text before the first '='; the whole line when there is none. */
  function FieldName(line: string): string { Split(line, '=')[0] }

  function Entry(name: string, value: string): string { name + "=" + value }

  predicate IsConfigName(name: string) { exists k: Key :: k.Name() == name }

  /** The values of all rows of a key, in order. */
  function Matching(lines: seq<string>, key: Key): seq<string> {
    if lines == [] then []
    else
      var name := key.Name();
      (if name + "=" <= lines[0] then [lines[0][|name| + 1..]] else []) + Matching(lines[1..], key)
  }

  /** metadata_value: the last row wins and a missing key reads as empty. */
  function MetadataValue(lines: seq<string>, key: Key): string {
    var values := Matching(lines, key);
    if values == [] then "" else values[|values| - 1]
  }

  /** stored_cpu_target_value: absent means auto, a repeated or malformed row is refused. */
  function StoredCpuTarget(lines: seq<string>): Option<string> {
    var values := Matching(lines, CpuTarget);
    if values == [] then Some("auto")
    else if |values| == 1 && ValidValue(CpuTarget, values[0]) then Some(values[0])
    else None
  }

  /** A row that the rewrite replaces. */
  predicate IsReplaced(line: string, withConfig: bool) {
    (withConfig && IsConfigName(FieldName(line))) || FieldName(line) == COMPLETED
  }

  function Kept(lines: seq<string>, withConfig: bool): seq<string> {
    if lines == [] then []
    else (if IsReplaced(lines[0], withConfig) then [] else [lines[0]]) + Kept(lines[1..], withConfig)
  }

  function WrittenKeys(schema2: bool): seq<Key> {
    if schema2 then KEYS_V3
    else [Mode, RunSchemaVersion, BaselineChildren, BaselineWaves, GroupWaves, IndividualRuns,
          GdbMaxRuns, SkipGdb, CpuTarget]
  }

  ghost predicate Total(c: Config) { forall k: Key :: k in c }

  function ConfigRows(c: Config, keys: seq<Key>): seq<string>
    requires Total(c)
  {
    if keys == [] then [] else [Entry(keys[0].Name(), c[keys[0]])] + ConfigRows(c, keys[1..])
  }

  function NewRows(config: Option<Config>): seq<string>
    requires config.Some? ==> Total(config.value)
  {
    match config
    case None => []
    case Some(c) => ConfigRows(c, WrittenKeys(c[RunSchemaVersion] == "2"))
  }

  /** The rewritten file: every unrelated row verbatim, then the new rows. */
  function Rewrite(lines: seq<string>, config: Option<Config>, completed: string): seq<string>
    requires config.Some? ==> Total(config.value)
  {
    Kept(lines, config.Some?) + NewRows(config) + [Entry(COMPLETED, completed)]
  }

  method KeepRows(lines: seq<string>, withConfig: bool) returns (out: seq<string>)
    ensures out == Kept(lines, withConfig)
  {
    out := [];
    for k := 0 to |lines|
      invariant out + Kept(lines[k..], withConfig) == Kept(lines, withConfig)
    {
      hide IsReplaced;
      assert lines[k..][1..] == lines[k + 1..];
      if !IsReplaced(lines[k], withConfig) { out := out + [lines[k]]; }
    }
  }

  method WriteRows(c: Config, keys: seq<Key>) returns (out: seq<string>)
    requires Total(c)
    ensures out == ConfigRows(c, keys)
  {
    out := [];
    for k := 0 to |keys|
      invariant out + ConfigRows(c, keys[k..]) == ConfigRows(c, keys)
    {
      hide Key.Name, Entry;
      assert keys[k..][1..] == keys[k + 1..];
      out := out + [Entry(keys[k].Name(), c[keys[k]])];
    }
  }

  method RewriteMetaAtomic(lines: seq<string>, config: Option<Config>, completed: string)
    returns (out: seq<string>)
    requires config.Some? ==> Total(config.value)
    ensures out == Rewrite(lines, config, completed)
  {
    out := KeepRows(lines, config.Some?);
    if config.Some? {
      var rows := WriteRows(config.value, WrittenKeys(config.value[RunSchemaVersion] == "2"));
      out := out + rows;
    }
    out := out + [Entry(COMPLETED, completed)];
  }

  // What a rewrite does to later reads.

  lemma {:induction false} MatchingConcat(a: seq<string>, b: seq<string>, key: Key)
    ensures Matching(a + b, key) == Matching(a, key) + Matching(b, key)
  {
    hide Key.Name;
    if a == [] {
      assert a + b == b;
    } else {
      assert (a + b)[1..] == a[1..] + b && (a + b)[0] == a[0];
      MatchingConcat(a[1..], b, key);
      var name := key.Name();
      var head := if name + "=" <= a[0] then [a[0][|name| + 1..]] else [];
      assert Matching(a, key) == head + Matching(a[1..], key);
      assert Matching(a + b, key) == head + Matching(a[1..] + b, key);
    }
  }

  lemma {:induction false} KeptConcat(a: seq<string>, b: seq<string>, withConfig: bool)
    ensures Kept(a + b, withConfig) == Kept(a, withConfig) + Kept(b, withConfig)
  {
    hide IsReplaced;
    if a == [] {
      assert a + b == b;
    } else {
      assert (a + b)[1..] == a[1..] + b;
      KeptConcat(a[1..], b, withConfig);
    }
  }

  lemma EntryField(name: string, value: string)
    requires '=' !in name
    ensures FieldName(Entry(name, value)) == name
  {
    assert Entry(name, value) == name + ['='] + value;
    SplitField(name, value, '=');
  }

  /** A row of a key is exactly a line whose field name is the key's. */
  lemma RowHasField(line: string, name: string)
    requires '=' !in name && name + "=" <= line
    ensures FieldName(line) == name
  {
    assert line == Entry(name, line[|name| + 1..]);
    EntryField(name, line[|name| + 1..]);
  }

  lemma {:induction false} KeptHasNoConfig(lines: seq<string>, key: Key)
    ensures Matching(Kept(lines, true), key) == []
  {
    NamesArePlain(key);
    hide Key.Name;
    if lines != [] {
      KeptHasNoConfig(lines[1..], key);
      if key.Name() + "=" <= lines[0] { RowHasField(lines[0], key.Name()); }
      MatchingConcat(if IsReplaced(lines[0], true) then [] else [lines[0]], Kept(lines[1..], true), key);
    }
  }

  lemma CompletedIsNoKey(key: Key)
    ensures key.Name() != COMPLETED && '=' !in COMPLETED
  {
  }

  lemma {:induction false} KeptWithoutConfig(lines: seq<string>, key: Key)
    ensures Matching(Kept(lines, false), key) == Matching(lines, key)
  {
    NamesArePlain(key);
    CompletedIsNoKey(key);
    hide Key.Name;
    if lines != [] {
      KeptWithoutConfig(lines[1..], key);
      if key.Name() + "=" <= lines[0] { RowHasField(lines[0], key.Name()); }
      MatchingConcat(if IsReplaced(lines[0], false) then [] else [lines[0]], Kept(lines[1..], false), key);
    }
  }

  lemma EntryMatches(k: Key, value: string, key: Key)
    ensures Matching([Entry(k.Name(), value)], key) == if k == key then [value] else []
  {
    NamesArePlain(k);
    NamesArePlain(key);
    if key.Name() + "=" <= Entry(k.Name(), value) {
      RowHasField(Entry(k.Name(), value), key.Name());
      EntryField(k.Name(), value);
      NamesAreDistinct(k, key);
    }
    hide Key.Name;
    assert [Entry(k.Name(), value)][1..] == [];
  }

  lemma CompletedMatchesNothing(completed: string, key: Key)
    ensures Matching([Entry(COMPLETED, completed)], key) == []
  {
    NamesArePlain(key);
    CompletedIsNoKey(key);
    hide Key.Name;
    if key.Name() + "=" <= Entry(COMPLETED, completed) {
      RowHasField(Entry(COMPLETED, completed), key.Name());
      EntryField(COMPLETED, completed);
    }
    assert [Entry(COMPLETED, completed)][1..] == [];
  }

  ghost predicate DistinctKeys(keys: seq<Key>) {
    forall i, j :: 0 <= i < j < |keys| ==> keys[i] != keys[j]
  }

  lemma {:induction false} RowsMatch(c: Config, keys: seq<Key>, key: Key)
    requires Total(c) && DistinctKeys(keys)
    ensures Matching(ConfigRows(c, keys), key) == if key in keys then [c[key]] else []
  {
    hide Key.Name, Entry;
    if keys != [] {
      RowsMatch(c, keys[1..], key);
      EntryMatches(keys[0], c[keys[0]], key);
      MatchingConcat([Entry(keys[0].Name(), c[keys[0]])], ConfigRows(c, keys[1..]), key);
    }
  }

  /** After a rewrite with a configuration, every written key reads as configured. */
  lemma RewriteSetsConfig(lines: seq<string>, c: Config, completed: string, key: Key)
    requires Total(c)
    ensures Matching(Rewrite(lines, Some(c), completed), key) ==
            if key in WrittenKeys(c[RunSchemaVersion] == "2") then [c[key]] else []
  {
    var keys := WrittenKeys(c[RunSchemaVersion] == "2");
    KeptHasNoConfig(lines, key);
    WrittenKeysAreDistinct(c[RunSchemaVersion] == "2");
    RowsMatch(c, keys, key);
    CompletedMatchesNothing(completed, key);
    hide Key.Name, Entry, Matching, Kept, ConfigRows, WrittenKeys, DistinctKeys;
    MatchingConcat(Kept(lines, true), NewRows(Some(c)), key);
    MatchingConcat(Kept(lines, true) + NewRows(Some(c)), [Entry(COMPLETED, completed)], key);
  }

  lemma WrittenKeysAreDistinct(schema2: bool)
    ensures DistinctKeys(WrittenKeys(schema2))
  {
  }

  lemma RewriteWithoutConfig(lines: seq<string>, completed: string, key: Key)
    ensures Matching(Rewrite(lines, None, completed), key) == Matching(lines, key)
  {
    KeptWithoutConfig(lines, key);
    CompletedMatchesNothing(completed, key);
    hide Key.Name, Entry, Matching, Kept;
    assert Rewrite(lines, None, completed) == Kept(lines, false) + [Entry(COMPLETED, completed)];
    MatchingConcat(Kept(lines, false), [Entry(COMPLETED, completed)], key);
  }

  lemma {:induction false} KeptTwice(lines: seq<string>, withConfig: bool)
    ensures Kept(Kept(lines, withConfig), withConfig) == Kept(lines, withConfig)
  {
    hide IsReplaced;
    if lines != [] {
      KeptTwice(lines[1..], withConfig);
      KeptConcat(if IsReplaced(lines[0], withConfig) then [] else [lines[0]], Kept(lines[1..], withConfig), withConfig);
    }
  }

  lemma {:induction false} RowsAreReplaced(c: Config, keys: seq<Key>)
    requires Total(c)
    ensures Kept(ConfigRows(c, keys), true) == []
  {
    hide Key.Name, Entry;
    if keys != [] {
      RowsAreReplaced(c, keys[1..]);
      NamesArePlain(keys[0]);
      EntryField(keys[0].Name(), c[keys[0]]);
      KeptConcat([Entry(keys[0].Name(), c[keys[0]])], ConfigRows(c, keys[1..]), true);
    }
  }

  lemma CompletedIsReplaced(completed: string, withConfig: bool)
    ensures Kept([Entry(COMPLETED, completed)], withConfig) == []
  {
    CompletedIsNoKey(Mode);
    EntryField(COMPLETED, completed);
    hide Entry, IsConfigName;
    assert [Entry(COMPLETED, completed)][1..] == [];
  }

  /** Rewriting again changes nothing. */
  lemma RewriteIsIdempotent(lines: seq<string>, config: Option<Config>, completed: string)
    requires config.Some? ==> Total(config.value)
    ensures Rewrite(Rewrite(lines, config, completed), config, completed) == Rewrite(lines, config, completed)
  {
    var last := [Entry(COMPLETED, completed)];
    KeptTwice(lines, config.Some?);
    CompletedIsReplaced(completed, config.Some?);
    assert Kept(NewRows(config), config.Some?) == [] by {
      if config.Some? { RowsAreReplaced(config.value, WrittenKeys(config.value[RunSchemaVersion] == "2")); }
    }
    hide Entry, NewRows, Kept;
    KeptConcat(Kept(lines, config.Some?), NewRows(config), config.Some?);
    KeptConcat(Kept(lines, config.Some?) + NewRows(config), last, config.Some?);
  }
}
