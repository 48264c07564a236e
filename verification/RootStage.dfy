/** The staging directory of root-checks.sh: what an interrupted run leaves at the fixed stage
    path, how the next run classifies it, and how it is recovered, filled and handed off.
    A kill can come before any step; an exit or a trapped signal runs the cleanup instead. */
module RootStage {
  import opened Text

  datatype Owner = Owner(uid: nat, gid: nat)

  const ROOT := Owner(0, 0)

  /** Mode 0700, of the directory, and mode 0600, of its files. */
  const DIRECTORY_MODE := 0x1C0
  const FILE_MODE := 0x180

  type Lines = seq<string>

  datatype File = File(regular: bool, owner: Owner, mode: nat, links: nat, content: Lines)

  type Entries = map<string, File>

  /** What is at the stage path. */
  datatype Path = Nothing | NotADirectory | Directory(owner: Owner, mode: nat, entries: Entries)

  const PAYLOADS: seq<string> := ["kernel-warnings.txt", "intel-undervolt.txt", "cctk.txt", "turbostat.txt"]
  const META := "root-checks.meta"
  const OUTPUTS: seq<string> := PAYLOADS + [META]

  predicate Known(name: string) { name in OUTPUTS }

  lemma NamesDiffer()
    ensures |OUTPUTS| == 5 && |PAYLOADS| == 4 && OUTPUTS[4] == META && OUTPUTS[..4] == PAYLOADS
    ensures forall i, j :: 0 <= i < j < 5 ==> OUTPUTS[i] != OUTPUTS[j]
  {
    assert PAYLOADS[0][0] == 'k' && PAYLOADS[1][0] == 'i' && PAYLOADS[2][0] == 'c' && PAYLOADS[3][0] == 't';
    assert META[0] == 'r';
  }

  // Classification.

  datatype Class = Absent | PreHandoff | HandedOff | Unsafe

  predicate Staged(f: File, owner: Owner) {
    f.regular && f.owner == owner && f.mode == FILE_MODE && f.links == 1
  }

  ghost predicate RootsOwn(entries: Entries, user: Owner) {
    forall n :: n in entries ==> Known(n) && (Staged(entries[n], ROOT) || Staged(entries[n], user))
  }

  ghost predicate UsersOwn(entries: Entries, user: Owner) {
    (forall n :: n in entries ==> Known(n) && Staged(entries[n], user)) && forall n :: Known(n) ==> n in entries
  }

  /** What each class means. */
  ghost function Classify(path: Path, user: Owner): Class {
    match path
    case Nothing => Absent
    case NotADirectory => Unsafe
    case Directory(owner, mode, entries) =>
      if mode != DIRECTORY_MODE then Unsafe
      else if owner == ROOT && RootsOwn(entries, user) then PreHandoff
      else if owner == user && owner != ROOT && UsersOwn(entries, user) then HandedOff
      else Unsafe
  }

  /** root_checks_classify_existing_stage, its entries in the order they are listed. */
  method ClassifyExisting(path: Path, user: Owner, listing: Lines) returns (c: Class)
    requires path.Directory? ==> forall n :: n in listing <==> n in path.entries
    ensures c == Classify(path, user)
  {
    if path.Nothing? { return Absent; }
    if path.NotADirectory? { return Unsafe; }
    var expected;
    if path.owner == ROOT {
      expected := PreHandoff;
    } else if path.owner == user {
      expected := HandedOff;
    } else {
      return Unsafe;
    }
    if path.mode != DIRECTORY_MODE { return Unsafe; }
    for i := 0 to |listing|
      invariant expected == PreHandoff ==> forall k :: 0 <= k < i ==>
                  Known(listing[k]) && (Staged(path.entries[listing[k]], ROOT) || Staged(path.entries[listing[k]], user))
      invariant expected == HandedOff ==> forall k :: 0 <= k < i ==>
                  Known(listing[k]) && Staged(path.entries[listing[k]], user)
    {
      var name := listing[i];
      if !Known(name) { return Unsafe; }
      var f := path.entries[name];
      if !f.regular { return Unsafe; }
      if expected == PreHandoff {
        if !Staged(f, ROOT) && !Staged(f, user) { return Unsafe; }
      } else if !Staged(f, path.owner) {
        return Unsafe;
      }
    }
    if expected == HandedOff {
      for i := 0 to |OUTPUTS|
        invariant forall k :: 0 <= k < i ==> OUTPUTS[k] in path.entries
      {
        if OUTPUTS[i] !in path.entries {
          assert Known(OUTPUTS[i]);
          return Unsafe;
        }
      }
    }
    return expected;
  }

  // What a finished collection holds.

  /** Everything one collection is to write: the lines of each payload, and the values of the
      metadata. */
  datatype Collection = Collection(payloads: seq<Lines>, generation: string, collectedAt: string)

  predicate WellFormed(c: Collection) { |c.payloads| == |PAYLOADS| }

  function MetaLines(c: Collection, digests: Lines): Lines
    requires |digests| == 4
  {
    ["VERSION=1", "GENERATION=" + c.generation, "COLLECTED_AT=" + c.collectedAt,
     "KERNEL_WARNINGS_SHA256=" + digests[0], "INTEL_UNDERVOLT_SHA256=" + digests[1],
     "CCTK_SHA256=" + digests[2], "TURBOSTAT_SHA256=" + digests[3], "COMPLETED=1"]
  }

  predicate StartsWith(line: string, prefix: string) { |prefix| <= |line| && line[..|prefix|] == prefix }

  /** What a reader of the metadata takes for a key: the rest of the first line that starts with it. */
  function FirstValue(lines: Lines, key: string): Option<string> {
    if lines == [] then None
    else if StartsWith(lines[0], key + "=") then Some(lines[0][|key| + 1..])
    else FirstValue(lines[1..], key)
  }

  const META_KEYS: seq<string> :=
    ["VERSION", "GENERATION", "COLLECTED_AT", "KERNEL_WARNINGS_SHA256", "INTEL_UNDERVOLT_SHA256", "CCTK_SHA256",
     "TURBOSTAT_SHA256", "COMPLETED"]

  function MetaValues(c: Collection, digests: Lines): Lines
    requires |digests| == 4
  {
    ["1", c.generation, c.collectedAt, digests[0], digests[1], digests[2], digests[3], "1"]
  }

  lemma ReadsAt(lines: Lines, key: string, value: string)
    requires |lines| > 0 && lines[0] == key + "=" + value
    ensures FirstValue(lines, key) == Some(value)
  {
    assert lines[0] == (key + "=") + value;
    assert lines[0][..|key| + 1] == key + "=" && lines[0][|key| + 1..] == value;
  }

  lemma ReadsPast(lines: Lines, key: string, other: string, d: nat)
    requires |lines| > 0 && StartsWith(lines[0], other) && d < |key| && d < |other| && key[d] != other[d]
    ensures FirstValue(lines, key) == FirstValue(lines[1..], key)
  {
    assert (key + "=")[d] == key[d];
    assert lines[0][d] == other[d];
  }

  function DifferAt(a: string, b: string): nat
    requires |a| > 2 && |b| > 2
  {
    if a[0] != b[0] then 0 else if a[1] != b[1] then 1 else 2
  }

  lemma KeysDiffer(i: nat, n: nat)
    requires i < n < 8
    ensures |META_KEYS| == 8 && |META_KEYS[i]| > 2 && |META_KEYS[n]| > 2
    ensures var d := DifferAt(META_KEYS[i], META_KEYS[n]); META_KEYS[i][d] != META_KEYS[n][d]
  {
  }

  lemma {:induction false} SkipsTo(c: Collection, digests: Lines, n: nat, i: nat)
    requires |digests| == 4 && i <= n < 8
    ensures |META_KEYS| == 8 && |MetaLines(c, digests)| == 8
    ensures FirstValue(MetaLines(c, digests), META_KEYS[n]) == FirstValue(MetaLines(c, digests)[i..], META_KEYS[n])
  {
    var lines := MetaLines(c, digests);
    if i == 0 {
      assert lines[0..] == lines;
    } else {
      SkipsTo(c, digests, n, i - 1);
      KeysDiffer(i - 1, n);
      LineStarts(c, digests, i - 1);
      hide MetaLines;
      ReadsPast(lines[i - 1..], META_KEYS[n], META_KEYS[i - 1], DifferAt(META_KEYS[i - 1], META_KEYS[n]));
      assert lines[i - 1..][1..] == lines[i..];
    }
  }

  lemma LineStarts(c: Collection, digests: Lines, i: nat)
    requires |digests| == 4 && i < 8
    ensures |META_KEYS| == 8 && |MetaLines(c, digests)| == 8
    ensures MetaLines(c, digests)[i] == META_KEYS[i] + "=" + MetaValues(c, digests)[i]
    ensures StartsWith(MetaLines(c, digests)[i], META_KEYS[i])
  {
    LineText("VERSION=", "VERSION", "1");
    LineText("GENERATION=", "GENERATION", c.generation);
    LineText("COLLECTED_AT=", "COLLECTED_AT", c.collectedAt);
    LineText("KERNEL_WARNINGS_SHA256=", "KERNEL_WARNINGS_SHA256", digests[0]);
    LineText("INTEL_UNDERVOLT_SHA256=", "INTEL_UNDERVOLT_SHA256", digests[1]);
    LineText("CCTK_SHA256=", "CCTK_SHA256", digests[2]);
    LineText("TURBOSTAT_SHA256=", "TURBOSTAT_SHA256", digests[3]);
    LineText("COMPLETED=", "COMPLETED", "1");
    assert "VERSION=" + "1" == "VERSION=1" && "COMPLETED=" + "1" == "COMPLETED=1";
  }

  lemma LineText(prefix: string, key: string, value: string)
    requires prefix == key + "="
    ensures prefix + value == key + "=" + value && StartsWith(prefix + value, key)
  {
    assert (prefix + value)[..|key|] == key;
  }

  /** The metadata reads back: each payload's digest under its own key, and the rest. */
  lemma MetaReadsBack(c: Collection, digests: Lines, n: nat)
    requires |digests| == 4 && n < 8
    ensures |META_KEYS| == 8
    ensures FirstValue(MetaLines(c, digests), META_KEYS[n]) == Some(MetaValues(c, digests)[n])
  {
    SkipsTo(c, digests, n, n);
    LineStarts(c, digests, n);
    hide MetaLines, MetaValues;
    assert MetaLines(c, digests)[n..][0] == MetaLines(c, digests)[n];
    ReadsAt(MetaLines(c, digests)[n..], META_KEYS[n], MetaValues(c, digests)[n]);
  }

  function Contents(c: Collection, sha: Lines -> string): (r: seq<Lines>)
    requires WellFormed(c)
    ensures |r| == |OUTPUTS|
  {
    c.payloads + [MetaLines(c, [sha(c.payloads[0]), sha(c.payloads[1]), sha(c.payloads[2]), sha(c.payloads[3])])]
  }

  /** All five files are there with their whole content, and the metadata names the digests of
      exactly these four payloads. */
  ghost predicate Complete(entries: Entries, c: Collection, sha: Lines -> string) {
    WellFormed(c)
    && forall i :: 0 <= i < |OUTPUTS| ==> OUTPUTS[i] in entries && entries[OUTPUTS[i]].content == Contents(c, sha)[i]
  }

  /** A stage filled up to its file i, root's own. */
  ghost predicate FilledTo(path: Path, c: Collection, sha: Lines -> string, i: nat)
    requires i <= |OUTPUTS|
  {
    && WellFormed(c) && path.Directory? && path.owner == ROOT && path.mode == DIRECTORY_MODE
    && (forall n :: n in path.entries <==> n in OUTPUTS[..i])
    && (forall k :: 0 <= k < i ==> Staged(path.entries[OUTPUTS[k]], ROOT)
                                   && path.entries[OUTPUTS[k]].content == Contents(c, sha)[k])
  }

  lemma MetaIsLast(c: Collection, sha: Lines -> string, digests: Lines)
    requires WellFormed(c)
    requires digests == [sha(c.payloads[0]), sha(c.payloads[1]), sha(c.payloads[2]), sha(c.payloads[3])]
    ensures MetaLines(c, digests) == Contents(c, sha)[4]
  {
  }

  lemma StartsEmpty(path: Path, c: Collection, sha: Lines -> string)
    requires WellFormed(c) && path == Directory(ROOT, DIRECTORY_MODE, map[])
    ensures FilledTo(path, c, sha, 0)
  {
  }

  lemma PayloadsAreIn(path: Path, c: Collection, sha: Lines -> string)
    requires FilledTo(path, c, sha, 4)
    ensures path.Directory?
    ensures forall k :: 0 <= k < 4 ==> PAYLOADS[k] in path.entries && path.entries[PAYLOADS[k]].content == c.payloads[k]
  {
    NamesDiffer();
    hide Known, Staged;
    assert forall k :: 0 <= k < 4 ==> OUTPUTS[k] == PAYLOADS[k] && OUTPUTS[..4][k] == OUTPUTS[k];
  }

  ghost predicate Recoverable(path: Path, user: Owner) {
    path.Directory? && path.owner == ROOT && path.mode == DIRECTORY_MODE && RootsOwn(path.entries, user)
  }

  lemma RecoverableOwns(path: Path, user: Owner)
    requires Recoverable(path, user)
    ensures path.Directory? && RootsOwn(path.entries, user)
  {
  }

  lemma FilledIsRecoverable(path: Path, c: Collection, sha: Lines -> string, i: nat, user: Owner)
    requires i <= |OUTPUTS| && FilledTo(path, c, sha, i)
    ensures Recoverable(path, user)
  {
    forall n | n in path.entries ensures Known(n) && Staged(path.entries[n], ROOT) {
      var k :| 0 <= k < i && OUTPUTS[..i][k] == n;
      assert OUTPUTS[k] == n;
    }
  }

  /** With every known name gone nothing is left. */
  lemma Emptied(entries: Entries, user: Owner)
    requires RootsOwn(entries, user) && forall k :: 0 <= k < |OUTPUTS| ==> OUTPUTS[k] !in entries
    ensures entries == map[]
  {
    hide Staged;
    forall n | Known(n) ensures n !in entries {
      var k :| 0 <= k < |OUTPUTS| && OUTPUTS[k] == n;
    }
  }

  /** Adding file i with any content, root's own or handed over. */
  lemma AddingStaysRecoverable(path: Path, user: Owner, i: nat, f: File)
    requires Recoverable(path, user) && i < |OUTPUTS| && (Staged(f, ROOT) || Staged(f, user))
    ensures Recoverable(path.(entries := path.entries[OUTPUTS[i] := f]), user)
  {
    assert Known(OUTPUTS[i]);
    hide Known, Staged;
  }

  /** Adding file i with its whole content. */
  lemma AddingFills(path: Path, c: Collection, sha: Lines -> string, i: nat, f: File)
    requires i < |OUTPUTS| && FilledTo(path, c, sha, i) && Staged(f, ROOT) && f.content == Contents(c, sha)[i]
    ensures OUTPUTS[i] !in path.entries
    ensures FilledTo(path.(entries := path.entries[OUTPUTS[i] := f]), c, sha, i + 1)
  {
    NamesDiffer();
    hide Known, Staged, Contents;
    assert OUTPUTS[..i + 1] == OUTPUTS[..i] + [OUTPUTS[i]];
    assert forall k :: 0 <= k < i ==> OUTPUTS[..i][k] == OUTPUTS[k];
  }

  /** A complete collection whose first i files are the user's, the others root's. */
  ghost predicate HandedTo(entries: Entries, c: Collection, sha: Lines -> string, user: Owner, i: nat)
    requires i <= |OUTPUTS|
  {
    && Complete(entries, c, sha)
    && (forall k :: 0 <= k < i ==> Staged(entries[OUTPUTS[k]], user))
    && (forall k :: i <= k < |OUTPUTS| ==> Staged(entries[OUTPUTS[k]], ROOT))
  }

  lemma FilledIsHandedTo(path: Path, c: Collection, sha: Lines -> string, user: Owner)
    requires FilledTo(path, c, sha, |OUTPUTS|)
    ensures HandedTo(path.entries, c, sha, user, 0)
  {
    hide Contents, Staged;
    assert OUTPUTS[..|OUTPUTS|] == OUTPUTS;
  }

  lemma HandingOver(entries: Entries, c: Collection, sha: Lines -> string, user: Owner, i: nat)
    requires i < |OUTPUTS| && HandedTo(entries, c, sha, user, i)
    ensures OUTPUTS[i] in entries && Staged(entries[OUTPUTS[i]], ROOT)
    ensures HandedTo(entries[OUTPUTS[i] := entries[OUTPUTS[i]].(owner := user)], c, sha, user, i + 1)
  {
    NamesDiffer();
    hide Contents, Known;
  }

  lemma AllTheUsers(entries: Entries, c: Collection, sha: Lines -> string, user: Owner)
    requires RootsOwn(entries, user) && HandedTo(entries, c, sha, user, |OUTPUTS|)
    ensures UsersOwn(entries, user)
  {
    hide Staged, Contents;
    forall n | Known(n) ensures n in entries && Staged(entries[n], user) {
      var k :| 0 <= k < |OUTPUTS| && OUTPUTS[k] == n;
    }
  }

  // Runs.

  datatype Progress = Going | Stopped

  /** How a stopped run ends: killed, or by an exit or trapped signal that runs the cleanup. */
  datatype Ending = Kill | Exit

  datatype Outcome = Refused | Interrupted | Published | Kept

  class Stage {
    const user: Owner
    const sha: Lines -> string
    var path: Path
    /** Steps before this run stops; None when it is not stopped. */
    var left: Option<nat>
    /** The stages the unprivileged publisher has taken. */
    ghost var delivered: seq<Entries>
    /** The collection last begun, and those of the delivered stages. */
    ghost var collection: Collection
    ghost var collections: seq<Collection>

    /** The stage is never unsafe, a handed-off one is complete, and so was all that was delivered. */
    ghost predicate Sound()
      reads this
    {
      && user != ROOT && Classify(path, user) != Unsafe
      && (Classify(path, user) == HandedOff ==> Complete(path.entries, collection, sha))
      && DeliveredComplete()
    }

    ghost predicate DeliveredComplete()
      reads this
    {
      |delivered| == |collections|
      && forall i :: 0 <= i < |delivered| ==> Complete(delivered[i], collections[i], sha)
    }

    constructor (user: Owner, sha: Lines -> string)
      requires user != ROOT
      ensures Sound() && path == Nothing && this.user == user && this.sha == sha
    {
      this.user, this.sha, path, left, delivered, collections := user, sha, Nothing, None, [], [];
      collection := Collection([], "", "");
    }

    method Reach() returns (p: Progress)
      modifies this`left
      ensures old(left).None? ==> p == Going && left.None?
    {
      match left
      case None => return Going;
      case Some(n) =>
        if n == 0 { return Stopped; }
        left := Some(n - 1);
        return Going;
    }

    /** root_checks_stage_create. */
    method Create() returns (p: Progress)
      requires path == Nothing
      modifies this`left, this`path
      ensures p == Going ==> path == Directory(ROOT, DIRECTORY_MODE, map[])
      ensures p == Stopped ==> path == Nothing
      ensures old(left).None? ==> p == Going && left.None?
    {
      p := Reach();
      if p == Going { path := Directory(ROOT, DIRECTORY_MODE, map[]); }
    }

    /** root_checks_stage_prune_pre_handoff: on a stage classified pre-handoff no check refuses,
        and what is left is an empty stage. */
    method Prune() returns (p: Progress)
      requires Recoverable(path, user)
      modifies this`left, this`path
      ensures Recoverable(path, user)
      ensures p == Going ==> path == Directory(ROOT, DIRECTORY_MODE, map[])
      ensures old(left).None? ==> p == Going && left.None?
    {
      p := Going;
      for i := 0 to |OUTPUTS|
        invariant Recoverable(path, user) && p == Going
        invariant forall k :: 0 <= k < i ==> OUTPUTS[k] !in path.entries
        invariant old(left).None? ==> left.None?
      {
        var name := OUTPUTS[i];
        if name in path.entries {
          var f := path.entries[name];
          if !f.regular || !(Staged(f, ROOT) || Staged(f, user)) { return Stopped; }
          p := Reach();
          if p == Stopped { return; }
          path := path.(entries := path.entries - {name});
        }
      }
      Emptied(path.entries, user);
    }

    /** cleanup_stage: whatever is left, even when it is stopped too, can be recovered. */
    method Cleanup(more: Option<nat>)
      requires Recoverable(path, user)
      modifies this`left, this`path
      ensures path == Nothing || Recoverable(path, user)
      ensures more.None? ==> path == Nothing
    {
      left := more;
      for i := 0 to |OUTPUTS|
        invariant Recoverable(path, user)
        invariant forall k :: 0 <= k < i ==> OUTPUTS[k] !in path.entries
        invariant more.None? ==> left.None?
      {
        var p := Reach();
        if p == Stopped { return; }
        path := path.(entries := path.entries - {OUTPUTS[i]});
      }
      var p := Reach();
      if p == Stopped { return; }
      Emptied(path.entries, user);
      if path.entries == map[] { path := Nothing; }
    }

    /** Opening file i for writing: a file already there keeps its owner and mode. */
    method Truncate(i: nat, ghost c: Collection)
      requires i < |OUTPUTS| && FilledTo(path, c, sha, i) && Recoverable(path, user)
      modifies this`path
      ensures path == old(path).(entries := old(path).entries[OUTPUTS[i] := File(true, ROOT, FILE_MODE, 1, [])])
      ensures Recoverable(path, user)
    {
      var name := OUTPUTS[i];
      var f := if name in path.entries then path.entries[name].(content := []) else File(true, ROOT, FILE_MODE, 1, []);
      assert name !in path.entries by {
        NamesDiffer();
        hide Known, Staged, Contents;
      }
      AddingStaysRecoverable(path, user, i, File(true, ROOT, FILE_MODE, 1, []));
      path := path.(entries := path.entries[name := f]);
    }

    /** One redirected group: the file is created empty, then its lines arrive. */
    method WriteFile(i: nat, lines: Lines, ghost c: Collection) returns (p: Progress)
      requires i < |OUTPUTS| && FilledTo(path, c, sha, i) && lines == Contents(c, sha)[i]
      modifies this`left, this`path
      ensures Recoverable(path, user)
      ensures p == Going ==> FilledTo(path, c, sha, i + 1)
      ensures old(left).None? ==> p == Going && left.None?
    {
      hide Known, Contents, FilledTo, Recoverable;
      FilledIsRecoverable(path, c, sha, i, user);
      ghost var before := path;
      ghost var whole := File(true, ROOT, FILE_MODE, 1, lines);
      AddingFills(before, c, sha, i, whole);
      p := Reach();
      if p == Stopped { return; }
      assert FilledTo(path, c, sha, i);
      Truncate(i, c);
      for k := 0 to |lines|
        invariant path == before.(entries := before.entries[OUTPUTS[i] := whole.(content := lines[..k])])
        invariant Recoverable(path, user) && p == Going
        invariant old(left).None? ==> left.None?
      {
        p := Reach();
        if p == Stopped { return; }
        var f := path.entries[OUTPUTS[i]];
        AddingStaysRecoverable(path, user, i, f.(content := f.content + [lines[k]]));
        assert lines[..k + 1] == lines[..k] + [lines[k]];
        path := path.(entries := path.entries[OUTPUTS[i] := f.(content := f.content + [lines[k]])]);
      }
      assert lines[..|lines|] == lines;
    }

    /** The digest of a staged file, as sha256sum reads it back. */
    function DigestOf(name: string): string
      requires path.Directory? && name in path.entries
      reads this
    {
      sha(path.entries[name].content)
    }

    /** The collection, into an empty stage, the metadata last. */
    method Collect(c: Collection) returns (p: Progress)
      requires WellFormed(c) && path == Directory(ROOT, DIRECTORY_MODE, map[])
      modifies this`left, this`path
      ensures Recoverable(path, user)
      ensures p == Going ==> FilledTo(path, c, sha, |OUTPUTS|)
      ensures old(left).None? ==> p == Going && left.None?
    {
      NamesDiffer();
      StartsEmpty(path, c, sha);
      assert forall i :: 0 <= i < 4 ==> c.payloads[i] == Contents(c, sha)[i];
      hide FilledTo, Recoverable, Contents, Known;
      for i := 0 to |PAYLOADS|
        invariant FilledTo(path, c, sha, i)
        invariant old(left).None? ==> left.None?
      {
        p := WriteFile(i, c.payloads[i], c);
        if p == Stopped { return; }
      }
      PayloadsAreIn(path, c, sha);
      var digests := [DigestOf(PAYLOADS[0]), DigestOf(PAYLOADS[1]), DigestOf(PAYLOADS[2]), DigestOf(PAYLOADS[3])];
      MetaIsLast(c, sha, digests);
      p := WriteFile(4, MetaLines(c, digests), c);
    }

    /** The check before the handoff; on a filled stage it passes. */
    method CheckStaged() returns (ok: bool)
      requires path.Directory?
      ensures ok <==> forall i :: 0 <= i < |OUTPUTS| ==> OUTPUTS[i] in path.entries && Staged(path.entries[OUTPUTS[i]], ROOT)
    {
      for i := 0 to |OUTPUTS|
        invariant forall k :: 0 <= k < i ==> OUTPUTS[k] in path.entries && Staged(path.entries[OUTPUTS[k]], ROOT)
      {
        if OUTPUTS[i] !in path.entries || !Staged(path.entries[OUTPUTS[i]], ROOT) { return false; }
      }
      return true;
    }

    /** The files, one after another, to the invoking user. */
    method HandOffFiles(ghost c: Collection) returns (p: Progress)
      requires FilledTo(path, c, sha, |OUTPUTS|)
      modifies this`left, this`path
      ensures Recoverable(path, user)
      ensures p == Going ==> UsersOwn(path.entries, user) && HandedTo(path.entries, c, sha, user, |OUTPUTS|)
      ensures old(left).None? ==> p == Going && left.None?
    {
      hide Contents, Recoverable, Known, FilledTo, HandedTo, UsersOwn, Complete;
      FilledIsRecoverable(path, c, sha, |OUTPUTS|, user);
      RecoverableOwns(path, user);
      FilledIsHandedTo(path, c, sha, user);
      p := Going;
      for i := 0 to |OUTPUTS|
        invariant Recoverable(path, user) && path.Directory? && p == Going
        invariant HandedTo(path.entries, c, sha, user, i)
        invariant old(left).None? ==> left.None?
      {
        p := Reach();
        if p == Stopped { return; }
        RecoverableOwns(path, user);
        HandingOver(path.entries, c, sha, user, i);
        AddingStaysRecoverable(path, user, i, path.entries[OUTPUTS[i]].(owner := user));
        path := path.(entries := path.entries[OUTPUTS[i] := path.entries[OUTPUTS[i]].(owner := user)]);
      }
      RecoverableOwns(path, user);
      AllTheUsers(path.entries, c, sha, user);
    }

    /** The unprivileged publisher takes the whole stage, or leaves it. */
    method RunPublisher(accepts: bool) returns (r: Outcome)
      requires Sound() && Classify(path, user) == HandedOff
      modifies this`path, this`delivered, this`collections
      ensures Sound() && r == (if accepts then Published else Kept)
      ensures path == if accepts then Nothing else old(path)
      ensures accepts ==> delivered == old(delivered) + [old(path).entries] && collections == old(collections) + [collection]
      ensures !accepts ==> delivered == old(delivered) && collections == old(collections)
    {
      if !accepts { return Kept; }
      delivered, collections := delivered + [path.entries], collections + [collection];
      path := Nothing;
      return Published;
    }

    /** From a ready stage to the handoff: collect, check, hand off, publish. */
    method Fill(c: Collection, ending: Ending, more: Option<nat>, accepts: bool) returns (r: Outcome)
      requires WellFormed(c) && user != ROOT && DeliveredComplete()
      requires path == Directory(ROOT, DIRECTORY_MODE, map[])
      modifies this
      ensures Sound() && (r == Interrupted || r == Kept || r == Published)
      ensures old(left).None? ==> r == if accepts then Published else Kept
      ensures r == Kept ==> Classify(path, user) == HandedOff && collection == c
      ensures r == Published ==> path == Nothing && |delivered| == |old(delivered)| + 1 && collections == old(collections) + [c]
    {
      collection := c;
      var p := Collect(c);
      if p == Going {
        var ok := CheckStaged();
        assert ok;
        if !ok { p := Stopped; }
      }
      if p == Going { p := HandOffFiles(c); }
      if p == Going { p := Reach(); }
      if p == Stopped {
        if ending == Exit { Cleanup(more); }
        return Interrupted;
      }
      path := path.(owner := user);
      r := RunPublisher(accepts);
    }

    /** root_checks_main: classify, dispatch, then fill. What --fresh does with a proven orphan
        is one step. */
    method Run(listing: Lines, discard: bool, c: Collection, steps: Option<nat>, ending: Ending, more: Option<nat>,
               accepts: bool)
      returns (r: Outcome)
      requires WellFormed(c) && user != ROOT && DeliveredComplete()
      requires path.Directory? ==> forall n :: n in listing <==> n in path.entries
      requires Classify(path, user) == HandedOff ==> Complete(path.entries, collection, sha)
      modifies this
      ensures DeliveredComplete()
      ensures Classify(old(path), user) == Unsafe ==> r == Refused && path == old(path)
      ensures Classify(old(path), user) != Unsafe ==> Sound() && r != Refused
      ensures Classify(old(path), user) != Unsafe && steps.None? ==> r == if accepts then Published else Kept
      ensures r == Published ==> path == Nothing && |delivered| == |old(delivered)| + 1
      ensures r == Published && (discard || Classify(old(path), user) != HandedOff) ==> collections == old(collections) + [c]
      ensures r == Kept ==> Classify(path, user) == HandedOff
    {
      left := steps;
      var found := ClassifyExisting(path, user, listing);
      var p;
      match found {
        case Absent => p := Create();
        case PreHandoff => p := Prune();
        case HandedOff =>
          if !discard {
            r := RunPublisher(accepts);
            return;
          }
          p := Reach();
          if p == Going {
            path := Nothing;
            p := Create();
          }
        case Unsafe => return Refused;
      }
      if p == Stopped { return Interrupted; }
      r := Fill(c, ending, more, accepts);
    }
  }

  /** What find lists, in some order. */
  method ListEntries(entries: Entries) returns (listing: Lines)
    ensures forall n :: n in listing <==> n in entries
  {
    listing := [];
    var rest := entries.Keys;
    while rest != {}
      invariant forall n :: n in entries <==> n in listing || n in rest
      decreases |rest|
    {
      var n :| n in rest;
      listing := listing + [n];
      rest := rest - {n};
    }
  }

  datatype Attempt = Attempt(discard: bool, c: Collection, steps: Option<nat>, ending: Ending, more: Option<nat>,
                             accepts: bool)

  /** Any number of runs, each stopped anywhere, cleanups included: the stage is never unsafe,
      and everything handed off or delivered is one whole collection. */
  method Session(user: Owner, sha: Lines -> string, attempts: seq<Attempt>) returns (stage: Stage)
    requires user != ROOT && forall i :: 0 <= i < |attempts| ==> WellFormed(attempts[i].c)
    ensures fresh(stage) && stage.user == user && stage.sha == sha && stage.Sound()
  {
    stage := new Stage(user, sha);
    for i := 0 to |attempts|
      invariant fresh(stage) && stage.user == user && stage.sha == sha && stage.Sound()
    {
      var a := attempts[i];
      var listing := [];
      if stage.path.Directory? { listing := ListEntries(stage.path.entries); }
      var r := stage.Run(listing, a.discard, a.c, a.steps, a.ending, a.more, a.accepts);
      assert r != Refused;
    }
  }

  /** After any such session one run that is not stopped publishes, and leaves no stage. */
  method SessionThenPublish(user: Owner, sha: Lines -> string, attempts: seq<Attempt>, last: Attempt)
    returns (stage: Stage, r: Outcome)
    requires user != ROOT && forall i :: 0 <= i < |attempts| ==> WellFormed(attempts[i].c)
    requires WellFormed(last.c) && last.steps.None? && last.accepts
    ensures stage.Sound() && r == Published && stage.path == Nothing
    ensures last.discard ==> stage.collections != [] && stage.collections[|stage.collections| - 1] == last.c
  {
    stage := Session(user, sha, attempts);
    var listing := [];
    if stage.path.Directory? { listing := ListEntries(stage.path.entries); }
    r := stage.Run(listing, last.discard, last.c, None, last.ending, last.more, true);
  }
}
