/** The settings-restore ledger (diag_restore_save, diag_restore_now and
    diag_recover_pending_restore in diagnose-lib/common.sh) and the experiment that relies on
    it (frequency-ab.sh). Appending one ledger line is one atomic step, as is replacing the
    ledger; a kill can come before any step. */
module RestoreLedger {
  import opened Text

  datatype Entry = Entry(path: string, value: string)

  type Settings = map<string, string>

  /** The trusted rules: which values a path may be restored to. */
  type Rules = (string, string) -> bool

  /** What one restoring write did: the value was written and read back, or it was refused or
      read back differently and the setting now holds something. */
  datatype Outcome = Restored | Lost(left: string)

  /** How the rewritten ledger was installed. */
  datatype Replacement = Replaced | NoTemporary | NoRename

  // diag_restore_entries_are_valid.

  predicate EntryIsValid(e: Entry, rules: Rules) {
    e.path != "" && e.value != "" && '\t' !in e.value && '\t' !in e.path && rules(e.path, e.value)
  }

  ghost predicate EntriesAreValid(entries: seq<Entry>, rules: Rules) {
    && |entries| > 0
    && (forall i :: 0 <= i < |entries| ==> EntryIsValid(entries[i], rules))
    && (forall i, j :: 0 <= i < j < |entries| ==> entries[i].path != entries[j].path)
  }

  method CheckEntries(entries: seq<Entry>, rules: Rules) returns (valid: bool)
    ensures valid <==> EntriesAreValid(entries, rules)
  {
    if |entries| == 0 { return false; }
    var seen: set<string> := {};
    for i := 0 to |entries|
      invariant forall k :: 0 <= k < i ==> EntryIsValid(entries[k], rules)
      invariant forall j, k :: 0 <= j < k < i ==> entries[j].path != entries[k].path
      invariant forall p :: p in seen <==> exists k :: 0 <= k < i && entries[k].path == p
    {
      if !EntryIsValid(entries[i], rules) { return false; }
      if entries[i].path in seen {
        var k :| 0 <= k < i && entries[k].path == entries[i].path;
        return false;
      }
      seen := seen + {entries[i].path};
    }
    return true;
  }

  // What restoring does.

  /** The entries whose restore failed, in their ledger order. */
  function Failed(entries: seq<Entry>, outcomes: seq<Outcome>): (kept: seq<Entry>)
    requires |entries| == |outcomes|
    ensures |kept| <= |entries|
    decreases |entries|
  {
    if entries == [] then []
    else
      var n := |entries| - 1;
      Failed(entries[..n], outcomes[..n]) + if outcomes[n].Lost? then [entries[n]] else []
  }

  /** The failed entries that reach the new ledger: printing one is not checked. */
  function Kept(entries: seq<Entry>, outcomes: seq<Outcome>, printed: seq<bool>): (kept: seq<Entry>)
    requires |entries| == |outcomes| == |printed|
    ensures |kept| <= |entries|
    decreases |entries|
  {
    if entries == [] then []
    else
      var n := |entries| - 1;
      Kept(entries[..n], outcomes[..n], printed[..n]) + if outcomes[n].Lost? && printed[n] then [entries[n]] else []
  }

  function AllPrinted(n: nat): seq<bool> { seq(n, i => true) }

  lemma {:induction false} KeptAll(entries: seq<Entry>, outcomes: seq<Outcome>)
    requires |entries| == |outcomes|
    ensures Kept(entries, outcomes, AllPrinted(|entries|)) == Failed(entries, outcomes)
    decreases |entries|
  {
    if entries != [] {
      var n := |entries| - 1;
      KeptAll(entries[..n], outcomes[..n]);
      assert AllPrinted(|entries|)[..n] == AllPrinted(n);
    }
  }

  function Written(e: Entry, o: Outcome): string { if o.Restored? then e.value else o.left }

  /** Settings once the writes have gone from the last entry back to number i. */
  function RestoredFrom(settings: Settings, entries: seq<Entry>, outcomes: seq<Outcome>, i: nat): Settings
    requires |entries| == |outcomes| && i <= |entries|
    decreases |entries| - i
  {
    if i == |entries| then settings
    else RestoredFrom(settings, entries, outcomes, i + 1)[entries[i].path := Written(entries[i], outcomes[i])]
  }

  lemma {:induction false} RestoredAt(settings: Settings, entries: seq<Entry>, outcomes: seq<Outcome>, i: nat,
                                      p: string)
    requires |entries| == |outcomes| && i <= |entries|
    requires forall j, k :: 0 <= j < k < |entries| ==> entries[j].path != entries[k].path
    ensures (forall k :: i <= k < |entries| ==> entries[k].path != p) ==>
              (p in RestoredFrom(settings, entries, outcomes, i) <==> p in settings)
              && (p in settings ==> RestoredFrom(settings, entries, outcomes, i)[p] == settings[p])
    ensures forall k :: i <= k < |entries| && entries[k].path == p ==>
              p in RestoredFrom(settings, entries, outcomes, i)
              && RestoredFrom(settings, entries, outcomes, i)[p] == Written(entries[k], outcomes[k])
    decreases |entries| - i
  {
    if i < |entries| { RestoredAt(settings, entries, outcomes, i + 1, p); }
  }

  /** Failed entries are exactly the ones that were lost. */
  lemma {:induction false} FailedMembers(entries: seq<Entry>, outcomes: seq<Outcome>, e: Entry)
    requires |entries| == |outcomes|
    ensures e in Failed(entries, outcomes) <==>
            exists k :: 0 <= k < |entries| && entries[k] == e && outcomes[k].Lost?
    decreases |entries|
  {
    if entries != [] {
      var n := |entries| - 1;
      FailedMembers(entries[..n], outcomes[..n], e);
      if exists k :: 0 <= k < n && entries[..n][k] == e && outcomes[..n][k].Lost? {
        var k :| 0 <= k < n && entries[..n][k] == e && outcomes[..n][k].Lost?;
        assert entries[k] == e && outcomes[k].Lost?;
      }
      forall k | 0 <= k < |entries| && entries[k] == e && outcomes[k].Lost? ensures e in Failed(entries, outcomes) {
        if k < n { assert entries[..n][k] == e && outcomes[..n][k].Lost?; }
      }
    }
  }

  lemma {:induction false} KeptMembers(entries: seq<Entry>, outcomes: seq<Outcome>, printed: seq<bool>, e: Entry)
    requires |entries| == |outcomes| == |printed|
    ensures e in Kept(entries, outcomes, printed) <==>
            exists k :: 0 <= k < |entries| && entries[k] == e && outcomes[k].Lost? && printed[k]
    decreases |entries|
  {
    if entries != [] {
      var n := |entries| - 1;
      KeptMembers(entries[..n], outcomes[..n], printed[..n], e);
      if k :| 0 <= k < n && entries[..n][k] == e && outcomes[..n][k].Lost? && printed[..n][k] {
        assert entries[k] == e && outcomes[k].Lost? && printed[k];
      }
      forall k | 0 <= k < |entries| && entries[k] == e && outcomes[k].Lost? && printed[k]
        ensures e in Kept(entries, outcomes, printed)
      {
        if k < n { assert entries[..n][k] == e && outcomes[..n][k].Lost? && printed[..n][k]; }
      }
    }
  }

  /** One sequence is obtained from the other by leaving entries out. */
  ghost predicate Subsequence<T>(sub: seq<T>, all: seq<T>)
    decreases |all|
  {
    if all == [] then sub == []
    else
      var last := all[|all| - 1];
      || Subsequence(sub, all[..|all| - 1])
      || (sub != [] && sub[|sub| - 1] == last && Subsequence(sub[..|sub| - 1], all[..|all| - 1]))
  }

  lemma {:induction false} KeptIsSubsequence(entries: seq<Entry>, outcomes: seq<Outcome>, printed: seq<bool>)
    requires |entries| == |outcomes| == |printed|
    ensures Subsequence(Kept(entries, outcomes, printed), entries)
    decreases |entries|
  {
    if entries != [] {
      var n := |entries| - 1;
      KeptIsSubsequence(entries[..n], outcomes[..n], printed[..n]);
      var kept := Kept(entries[..n], outcomes[..n], printed[..n]);
      if outcomes[n].Lost? && printed[n] {
        assert (kept + [entries[n]])[..|kept|] == kept;
      } else {
        assert Kept(entries, outcomes, printed) == kept;
      }
    }
  }

  lemma FailedIsSubsequence(entries: seq<Entry>, outcomes: seq<Outcome>)
    requires |entries| == |outcomes|
    ensures Subsequence(Failed(entries, outcomes), entries)
  {
    KeptAll(entries, outcomes);
    KeptIsSubsequence(entries, outcomes, AllPrinted(|entries|));
  }

  /** Distinct valid entries stay so when some are left out. */
  lemma {:induction false} SubsequenceKeepsValid(sub: seq<Entry>, all: seq<Entry>, rules: Rules)
    requires Subsequence(sub, all) && EntriesAreValid(all, rules)
    ensures sub != [] ==> EntriesAreValid(sub, rules)
    ensures forall e :: e in sub ==> e in all
    decreases |all|
  {
    var front := all[..|all| - 1];
    if Subsequence(sub, front) {
      if front == [] {
        assert sub == [];
      } else {
        SubsequenceKeepsValid(sub, front, rules);
      }
    } else {
      var rest := sub[..|sub| - 1];
      assert sub == rest + [sub[|sub| - 1]];
      if front == [] {
        assert rest == [];
      } else {
        SubsequenceKeepsValid(rest, front, rules);
        forall i | 0 <= i < |rest| ensures rest[i].path != sub[|sub| - 1].path {
          assert rest[i] in front;
        }
      }
    }
  }

  /** Settings that were never saved are the same. */
  ghost predicate SameOutside(originals: Settings, settings: Settings, settings': Settings) {
    forall p :: p !in originals ==>
      (p in settings <==> p in settings') && (p in settings ==> settings'[p] == settings[p])
  }

  /** The failures noted once the writes have gone back to number i. */
  ghost predicate Noted(failed: seq<Option<Entry>>, entries: seq<Entry>, outcomes: seq<Outcome>, i: nat)
    requires |entries| == |outcomes| == |failed|
  {
    forall k :: 0 <= k < |entries| ==> failed[k] == if k >= i && outcomes[k].Lost? then Some(entries[k]) else None
  }

  lemma NothingNoted(failed: seq<Option<Entry>>, entries: seq<Entry>, outcomes: seq<Outcome>)
    requires |entries| == |outcomes| == |failed| && forall k :: 0 <= k < |failed| ==> failed[k] == None
    ensures Noted(failed, entries, outcomes, |entries|)
  {
  }

  lemma RestoredNone(settings: Settings, entries: seq<Entry>, outcomes: seq<Outcome>)
    requires |entries| == |outcomes|
    ensures RestoredFrom(settings, entries, outcomes, |entries|) == settings
  {
  }

  lemma RestoredOne(settings: Settings, entries: seq<Entry>, outcomes: seq<Outcome>, i: nat)
    requires |entries| == |outcomes| && i < |entries|
    ensures RestoredFrom(settings, entries, outcomes, i) ==
            RestoredFrom(settings, entries, outcomes, i + 1)[entries[i].path := Written(entries[i], outcomes[i])]
  {
  }

  lemma NoteStep(failed: seq<Option<Entry>>, entries: seq<Entry>, outcomes: seq<Outcome>, i: nat)
    requires |entries| == |outcomes| == |failed| && i < |entries| && Noted(failed, entries, outcomes, i + 1)
    ensures Noted(if outcomes[i].Lost? then failed[i := Some(entries[i])] else failed, entries, outcomes, i)
  {
  }

  /** The new ledger text: the failed entries in their old order, where printing succeeds. */
  method KeepFailed(entries: seq<Entry>, outcomes: seq<Outcome>, failed: seq<Option<Entry>>, printed: seq<bool>)
    returns (kept: seq<Entry>)
    requires |entries| == |outcomes| == |failed| == |printed| && Noted(failed, entries, outcomes, 0)
    ensures kept == Kept(entries, outcomes, printed)
  {
    kept := [];
    for k := 0 to |entries|
      invariant kept == Kept(entries[..k], outcomes[..k], printed[..k])
    {
      assert entries[..k + 1][..k] == entries[..k] && outcomes[..k + 1][..k] == outcomes[..k];
      assert printed[..k + 1][..k] == printed[..k];
      if failed[k].Some? && printed[k] { kept := kept + [failed[k].value]; }
    }
    assert entries[..|entries|] == entries && outcomes[..|entries|] == outcomes && printed[..|entries|] == printed;
  }

  /** Whatever is not printed had better hold its original value by chance. */
  predicate NothingForgotten(entries: seq<Entry>, outcomes: seq<Outcome>, printed: seq<bool>)
    requires |entries| == |outcomes| == |printed|
  {
    forall k :: 0 <= k < |entries| && outcomes[k].Lost? && !printed[k] ==> outcomes[k].left == entries[k].value
  }

  ghost predicate EntriesHaveOriginals(entries: seq<Entry>, originals: Settings) {
    forall e :: e in entries ==> e.path in originals
  }

  lemma {:induction false} OutsideStays(settings: Settings, entries: seq<Entry>, originals: Settings,
                                        outcomes: seq<Outcome>, i: nat)
    requires |entries| == |outcomes| && i <= |entries| && EntriesHaveOriginals(entries, originals)
    ensures SameOutside(originals, settings, RestoredFrom(settings, entries, outcomes, i))
    decreases |entries| - i
  {
    if i < |entries| {
      OutsideStays(settings, entries, originals, outcomes, i + 1);
      assert entries[i] in entries;
    }
  }

  /** Every saved setting holds its original value or has a ledger entry with it. */
  ghost predicate Recoverable(settings: Settings, entries: seq<Entry>, originals: Settings) {
    forall p :: p in originals ==>
      p in settings && (settings[p] == originals[p] || Entry(p, originals[p]) in entries)
  }

  /** A restore that is carried through and does not print all it should. */
  predicate Forgets(armed: bool, entries: seq<Entry>, outcomes: seq<Outcome>, printed: seq<bool>,
                          replacement: Replacement, kill: Option<nat>)
    requires |entries| == |outcomes| == |printed|
  {
    armed && entries != [] && (kill.None? || kill.value > |entries|) && replacement == Replaced
    && !NothingForgotten(entries, outcomes, printed)
  }

  ghost predicate LedgerIsValid(rules: Rules, settings: Settings, entries: seq<Entry>, originals: Settings) {
    && (entries == [] || EntriesAreValid(entries, rules))
    && (forall e :: e in entries ==> e.path in originals && originals[e.path] == e.value)
    && Recoverable(settings, entries, originals)
  }

  // The ledger object.

  datatype Result = Ok | Refused | Killed

  class Ledger {
    const rules: Rules
    var settings: Settings
    var entries: seq<Entry>
    var armed: bool
    /** The value every setting ever saved had before this ledger first touched it. */
    ghost var originals: Settings

    /** A saved setting that does not hold its original value has a ledger entry with that
        value; every ledger entry holds an original value. */
    ghost predicate Valid()
      reads this
    {
      LedgerIsValid(rules, settings, entries, originals)
    }

    constructor (rules: Rules, settings: Settings)
      ensures Valid() && this.settings == settings && this.rules == rules
      ensures entries == [] && !armed && originals == map[]
    {
      this.rules, this.settings, entries, armed, originals := rules, settings, [], false, map[];
    }

    /** diag_restore_save; the value becomes an original unless the path already has one. */
    method Save(path: string) returns (r: Result)
      requires Valid()
      modifies this
      ensures Valid() && settings == old(settings)
      ensures r == Ok <==> path in settings && EntriesAreValid(old(entries) + [Entry(path, settings[path])], rules)
      ensures r == Ok ==> entries == old(entries) + [Entry(path, settings[path])] && armed
      ensures r == Ok ==> originals == old(originals)[path := settings[path]]
      ensures r != Ok ==> entries == old(entries) && armed == old(armed) && originals == old(originals)
      ensures forall p :: p in old(originals) ==> p in originals && originals[p] == old(originals)[p]
    {
      if path !in settings { return Refused; }
      var candidate := entries + [Entry(path, settings[path])];
      var valid := CheckEntries(candidate, rules);
      if !valid { return Refused; }
      forall e | e in entries ensures e.path != path {
        var k :| 0 <= k < |entries| && entries[k] == e;
        assert candidate[k].path != candidate[|entries|].path;
      }
      entries, armed, originals := candidate, true, originals[path := settings[path]];
      return Ok;
    }

    /** The experiment changes a setting it has saved. */
    method WriteSetting(path: string, value: string)
      requires Valid() && exists e :: e in entries && e.path == path
      modifies this`settings
      ensures Valid() && settings == old(settings)[path := value]
    {
      settings := settings[path := value];
    }

    /** A new process: only the ledger and the settings are left. */
    method Crash()
      requires Valid()
      modifies this`armed
      ensures Valid() && !armed
    {
      armed := false;
    }

    /** One restoring write. */
    method WriteOne(e: Entry, o: Outcome)
      requires Valid() && e in entries
      modifies this`settings
      ensures Valid() && settings == old(settings)[e.path := Written(e, o)] && e.path in originals
    {
      WriteKeepsValid(settings, entries, originals, e, o, rules);
      settings := settings[e.path := Written(e, o)];
    }

    /** The write for entry number i, and what is noted of it. */
    method WriteNumber(i: nat, outcomes: seq<Outcome>, before: seq<Option<Entry>>, ghost was: Settings)
      returns (failed: seq<Option<Entry>>)
      requires Valid() && i < |entries| == |outcomes| == |before| && Noted(before, entries, outcomes, i + 1)
      requires settings == RestoredFrom(was, entries, outcomes, i + 1)
      modifies this`settings
      ensures Valid() && |failed| == |entries| && Noted(failed, entries, outcomes, i)
      ensures settings == RestoredFrom(was, entries, outcomes, i)
    {
      hide LedgerIsValid, Noted, RestoredFrom, Written;
      RestoredOne(was, entries, outcomes, i);
      NoteStep(before, entries, outcomes, i);
      WriteOne(entries[i], outcomes[i]);
      failed := if outcomes[i].Lost? then before[i := Some(entries[i])] else before;
    }

    /** The writes of a restore, from the last entry back, until killed. */
    method WriteBack(outcomes: seq<Outcome>, kill: Option<nat>) returns (failed: seq<Option<Entry>>, done: bool)
      requires Valid() && |outcomes| == |entries|
      modifies this`settings
      ensures Valid() && SameOutside(originals, old(settings), settings)
      ensures done ==> settings == RestoredFrom(old(settings), entries, outcomes, 0)
      ensures done ==> |failed| == |entries| && Noted(failed, entries, outcomes, 0)
      ensures done <==> kill.None? || kill.value > |entries|
    {
      assert EntriesHaveOriginals(entries, originals);
      hide EntriesAreValid, Valid, LedgerIsValid, Recoverable, Written, EntriesHaveOriginals, SameOutside, Noted,
           RestoredFrom;
      ghost var was := settings;
      var n := |entries|;
      failed := seq(n, i => None);
      NothingNoted(failed, entries, outcomes);
      RestoredNone(was, entries, outcomes);
      var i := n;
      while i > 0
        invariant 0 <= i <= n == |entries| && |failed| == n
        invariant Valid() && entries == old(entries)
        invariant settings == RestoredFrom(was, entries, outcomes, i)
        invariant Noted(failed, entries, outcomes, i)
        invariant kill.Some? ==> kill.value >= n - i
      {
        if kill.Some? && kill.value == n - i {
          OutsideStays(was, entries, originals, outcomes, i);
          return failed, false;
        }
        i := i - 1;
        failed := WriteNumber(i, outcomes, failed, was);
      }
      OutsideStays(was, entries, originals, outcomes, 0);
      return failed, kill.None? || kill.value != n;
    }

    /** diag_restore_now, killed after some of its writes when kill says so. Printing into the
        new ledger may fail entry by entry, and the result does not say so. */
    method Restore(outcomes: seq<Outcome>, printed: seq<bool>, replacement: Replacement, kill: Option<nat>)
      returns (r: Result)
      requires Valid() && |outcomes| == |printed| == |entries|
      modifies this`settings, this`entries, this`armed
      ensures SameOutside(originals, old(settings), settings)
      ensures !old(armed) ==> r == Ok && settings == old(settings) && entries == old(entries) && !armed
      ensures r == Killed <==> old(armed) && old(entries) != [] && kill.Some? && kill.value <= |old(entries)|
      ensures r == Killed ==> entries == old(entries) && !armed
      ensures old(armed) && r != Killed ==>
                && settings == RestoredFrom(old(settings), old(entries), outcomes, 0)
                && entries == (if replacement == Replaced then Kept(old(entries), outcomes, printed) else old(entries))
                && (r == Ok <==> replacement == Replaced && old(entries) != [] && Failed(old(entries), outcomes) == [])
                && armed == (r != Ok)
      ensures Valid() <==> !Forgets(old(armed), old(entries), outcomes, printed, replacement, kill)
      ensures Recoverable(settings, entries, originals) <==> Valid()
    {
      if !armed { return Ok; }
      var valid := CheckEntries(entries, rules);
      if !valid { return Refused; }
      ghost var was := settings;
      hide EntriesAreValid, RestoredFrom, Failed, Kept, NothingForgotten, SameOutside, Noted, Recoverable;
      assert entries != [];
      var failed, done := WriteBack(outcomes, kill);
      if !done {
        armed := false;
        return Killed;
      }
      if replacement != Replaced { return Refused; }
      r := Replace(outcomes, printed, failed, was);
    }

    /** The new ledger is printed and takes the old one's place. */
    method Replace(outcomes: seq<Outcome>, printed: seq<bool>, failed: seq<Option<Entry>>, ghost was: Settings)
      returns (r: Result)
      requires Valid() && entries != [] && |outcomes| == |printed| == |failed| == |entries|
      requires Noted(failed, entries, outcomes, 0) && Recoverable(was, entries, originals)
      requires settings == RestoredFrom(was, entries, outcomes, 0)
      modifies this`entries, this`armed
      ensures entries == Kept(old(entries), outcomes, printed) && r != Killed && armed == (r != Ok)
      ensures r == Ok <==> Failed(old(entries), outcomes) == []
      ensures Valid() <==> NothingForgotten(old(entries), outcomes, printed)
      ensures Recoverable(settings, entries, originals) <==> Valid()
    {
      KeptIsValidIff(was, entries, originals, outcomes, printed, rules);
      var kept := KeepFailed(entries, outcomes, failed, printed);
      FailedIsEmptyIff(entries, outcomes);
      NotedIffLost(failed, entries, outcomes);
      hide LedgerIsValid, Recoverable, RestoredFrom, Failed, Kept, NothingForgotten, Noted;
      var failing := exists k :: 0 <= k < |failed| && failed[k].Some?;
      entries := kept;
      armed := failing;
      return if failing then Refused else Ok;
    }

    /** diag_restore_now where everything it prints is written. */
    method RestoreNow(outcomes: seq<Outcome>, replacement: Replacement, kill: Option<nat>) returns (r: Result)
      requires Valid() && |outcomes| == |entries|
      modifies this`settings, this`entries, this`armed
      ensures Valid() && SameOutside(originals, old(settings), settings)
      ensures !old(armed) ==> r == Ok && settings == old(settings) && entries == old(entries)
      ensures r == Killed <==> old(armed) && old(entries) != [] && kill.Some? && kill.value <= |old(entries)|
      ensures r == Killed ==> entries == old(entries) && !armed
      ensures old(armed) && r != Killed ==>
                && settings == RestoredFrom(old(settings), old(entries), outcomes, 0)
                && entries == (if replacement == Replaced then Failed(old(entries), outcomes) else old(entries))
                && (r == Ok <==> replacement == Replaced && old(entries) != [] && Failed(old(entries), outcomes) == [])
                && armed == (r != Ok)
    {
      KeptAll(entries, outcomes);
      hide Kept, Failed, RestoredFrom, EntriesAreValid, SameOutside;
      r := Restore(outcomes, AllPrinted(|entries|), replacement, kill);
    }

    /** diag_recover_pending_restore. */
    method Recover(outcomes: seq<Outcome>, printed: seq<bool>, replacement: Replacement, kill: Option<nat>)
      returns (r: Result)
      requires entries != [] ==> Valid()
      requires |outcomes| == |printed| == |entries|
      modifies this`settings, this`entries, this`armed
      ensures old(Valid()) ==> SameOutside(originals, old(settings), settings)
      ensures old(Valid()) ==> (Valid() <==> !Forgets(true, old(entries), outcomes, printed, replacement, kill))
      ensures old(Valid()) ==> (Recoverable(settings, entries, originals) <==> Valid())
      ensures old(Valid()) && r == Ok ==>
                Valid() && entries == [] && forall p :: p in originals ==> settings[p] == originals[p]
      ensures old(entries) == [] ==> r == Ok && entries == [] && settings == old(settings)
    {
      if entries == [] { return Ok; }
      armed := true;
      assert Valid();
      NothingLostNothingForgotten(entries, outcomes, printed);
      NothingFailedNothingKept(entries, outcomes, printed);
      hide LedgerIsValid, RestoredFrom, Failed, Kept, SameOutside;
      r := Restore(outcomes, printed, replacement, kill);
      if r == Ok { EmptyMeansRestored(rules, settings, entries, originals); }
    }
  }

  lemma NothingLostNothingForgotten(entries: seq<Entry>, outcomes: seq<Outcome>, printed: seq<bool>)
    requires |entries| == |outcomes| == |printed|
    ensures Failed(entries, outcomes) == [] ==> NothingForgotten(entries, outcomes, printed)
  {
    FailedIsEmptyIff(entries, outcomes);
    hide Failed;
  }

  lemma NothingFailedNothingKept(entries: seq<Entry>, outcomes: seq<Outcome>, printed: seq<bool>)
    requires |entries| == |outcomes| == |printed|
    ensures Failed(entries, outcomes) == [] ==> Kept(entries, outcomes, printed) == []
  {
    FailedIsEmptyIff(entries, outcomes);
    hide Failed;
    if Kept(entries, outcomes, printed) != [] {
      KeptMembers(entries, outcomes, printed, Kept(entries, outcomes, printed)[0]);
    }
  }

  lemma EmptyMeansRestored(rules: Rules, settings: Settings, entries: seq<Entry>, originals: Settings)
    requires LedgerIsValid(rules, settings, entries, originals) && entries == []
    ensures forall p :: p in originals ==> p in settings && settings[p] == originals[p]
  {
  }

  lemma WriteKeepsValid(settings: Settings, entries: seq<Entry>, originals: Settings, e: Entry, o: Outcome,
                        rules: Rules)
    requires e in entries && (forall e :: e in entries ==> e.path in originals && originals[e.path] == e.value)
    requires Recoverable(settings, entries, originals)
    ensures Recoverable(settings[e.path := Written(e, o)], entries, originals)
  {
    assert Entry(e.path, originals[e.path]) == e;
  }

  /** After all writes, each setting is restored or among the kept entries exactly if nothing
      is forgotten. */
  lemma ReplacingKeepsValidIff(settings: Settings, entries: seq<Entry>, originals: Settings, outcomes: seq<Outcome>,
                               printed: seq<bool>, rules: Rules)
    requires |outcomes| == |entries| == |printed| && EntriesAreValid(entries, rules)
    requires forall e :: e in entries ==> e.path in originals && originals[e.path] == e.value
    requires Recoverable(settings, entries, originals)
    ensures Recoverable(RestoredFrom(settings, entries, outcomes, 0), Kept(entries, outcomes, printed), originals)
            <==> NothingForgotten(entries, outcomes, printed)
  {
    hide EntryIsValid;
    var s := RestoredFrom(settings, entries, outcomes, 0);
    forall p | p in originals
      ensures p in s
      ensures NothingForgotten(entries, outcomes, printed) ==>
                s[p] == originals[p] || Entry(p, originals[p]) in Kept(entries, outcomes, printed)
    {
      RestoredAt(settings, entries, outcomes, 0, p);
      if k :| 0 <= k < |entries| && entries[k].path == p {
        assert entries[k] in entries && entries[k] == Entry(p, originals[p]);
        KeptMembers(entries, outcomes, printed, entries[k]);
      } else {
        assert Entry(p, originals[p]) !in entries;
      }
    }
    forall k | 0 <= k < |entries| && outcomes[k].Lost? && !printed[k] && outcomes[k].left != entries[k].value
      ensures entries[k].path in originals && s[entries[k].path] != originals[entries[k].path]
      ensures Entry(entries[k].path, originals[entries[k].path]) !in Kept(entries, outcomes, printed)
    {
      assert entries[k] in entries;
      RestoredAt(settings, entries, outcomes, 0, entries[k].path);
      KeptMembers(entries, outcomes, printed, entries[k]);
    }
  }

  lemma KeptIsValidIff(settings: Settings, entries: seq<Entry>, originals: Settings, outcomes: seq<Outcome>,
                       printed: seq<bool>, rules: Rules)
    requires |outcomes| == |entries| == |printed| && EntriesAreValid(entries, rules)
    requires forall e :: e in entries ==> e.path in originals && originals[e.path] == e.value
    requires Recoverable(settings, entries, originals)
    ensures LedgerIsValid(rules, RestoredFrom(settings, entries, outcomes, 0), Kept(entries, outcomes, printed),
                          originals)
            <==> NothingForgotten(entries, outcomes, printed)
    ensures Recoverable(RestoredFrom(settings, entries, outcomes, 0), Kept(entries, outcomes, printed), originals)
            <==> NothingForgotten(entries, outcomes, printed)
  {
    hide EntriesAreValid, Recoverable, RestoredFrom, Kept, NothingForgotten, Subsequence;
    ReplacingKeepsValidIff(settings, entries, originals, outcomes, printed, rules);
    KeptIsSubsequence(entries, outcomes, printed);
    SubsequenceKeepsValid(Kept(entries, outcomes, printed), entries, rules);
  }

  lemma {:induction false} FailedIsEmptyIff(entries: seq<Entry>, outcomes: seq<Outcome>)
    requires |entries| == |outcomes|
    ensures Failed(entries, outcomes) == [] <==> forall k :: 0 <= k < |entries| ==> outcomes[k].Restored?
  {
    forall k | 0 <= k < |entries| ensures outcomes[k].Lost? ==> entries[k] in Failed(entries, outcomes) {
      FailedMembers(entries, outcomes, entries[k]);
    }
    if Failed(entries, outcomes) != [] { FailedMembers(entries, outcomes, Failed(entries, outcomes)[0]); }
  }

  lemma NotedIffLost(failed: seq<Option<Entry>>, entries: seq<Entry>, outcomes: seq<Outcome>)
    requires |entries| == |outcomes| == |failed| && Noted(failed, entries, outcomes, 0)
    ensures (exists k :: 0 <= k < |failed| && failed[k].Some?)
       <==> !(forall k :: 0 <= k < |entries| ==> outcomes[k].Restored?)
  {
  }

  /** After all writes, a setting that is not restored is among the failed entries. */
  lemma ReplacingKeepsValid(settings: Settings, entries: seq<Entry>, originals: Settings, outcomes: seq<Outcome>,
                            rules: Rules)
    requires |outcomes| == |entries| && EntriesAreValid(entries, rules)
    requires forall e :: e in entries ==> e.path in originals && originals[e.path] == e.value
    requires Recoverable(settings, entries, originals)
    ensures Recoverable(RestoredFrom(settings, entries, outcomes, 0), Failed(entries, outcomes), originals)
  {
    hide EntriesAreValid, RestoredFrom, Kept, Failed;
    KeptAll(entries, outcomes);
    ReplacingKeepsValidIff(settings, entries, originals, outcomes, AllPrinted(|entries|), rules);
  }

  // Whole sessions.

  /** What a process using the ledger may do. Writes to settings that are not saved do not
      happen; a restore does nothing unless the ledger is armed. */
  datatype Op = SaveOp(path: string) | WriteOp(path: string, value: string) | CrashOp
    | RestoreOp(outcome: nat -> Outcome, prints: nat -> bool, replacement: Replacement, kill: Option<nat>)
    | RecoverOp(outcome: nat -> Outcome, prints: nat -> bool, replacement: Replacement, kill: Option<nat>)

  function Outcomes(n: nat, outcome: nat -> Outcome): (r: seq<Outcome>)
    ensures |r| == n
  {
    seq(n, i requires 0 <= i < n => outcome(i))
  }

  function Prints(n: nat, prints: nat -> bool): (r: seq<bool>)
    ensures |r| == n
  {
    seq(n, i requires 0 <= i < n => prints(i))
  }

  /** An operation that forgets a setting. */
  predicate OpForgets(op: Op, entries: seq<Entry>, armed: bool) {
    match op
    case RestoreOp(outcome, prints, replacement, kill) =>
      Forgets(armed, entries, Outcomes(|entries|, outcome), Prints(|entries|, prints), replacement, kill)
    case RecoverOp(outcome, prints, replacement, kill) =>
      Forgets(true, entries, Outcomes(|entries|, outcome), Prints(|entries|, prints), replacement, kill)
    case _ => false
  }

  /** Every print of the operation succeeds. */
  ghost predicate PrintsAll(op: Op) { op.RestoreOp? || op.RecoverOp? ==> forall k :: op.prints(k) }

  lemma PrintsAllForgetsNothing(op: Op, entries: seq<Entry>, armed: bool)
    requires PrintsAll(op)
    ensures !OpForgets(op, entries, armed)
  {
  }

  /** The law of the ledger: whatever differs from its initial value can be restored to it. */
  ghost predicate CanBeRestored(initial: Settings, settings: Settings, entries: seq<Entry>) {
    settings.Keys == initial.Keys
    && forall p :: p in initial && settings[p] != initial[p] ==> Entry(p, initial[p]) in entries
  }

  ghost predicate Follows(l: Ledger, initial: Settings)
    reads l
  {
    && l.Valid() && l.settings.Keys == initial.Keys
    && (forall p :: p in l.originals ==> p in initial && l.originals[p] == initial[p])
    && (forall p :: p in initial && p !in l.originals ==> l.settings[p] == initial[p])
  }

  lemma UnrecoverableBreaksLaw(initial: Settings, settings: Settings, entries: seq<Entry>, originals: Settings)
    requires forall p :: p in originals ==> p in initial && originals[p] == initial[p]
    requires !Recoverable(settings, entries, originals)
    ensures !CanBeRestored(initial, settings, entries)
  {
  }

  /** One operation keeps the law, or forgets a setting and thereby breaks it. */
  method Perform(l: Ledger, op: Op, ghost initial: Settings) returns (forgot: bool)
    requires Follows(l, initial)
    modifies l
    ensures forgot == old(OpForgets(op, l.entries, l.armed))
    ensures !forgot ==> Follows(l, initial)
    ensures CanBeRestored(initial, l.settings, l.entries) <==> !forgot
  {
    hide Forgets, SameOutside, LedgerIsValid, Recoverable, Outcomes, Prints;
    forgot := OpForgets(op, l.entries, l.armed);
    match op
    case SaveOp(path) =>
      SaveFollows(l, path, initial);
    case WriteOp(path, value) =>
      if exists k :: 0 <= k < |l.entries| && l.entries[k].path == path {
        assert exists e :: e in l.entries && e.path == path by {
          var k :| 0 <= k < |l.entries| && l.entries[k].path == path;
          assert l.entries[k] in l.entries;
        }
        WriteFollows(l, path, value, initial);
      } else {
        FollowsMeansLaw(l, initial);
      }
    case CrashOp =>
      l.Crash();
      FollowsMeansLaw(l, initial);
    case RestoreOp(outcome, prints, replacement, kill) =>
      var n := |l.entries|;
      ghost var was := l.settings;
      var _ := l.Restore(Outcomes(n, outcome), Prints(n, prints), replacement, kill);
      AfterRestore(l, was, initial);
    case RecoverOp(outcome, prints, replacement, kill) =>
      var n := |l.entries|;
      ghost var was := l.settings;
      var _ := l.Recover(Outcomes(n, outcome), Prints(n, prints), replacement, kill);
      AfterRestore(l, was, initial);
  }

  lemma KeysStay(l: Ledger, initial: Settings)
    requires l.Valid() && (forall p :: p in l.originals ==> p in initial)
    requires forall p :: p !in l.originals ==> (p in l.settings <==> p in initial)
    ensures l.settings.Keys == initial.Keys
  {
  }

  lemma FollowsMeansLaw(l: Ledger, initial: Settings)
    requires Follows(l, initial)
    ensures CanBeRestored(initial, l.settings, l.entries)
  {
  }

  /** What a restore or a recovery leaves, whether it forgot something or not. */
  lemma AfterRestore(l: Ledger, was: Settings, initial: Settings)
    requires was.Keys == initial.Keys && SameOutside(l.originals, was, l.settings)
    requires forall p :: p in l.originals ==> p in initial && l.originals[p] == initial[p]
    requires forall p :: p in initial && p !in l.originals ==> was[p] == initial[p]
    requires l.Valid() <==> Recoverable(l.settings, l.entries, l.originals)
    ensures l.Valid() ==> Follows(l, initial)
    ensures CanBeRestored(initial, l.settings, l.entries) <==> l.Valid()
  {
    if l.Valid() {
      KeysStay(l, initial);
      FollowsMeansLaw(l, initial);
    } else {
      UnrecoverableBreaksLaw(initial, l.settings, l.entries, l.originals);
    }
  }

  method SaveFollows(l: Ledger, path: string, ghost initial: Settings)
    requires Follows(l, initial)
    modifies l
    ensures Follows(l, initial) && CanBeRestored(initial, l.settings, l.entries)
  {
    var _ := l.Save(path);
    FollowsMeansLaw(l, initial);
  }

  method WriteFollows(l: Ledger, path: string, value: string, ghost initial: Settings)
    requires Follows(l, initial) && exists e :: e in l.entries && e.path == path
    modifies l
    ensures Follows(l, initial) && CanBeRestored(initial, l.settings, l.entries)
  {
    l.WriteSetting(path, value);
    FollowsMeansLaw(l, initial);
  }

  /** Over every sequence of saves, writes, restores, kills and recoveries, up to the first that
      forgets a setting: the law holds exactly as long as none does. */
  method Session(rules: Rules, initial: Settings, ops: seq<Op>) returns (l: Ledger, forgot: bool, ghost performed: nat)
    ensures fresh(l) && performed <= |ops|
    ensures CanBeRestored(initial, l.settings, l.entries) <==> !forgot
    ensures !forgot ==> performed == |ops| && Follows(l, initial)
    ensures forgot ==> performed > 0 && !PrintsAll(ops[performed - 1])
  {
    l := new Ledger(rules, initial);
    forgot, performed := false, 0;
    FollowsMeansLaw(l, initial);
    for k := 0 to |ops|
      invariant fresh(l) && Follows(l, initial) && CanBeRestored(initial, l.settings, l.entries)
      invariant !forgot && performed == k
    {
      ghost var entries, armed := l.entries, l.armed;
      forgot := Perform(l, ops[k], initial);
      performed := k + 1;
      if forgot {
        if PrintsAll(ops[k]) { PrintsAllForgetsNothing(ops[k], entries, armed); }
        return;
      }
    }
  }

  /** A recovery that succeeds after any session that forgot nothing, however it ended, leaves an
      empty ledger and every setting at its initial value. */
  method RecoverSession(rules: Rules, initial: Settings, ops: seq<Op>, outcome: nat -> Outcome, prints: nat -> bool,
                        replacement: Replacement, kill: Option<nat>)
    returns (l: Ledger, r: Result, forgot: bool)
    ensures (forall i :: 0 <= i < |ops| ==> PrintsAll(ops[i])) ==> !forgot
    ensures !forgot && (forall k :: prints(k)) ==> CanBeRestored(initial, l.settings, l.entries)
    ensures !forgot && r == Ok ==> l.entries == [] && l.settings == initial
  {
    ghost var performed;
    l, forgot, performed := Session(rules, initial, ops);
    if forgot { return l, Refused, true; }
    l.Crash();
    hide Forgets, SameOutside, LedgerIsValid, Recoverable, Outcomes, Prints;
    var n := |l.entries|;
    ghost var was, entries := l.settings, l.entries;
    r := l.Recover(Outcomes(n, outcome), Prints(n, prints), replacement, kill);
    AfterRestore(l, was, initial);
    if forall k :: prints(k) {
      PrintsAllForgetsNothing(RecoverOp(outcome, prints, replacement, kill), entries, true);
    }
  }

  /** The turbo legs and the optional cap leg of frequency-ab.sh; the process may be killed
      between any two of these. */
  function Experiment(noTurbo: string, saved: string, cap: Option<Entry>, outcome: nat -> Outcome,
                      prints: nat -> bool, replacement: Replacement): seq<Op>
  {
    [SaveOp(noTurbo), WriteOp(noTurbo, "1"), WriteOp(noTurbo, saved), RestoreOp(outcome, prints, replacement, None)]
    + match cap
      case None => []
      case Some(e) => [SaveOp(e.path), WriteOp(e.path, e.value), RestoreOp(outcome, prints, replacement, None)]
  }

  method KilledExperiment(rules: Rules, initial: Settings, noTurbo: string, saved: string, cap: Option<Entry>,
                          outcome: nat -> Outcome, prints: nat -> bool, replacement: Replacement, stop: nat,
                          again: nat -> Outcome)
    returns (l: Ledger, r: Result, forgot: bool)
    ensures (forall k :: prints(k)) ==> !forgot
    ensures !forgot ==> CanBeRestored(initial, l.settings, l.entries)
    ensures !forgot && r == Ok ==> l.entries == [] && l.settings == initial
  {
    var ops := Experiment(noTurbo, saved, cap, outcome, prints, replacement);
    var run := if stop < |ops| then ops[..stop] else ops;
    l, r, forgot := RecoverSession(rules, initial, run, again, k => true, Replaced, None);
  }

  lemma OneForgotten(e: Entry, changed: string)
    ensures Kept([e], [Lost(changed)], [false]) == [] && Failed([e], [Lost(changed)]) == [e]
    ensures RestoredFrom(map[e.path := changed], [e], [Lost(changed)], 0) == map[e.path := changed]
  {
    assert RestoredFrom(map[e.path := changed], [e], [Lost(changed)], 1) == map[e.path := changed];
  }

  /** A failed print forgets a setting: the restore reports failure, but the next recovery finds
      an empty ledger, reports success and leaves the setting changed. */
  method ForgottenSetting(rules: Rules, path: string, value: string, changed: string)
    returns (l: Ledger, first: Result, second: Result)
    requires EntryIsValid(Entry(path, value), rules) && changed != value
    ensures first == Refused && second == Ok && l.entries == []
    ensures path in l.originals && l.originals[path] == value && l.settings == map[path := changed]
  {
    hide RestoredFrom, Failed, Kept, NothingForgotten, SameOutside;
    l := new Ledger(rules, map[path := value]);
    var saved := l.Save(path);
    assert l.entries == [Entry(path, value)];
    assert l.entries[0] in l.entries;
    l.WriteSetting(path, changed);
    assert l.settings == map[path := changed];
    OneForgotten(Entry(path, value), changed);
    first := l.Restore([Lost(changed)], [false], Replaced, None);
    second := l.Recover([], [], Replaced, None);
  }
}
