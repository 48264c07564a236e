/** Where the baseline store's commit stops short: a commit checks its own size but not the
    total, and a racing loser that is killed blocks every later listing. */
module BaselineLimits {
  import opened Text
  import opened BaselinePhase
  import opened BaselineStore
  import opened BaselineCommits

  lemma RunNone(ctx: Context, s: System)
    ensures Run(ctx, s, []) == s
  {
  }

  lemma RunFour(ctx: Context, s: System, a: Event, b: Event, c: Event, d: Event)
    ensures Run(ctx, s, [a, b, c, d]) == Apply(ctx, Apply(ctx, Apply(ctx, Apply(ctx, s, a), b), c), d)
  {
    hide Run, Apply;
    RunNone(ctx, s);
    RunOne(ctx, s, [], a);
    RunOne(ctx, s, [a], b);
    RunOne(ctx, s, [a, b], c);
    RunOne(ctx, s, [a, b, c], d);
    assert [] + [a] == [a];
    assert [a] + [b] == [a, b];
    assert [a, b] + [c] == [a, b, c];
    assert [a, b, c] + [d] == [a, b, c, d];
  }

  lemma RunSix(ctx: Context, s: System, a: Event, b: Event, c: Event, d: Event, e: Event, f: Event)
    ensures Run(ctx, s, [a, b, c, d, e, f])
            == Apply(ctx, Apply(ctx, Apply(ctx, Apply(ctx, Apply(ctx, Apply(ctx, s, a), b), c), d), e), f)
  {
    hide Run, Apply;
    RunFour(ctx, s, a, b, c, d);
    RunOne(ctx, s, [a, b, c, d], e);
    RunOne(ctx, s, [a, b, c, d, e], f);
    assert [a, b, c, d] + [e] == [a, b, c, d, e];
    assert [a, b, c, d, e] + [f] == [a, b, c, d, e, f];
  }

  /** The steps before the link, of a process whose record's name is free. */
  lemma ReachesLink(ctx: Context, s: System, pid: nat, job: Job)
    requires pid in s.processes && s.processes[pid] == Prepared(job) && FileName(job) !in s.files
    ensures Apply(ctx, Apply(ctx, Apply(ctx, Apply(ctx, s, Advance(pid, Write)), Advance(pid, Ready)), Advance(pid, Link)),
                  Advance(pid, Unlink))
            == System(s.files[FileName(job) := Line(ctx, job)], s.processes[pid := Checking(job)],
                      s.history + [Publication(job, pid)])
  {
    hide FileName, Line;
    var s1 := Apply(ctx, s, Advance(pid, Write));
    assert s1 == Set(s, pid, Wrote(job));
    var s2 := Apply(ctx, s1, Advance(pid, Ready));
    assert s2 == Set(s, pid, Renamed(job));
    var s3 := Apply(ctx, s2, Advance(pid, Link));
    assert s3.processes == s.processes[pid := Published(job)];
    var s4 := Apply(ctx, s3, Advance(pid, Unlink));
    assert s4.processes == s.processes[pid := Checking(job)];
  }

  /** The last check of a commit that published the record it was to publish. */
  lemma ChecksLast(ctx: Context, s: System, pid: nat, store: Store, e: Envelope)
    requires Lawful(ctx.codec) && pid in s.processes && s.processes[pid] == Checking(WaveJob(store.manifest, e))
    requires CanList(s) && Stores(s.files, ctx.rules, ctx.codec, store.manifest, store.envelopes + [e])
    requires e.wave == |store.envelopes| + 1
    ensures var s' := Apply(ctx, s, Advance(pid, Check));
      s'.files == s.files && pid in s'.processes
      && (s'.processes[pid].Done? <==> TotalBytes(ctx.codec, store.manifest, store.envelopes + [e]) <= STORE_MAX_TOTAL)
  {
    hide CanList, Stores, TotalBytes, Read;
    ReadIs(ctx, s.files, store.manifest, store.envelopes + [e]);
  }

  lemma SweptCanList(s: System, pid: nat, p: Process)
    requires Quiet(s, pid) && TemporaryOf(p).None?
    ensures CanList(Set(Swept(s), pid, p))
    ensures var s' := Set(Swept(s), pid, p);
      forall q :: q in s'.processes ==> TemporaryOf(s'.processes[q]).None?
  {
    hide FileName, Recoverable;
    var s' := Set(Swept(s), pid, p);
    assert forall q :: q in s'.processes ==> TemporaryOf(s'.processes[q]).None?;
  }

  lemma PublishedStores(ctx: Context, s: System, store: Store, e: Envelope, pid: nat)
    requires Lawful(ctx.codec) && Sound(ctx, s) && Read(ctx, s.files) == Some(store) && WaveAllowed(ctx, store, e)
    ensures var job := WaveJob(store.manifest, e);
      && FileName(job) !in s.files
      && Stores(s.files[FileName(job) := Line(ctx, job)], ctx.rules, ctx.codec, store.manifest, store.envelopes + [e])
  {
    var job := WaveJob(store.manifest, e);
    hide Read, TotalBytes, ProcessesOk, Stores, Recorded, ValidEnvelope, ValidManifest, FileName;
    ReadFollowsHistory(ctx, s);
    FirstRecord(ctx, s.files, s.history);
    assert JobOk(ctx, s.history, job);
    FreeIsNext(ctx, s.files, s.history, job);
    LinkKeepsRecorded(ctx, s.files, s.history, job, pid);
    var after := s.history + [Publication(job, pid)];
    RecordedStores(ctx, s.files[FileName(job) := Line(ctx, job)], after);
    assert EnvelopesOf(after) == EnvelopesOf(s.history) + [e];
  }

  /** Under the lease, a commit of the allowed next wave that nothing stops always publishes it;
      it reports success if and only if the total size stays within the store's limit. */
  lemma CommitSucceedsIff(ctx: Context, events: seq<Event>, pid: nat, store: Store, e: Envelope)
    requires Lawful(ctx.codec) && Leased(ctx, events)
    requires Quiet(Run(ctx, INITIAL, events), pid) && Idle(Run(ctx, INITIAL, events), pid)
    requires Read(ctx, Run(ctx, INITIAL, events).files) == Some(store) && WaveAllowed(ctx, store, e)
    ensures var s := Run(ctx, Run(ctx, INITIAL, events), Commit(pid, e));
      && Stores(s.files, ctx.rules, ctx.codec, store.manifest, store.envelopes + [e])
      && pid in s.processes
      && (s.processes[pid].Done? <==> TotalBytes(ctx.codec, store.manifest, store.envelopes + [e]) <= STORE_MAX_TOTAL)
  {
    hide Run, Read, Recorded, ProcessesOk, Stores, TotalBytes, Quiet, CanList, WaveAllowed, Idle, Apply, LeaseKept, FileName,
      Line, Leased;
    var s := Run(ctx, INITIAL, events);
    RunIsSound(ctx, events);
    LeasedReadSucceedsIff(ctx, events, pid);
    var job := WaveJob(store.manifest, e);
    PublishedStores(ctx, s, store, e, pid);
    var s1 := Set(Swept(s), pid, Prepared(job));
    CommitBegins(ctx, s, pid, store, e);
    ReachesLink(ctx, s1, pid, job);
    var s5 := System(s.files[FileName(job) := Line(ctx, job)], s1.processes[pid := Checking(job)],
                     s.history + [Publication(job, pid)]);
    assert CanList(s5) by {
      SweptCanList(s, pid, Checking(job));
      SameListing(Set(Swept(s), pid, Checking(job)), s5);
    }
    ChecksLast(ctx, s5, pid, store, e);
    RunSix(ctx, s, Begin(pid, WaveRequest(e)), Advance(pid, Write), Advance(pid, Ready), Advance(pid, Link),
           Advance(pid, Unlink), Advance(pid, Check));
  }

  lemma CommitBegins(ctx: Context, s: System, pid: nat, store: Store, e: Envelope)
    requires Idle(s, pid) && CanList(s) && Read(ctx, s.files) == Some(store) && WaveAllowed(ctx, store, e)
    ensures Apply(ctx, s, Begin(pid, WaveRequest(e))) == Set(Swept(s), pid, Prepared(WaveJob(store.manifest, e)))
    ensures e.wave == |store.envelopes| + 1
  {
    hide CanList, Read, Idle;
  }

  lemma SameListing(s: System, s': System)
    requires CanList(s) && s.processes == s'.processes
    requires forall q :: q in s.processes ==> TemporaryOf(s.processes[q]).None?
    ensures CanList(s')
  {
  }

  /** A store whose total is too large is never read again. */
  lemma OversizedForever(ctx: Context, before: seq<Event>, after: seq<Event>, m: Manifest, es: seq<Envelope>)
    requires Lawful(ctx.codec) && Stores(Run(ctx, INITIAL, before).files, ctx.rules, ctx.codec, m, es)
    requires TotalBytes(ctx.codec, m, es) > STORE_MAX_TOTAL
    ensures Read(ctx, Run(ctx, Run(ctx, INITIAL, before), after).files).None?
  {
    hide TotalBytes, Stores, Read;
    var s := Run(ctx, INITIAL, before);
    var s' := Run(ctx, s, after);
    StoredManifest(s.files, ctx.rules, ctx.codec, m, es);
    PrefixNeverChanges(ctx, before, after);
    hide Run;
    var m', es', more :| Stores(s.files, ctx.rules, ctx.codec, m', es') && es' <= more
                         && Stores(s'.files, ctx.rules, ctx.codec, m', more);
    StoresOnce(s.files, ctx.rules, ctx.codec, m, es, m', es');
    TotalGrows(ctx.codec, m, more, |es|);
    assert more[..|es|] == es;
    ReadIs(ctx, s'.files, m, more);
  }

  /** A dead process's temporary file that recovery does not accept is never removed, and no
      listing succeeds again. */
  lemma {:induction false} BlockedForever(ctx: Context, s: System, pid: nat, events: seq<Event>)
    requires pid in s.processes && s.processes[pid].Dead? && s.processes[pid].left.Some?
    requires !Recoverable(s.files, s.processes[pid].left.value)
    ensures var s' := Run(ctx, s, events);
      pid in s'.processes && s'.processes[pid] == s.processes[pid] && s.files.Keys <= s'.files.Keys && !CanList(s')
  {
    if events != [] {
      BlockedForever(ctx, s, pid, events[..|events| - 1]);
      LeftBehindStays(ctx, Run(ctx, s, events[..|events| - 1]), events[|events| - 1], pid);
    }
  }

  // Exactly when no listing can ever succeed again.

  predicate LeftBehind(s: System, pid: nat) {
    pid in s.processes && s.processes[pid].Dead? && s.processes[pid].left.Some?
  }

  predicate SameRecord(s: System, p: nat, q: nat) {
    LeftBehind(s, p) && LeftBehind(s, q)
    && FileName(s.processes[p].left.value.job) == FileName(s.processes[q].left.value.job)
  }

  /** A dead process left a temporary file that recovery does not accept, or two left one each
      for the same record. */
  ghost predicate Stuck(s: System) {
    || (exists p :: LeftBehind(s, p) && !Recoverable(s.files, s.processes[p].left.value))
    || (exists p, q :: p != q && SameRecord(s, p, q))
  }

  lemma StuckCannotList(s: System)
    requires Stuck(s)
    ensures !CanList(s)
  {
    hide FileName, Recoverable;
  }

  lemma LeftBehindStays(ctx: Context, s: System, event: Event, pid: nat)
    requires LeftBehind(s, pid) && !CanList(s)
    ensures var s' := Apply(ctx, s, event);
      LeftBehind(s', pid) && s'.processes[pid] == s.processes[pid] && s.files.Keys <= s'.files.Keys
  {
    hide CanList, Read, InitAllowed, WaveAllowed, Confirmed, FileName, Line;
    match event
    case Begin(p, request) => { }
    case Advance(p, step) => { }
  }

  lemma StuckStays(ctx: Context, s: System, event: Event)
    requires Stuck(s)
    ensures Stuck(Apply(ctx, s, event))
  {
    StuckCannotList(s);
    hide Apply, CanList, FileName;
    var s' := Apply(ctx, s, event);
    if p :| LeftBehind(s, p) && !Recoverable(s.files, s.processes[p].left.value) {
      LeftBehindStays(ctx, s, event, p);
    } else {
      var p, q :| p != q && SameRecord(s, p, q);
      LeftBehindStays(ctx, s, event, p);
      LeftBehindStays(ctx, s, event, q);
      assert SameRecord(s', p, q);
    }
  }

  lemma {:induction false} StuckForever(ctx: Context, s: System, events: seq<Event>)
    requires Stuck(s)
    ensures Stuck(Run(ctx, s, events)) && !CanList(Run(ctx, s, events))
  {
    hide Stuck, CanList, Apply;
    StuckCannotList(s);
    if events != [] {
      StuckForever(ctx, s, events[..|events| - 1]);
      StuckStays(ctx, Run(ctx, s, events[..|events| - 1]), events[|events| - 1]);
      StuckCannotList(Run(ctx, s, events));
    }
  }

  /** The processes still at work that hold a temporary file. */
  function Busy(s: System): set<nat> {
    set p | p in s.processes && TemporaryOf(s.processes[p]).Some? && !s.processes[p].Dead?
  }

  lemma IdleCanList(s: System)
    requires !Stuck(s) && Busy(s) == {}
    ensures CanList(s)
  {
    hide FileName, Recoverable;
    forall p, q | p in s.processes && q in s.processes && p != q && TemporaryOf(s.processes[p]).Some?
                  && TemporaryOf(s.processes[q]).Some?
      ensures FileName(TemporaryOf(s.processes[p]).value.job) != FileName(TemporaryOf(s.processes[q]).value.job)
    {
      assert p !in Busy(s) && q !in Busy(s);
      assert !SameRecord(s, p, q);
    }
    forall p | p in s.processes && TemporaryOf(s.processes[p]).Some?
      ensures s.processes[p].Dead? && Recoverable(s.files, s.processes[p].left.value)
    {
      assert p !in Busy(s);
      assert LeftBehind(s, p);
    }
  }

  /** A process at work removes its own temporary file. */
  function Retreat(p: Process): Step { if p.Published? || p.Lost? then Unlink else GiveUp }

  lemma RetreatFrees(ctx: Context, s: System, pid: nat)
    requires pid in Busy(s) && !Stuck(s)
    ensures var s' := Apply(ctx, s, Advance(pid, Retreat(s.processes[pid]))); Busy(s') == Busy(s) - {pid} && !Stuck(s')
  {
    hide Recoverable, FileName;
    var s' := Apply(ctx, s, Advance(pid, Retreat(s.processes[pid])));
    assert s' == Set(s, pid, s'.processes[pid]) && TemporaryOf(s'.processes[pid]).None? && !s'.processes[pid].Dead?;
    assert forall p :: LeftBehind(s', p) ==> LeftBehind(s, p) && s'.processes[p] == s.processes[p];
    assert forall p, q :: SameRecord(s', p, q) ==> SameRecord(s, p, q);
  }

  lemma {:induction false} ListsAgain(ctx: Context, s: System) returns (events: seq<Event>)
    requires !Stuck(s)
    ensures CanList(Run(ctx, s, events))
    decreases Busy(s)
  {
    hide Stuck, CanList, Apply;
    if Busy(s) == {} {
      IdleCanList(s);
      RunNone(ctx, s);
      return [];
    }
    var pid :| pid in Busy(s);
    var event := Advance(pid, Retreat(s.processes[pid]));
    RetreatFrees(ctx, s, pid);
    var rest := ListsAgain(ctx, Apply(ctx, s, event));
    RunNone(ctx, s);
    RunOne(ctx, s, [], event);
    assert [] + [event] == [event];
    RunAppend(ctx, s, [event], rest);
    return [event] + rest;
  }

  /** Without the lease: from any state, some continuation is listed again exactly if it is not
      stuck; and a stuck store is never listed again. */
  lemma ListsAgainIff(ctx: Context, s: System)
    ensures (exists events :: CanList(Run(ctx, s, events))) <==> !Stuck(s)
  {
    hide Stuck, CanList, Run;
    if Stuck(s) {
      forall events ensures !CanList(Run(ctx, s, events)) { StuckForever(ctx, s, events); }
    } else {
      var events := ListsAgain(ctx, s);
    }
  }

  /** Two initializers both find an empty directory, write, and are killed. */
  function BothDie(m: Manifest): seq<Event> {
    [Begin(0, InitRequest(m)), Begin(1, InitRequest(m)), Advance(0, Write), Advance(1, Write), Advance(0, Kill),
     Advance(1, Kill)]
  }

  /** Nothing was published, and nothing ever can be: the two files are for one record. */
  lemma TwoDeadInitializersBlock(ctx: Context, m: Manifest, after: seq<Event>)
    requires InitAllowed(ctx, m)
    ensures var s := Run(ctx, INITIAL, BothDie(m));
      s.files == map[] && Stuck(s) && !CanList(Run(ctx, s, after))
  {
    hide Apply, InitAllowed, Run, CanList, FileName;
    var job := InitJob(m);
    BothBegin(ctx, m);
    BothAreKilled(ctx, job);
    RunSix(ctx, INITIAL, Begin(0, InitRequest(m)), Begin(1, InitRequest(m)), Advance(0, Write), Advance(1, Write),
           Advance(0, Kill), Advance(1, Kill));
    var s := Run(ctx, INITIAL, BothDie(m));
    assert SameRecord(s, 0, 1);
    StuckForever(ctx, s, after);
  }

  lemma BothAreKilled(ctx: Context, job: Job)
    ensures var begun := System(map[], map[0 := Prepared(job), 1 := Prepared(job)], []);
      var left := Dead(Some(Temporary(job, false, false)));
      Apply(ctx, Apply(ctx, Apply(ctx, Apply(ctx, begun, Advance(0, Write)), Advance(1, Write)), Advance(0, Kill)),
            Advance(1, Kill)) == System(map[], map[0 := left, 1 := left], [])
  {
    var s0 := System(map[], map[0 := Prepared(job), 1 := Prepared(job)], []);
    var s1 := Apply(ctx, s0, Advance(0, Write));
    assert s1.processes == map[0 := Wrote(job), 1 := Prepared(job)];
    var s2 := Apply(ctx, s1, Advance(1, Write));
    assert s2.processes == map[0 := Wrote(job), 1 := Wrote(job)];
    var s3 := Apply(ctx, s2, Advance(0, Kill));
    assert s3.processes == map[0 := Dead(Some(Temporary(job, false, false))), 1 := Wrote(job)];
    var s4 := Apply(ctx, s3, Advance(1, Kill));
    var left := Dead(Some(Temporary(job, false, false)));
    assert s4.processes == map[0 := left, 1 := left];
  }

  /** Two initializers both find an empty directory, and the first commits. */
  function FirstWins(m: Manifest): seq<Event> {
    [Begin(0, InitRequest(m)), Begin(1, InitRequest(m)), Advance(0, Write), Advance(0, Ready), Advance(0, Link),
     Advance(0, Unlink)]
  }

  /** The second loses the race for the name, and is killed before it removes its file. */
  function SecondDies(): seq<Event> {
    [Advance(1, Write), Advance(1, Ready), Advance(1, Link), Advance(1, Kill)]
  }

  lemma AfterFirst(ctx: Context, m: Manifest)
    requires InitAllowed(ctx, m)
    ensures var job := InitJob(m);
      Run(ctx, INITIAL, FirstWins(m))
      == System(map[PHASE_FILE := Line(ctx, job)], map[0 := Checking(job), 1 := Prepared(job)], [Publication(job, 0)])
  {
    hide Apply, InitAllowed, Run, Line;
    var job := InitJob(m);
    BothBegin(ctx, m);
    var s2 := System(map[], map[0 := Prepared(job), 1 := Prepared(job)], []);
    ReachesLink(ctx, s2, 0, job);
    assert s2.files[FileName(job) := Line(ctx, job)] == map[PHASE_FILE := Line(ctx, job)];
    assert s2.processes[0 := Checking(job)] == map[0 := Checking(job), 1 := Prepared(job)];
    RunSix(ctx, INITIAL, Begin(0, InitRequest(m)), Begin(1, InitRequest(m)), Advance(0, Write), Advance(0, Ready),
           Advance(0, Link), Advance(0, Unlink));
  }

  /** Without the lease: the loser of such a race leaves a store that is whole, and that can never
      be listed again. */
  lemma RacingLoserBlocks(ctx: Context, m: Manifest, after: seq<Event>)
    requires Lawful(ctx.codec) && InitAllowed(ctx, m)
    ensures var s := Run(ctx, INITIAL, FirstWins(m) + SecondDies());
      Read(ctx, s.files) == Some(Store(m, [])) && !CanList(Run(ctx, s, after))
  {
    hide Apply, InitAllowed, Run, Line, Read, CanList, FirstWins;
    var job := InitJob(m);
    RunAppend(ctx, INITIAL, FirstWins(m), SecondDies());
    AfterFirst(ctx, m);
    var s6 := Run(ctx, INITIAL, FirstWins(m));
    LoserDies(ctx, s6, job);
    BlockedForever(ctx, Run(ctx, s6, SecondDies()), 1, after);
    OnlyTheManifest(ctx, m);
  }

  lemma BothBegin(ctx: Context, m: Manifest)
    requires InitAllowed(ctx, m)
    ensures Apply(ctx, Apply(ctx, INITIAL, Begin(0, InitRequest(m))), Begin(1, InitRequest(m)))
            == System(map[], map[0 := Prepared(InitJob(m)), 1 := Prepared(InitJob(m))], [])
  {
    hide InitAllowed;
    var s1 := Apply(ctx, INITIAL, Begin(0, InitRequest(m)));
    assert s1.processes == map[0 := Prepared(InitJob(m))];
    assert CanList(s1);
    var s2 := Apply(ctx, s1, Begin(1, InitRequest(m)));
    assert s2.processes == map[0 := Prepared(InitJob(m)), 1 := Prepared(InitJob(m))];
  }

  /** The steps of a process whose record's name is taken, killed after the link failed. */
  lemma LosesLink(ctx: Context, s: System, pid: nat, job: Job)
    requires pid in s.processes && s.processes[pid] == Prepared(job) && FileName(job) in s.files
    ensures Apply(ctx, Apply(ctx, Apply(ctx, Apply(ctx, s, Advance(pid, Write)), Advance(pid, Ready)), Advance(pid, Link)),
                  Advance(pid, Kill))
            == Set(s, pid, Dead(Some(Temporary(job, true, false))))
  {
    hide FileName, Line;
    var s1 := Apply(ctx, s, Advance(pid, Write));
    assert s1 == Set(s, pid, Wrote(job));
    var s2 := Apply(ctx, s1, Advance(pid, Ready));
    assert s2 == Set(s, pid, Renamed(job));
    var s3 := Apply(ctx, s2, Advance(pid, Link));
    assert s3 == Set(s, pid, Lost(job));
    assert Apply(ctx, s3, Advance(pid, Kill)) == Set(s, pid, Dead(Some(Temporary(job, true, false))));
  }

  lemma LoserDies(ctx: Context, s: System, job: Job)
    requires 1 in s.processes && s.processes[1] == Prepared(job) && FileName(job) in s.files
    ensures Run(ctx, s, SecondDies()) == Set(s, 1, Dead(Some(Temporary(job, true, false))))
  {
    hide Apply, FileName, Run;
    LosesLink(ctx, s, 1, job);
    RunFour(ctx, s, Advance(1, Write), Advance(1, Ready), Advance(1, Link), Advance(1, Kill));
  }

  lemma OnlyTheManifest(ctx: Context, m: Manifest)
    requires Lawful(ctx.codec) && InitAllowed(ctx, m)
    ensures Read(ctx, map[PHASE_FILE := Line(ctx, InitJob(m))]) == Some(Store(m, []))
  {
    hide Read, ValidManifest;
    var files := map[PHASE_FILE := Line(ctx, InitJob(m))];
    forall o: nat | 1 <= o <= STORE_MAX_WAVES ensures WaveFileName(o) !in files {
      WaveNameRoundTrip(o);
      PhaseIsNoWave();
    }
    ManifestHasWaves(ctx.rules, m);
    assert Stores(files, ctx.rules, ctx.codec, m, []);
    ReadIs(ctx, files, m, []);
  }
}
