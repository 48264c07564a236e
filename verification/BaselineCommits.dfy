/** Racing and interrupted committers of one baseline store (initializeBaselinePhaseStore and
    commitBaselinePhaseWave in diagnose-lib/baseline-phase-store.mjs, over the file adapter of
    diagnose-lib/pinned-protocol.mjs). Every step of every process may interleave with every
    other; a process may be killed between any two steps and leaves its temporary file. */
module BaselineCommits {
  import opened Text
  import opened BaselinePhase
  import opened BaselineStore

  datatype Context = Context(rules: Rules, codec: Codec)

  /** What a process is to commit. */
  datatype Job = InitJob(m: Manifest) | WaveJob(m: Manifest, e: Envelope)

  function Index(job: Job): int { match job case InitJob(_) => 0 case WaveJob(_, e) => e.wave }

  function FileName(job: Job): string { if Index(job) < 0 then "" else RecordName(Index(job)) }

  function Line(ctx: Context, job: Job): string {
    match job case InitJob(m) => ctx.codec.manifestLine(m) case WaveJob(_, e) => ctx.codec.waveLine(e)
  }

  /** The temporary file of a job: still being written or ready, and linked to its final name. */
  datatype Temporary = Temporary(job: Job, ready: bool, published: bool)

  datatype Process =
    | Prepared(job: Job)
    | Wrote(job: Job)
    | Renamed(job: Job)
    | Published(job: Job)
    | Lost(job: Job)
    | Checking(job: Job)
    | Done(job: Job)
    | Failed
    | Dead(left: Option<Temporary>)

  /** One record published, and by whom. */
  datatype Publication = Publication(job: Job, pid: nat)

  /** history only remembers; no step reads it. */
  datatype System = System(files: Files, processes: map<nat, Process>, history: seq<Publication>)

  const INITIAL := System(map[], map[], [])

  function TemporaryOf(p: Process): Option<Temporary> {
    match p
    case Wrote(job) => Some(Temporary(job, false, false))
    case Renamed(job) => Some(Temporary(job, true, false))
    case Published(job) => Some(Temporary(job, true, true))
    case Lost(job) => Some(Temporary(job, true, false))
    case Dead(left) => left
    case _ => None
  }

  // Listing recovers interrupted commits first.

  /** What recovery accepts of a dead writer's temporary file. */
  predicate Recoverable(files: Files, t: Temporary) { FileName(t.job) in files ==> t.ready && t.published }

  ghost predicate CanList(s: System) {
    && (forall pid :: pid in s.processes && TemporaryOf(s.processes[pid]).Some? ==>
          s.processes[pid].Dead? && Recoverable(s.files, s.processes[pid].left.value))
    && (forall p, q :: p in s.processes && q in s.processes && p != q
                       && TemporaryOf(s.processes[p]).Some? && TemporaryOf(s.processes[q]).Some? ==>
          FileName(TemporaryOf(s.processes[p]).value.job) != FileName(TemporaryOf(s.processes[q]).value.job))
  }

  function SweptProcess(p: Process): Process { if p.Dead? then Dead(None) else p }

  /** Every dead writer's temporary file is removed. */
  function Swept(s: System): System {
    s.(processes := map pid | pid in s.processes :: SweptProcess(s.processes[pid]))
  }

  ghost function Read(ctx: Context, files: Files): Option<Store> {
    if exists m, es :: Readable(files, ctx.rules, ctx.codec, m, es) then
      var m, es :| Readable(files, ctx.rules, ctx.codec, m, es);
      Some(Store(m, es))
    else None
  }

  lemma ReadIs(ctx: Context, files: Files, m: Manifest, es: seq<Envelope>)
    requires Lawful(ctx.codec) && Stores(files, ctx.rules, ctx.codec, m, es)
    ensures Read(ctx, files) == if TotalBytes(ctx.codec, m, es) <= STORE_MAX_TOTAL then Some(Store(m, es)) else None
  {
    hide Stores;
    forall m', es' | Stores(files, ctx.rules, ctx.codec, m', es') ensures m == m' && es == es' {
      StoresOnce(files, ctx.rules, ctx.codec, m, es, m', es');
    }
    assert TotalBytes(ctx.codec, m, es) <= STORE_MAX_TOTAL ==> Readable(files, ctx.rules, ctx.codec, m, es);
  }

  // Steps.

  datatype Request = InitRequest(m: Manifest) | WaveRequest(e: Envelope)

  datatype Step = Write | Ready | Link | Unlink | GiveUp | Check | Kill

  /** A process begins a commit, or takes its next step. */
  datatype Event = Begin(pid: nat, request: Request) | Advance(pid: nat, step: Step)

  function Set(s: System, pid: nat, p: Process): System { s.(processes := s.processes[pid := p]) }

  predicate Idle(s: System, pid: nat) {
    pid !in s.processes || s.processes[pid].Done? || s.processes[pid].Failed?
  }

  predicate InitAllowed(ctx: Context, m: Manifest) {
    ValidManifest(ctx.rules, m) && |ctx.codec.manifestLine(m)| <= PHASE_FILE_MAX
  }

  /** A wave is committed only as the exact next one of the store that was read. */
  predicate WaveAllowed(ctx: Context, store: Store, e: Envelope) {
    && |store.envelopes| < store.manifest.schedule.waves
    && ValidEnvelope(ctx.rules, store.manifest, e) && e.wave == |store.envelopes| + 1
    && |ctx.codec.waveLine(e)| <= WAVE_FILE_MAX
  }

  ghost function ApplyStartInit(ctx: Context, s: System, pid: nat, m: Manifest): System {
    if !InitAllowed(ctx, m) || !CanList(s) then Set(s, pid, Failed)
    else if s.files == map[] then Set(Swept(s), pid, Prepared(InitJob(m)))
    else Set(Swept(s), pid, Checking(InitJob(m)))
  }

  ghost function ApplyStartWave(ctx: Context, s: System, pid: nat, e: Envelope): System {
    if !CanList(s) then Set(s, pid, Failed)
    else
      var store := Read(ctx, s.files);
      if store.Some? && WaveAllowed(ctx, store.value, e)
      then Set(Swept(s), pid, Prepared(WaveJob(store.value.manifest, e)))
      else Set(Swept(s), pid, Failed)
  }

  /** The atomic no-clobber link. */
  function ApplyLink(ctx: Context, s: System, pid: nat, job: Job): System {
    if FileName(job) in s.files then Set(s, pid, Lost(job))
    else Set(System(s.files[FileName(job) := Line(ctx, job)], s.processes, s.history + [Publication(job, pid)]),
             pid, Published(job))
  }

  ghost predicate Confirmed(ctx: Context, files: Files, job: Job) {
    var store := Read(ctx, files);
    && store.Some?
    && match job
       case InitJob(m) => store.value.manifest == m
       case WaveJob(_, e) =>
         |store.value.envelopes| == e.wave && e.wave > 0 && store.value.envelopes[|store.value.envelopes| - 1] == e
  }

  ghost function ApplyCheck(ctx: Context, s: System, pid: nat, job: Job): System {
    if !CanList(s) then Set(s, pid, Failed)
    else Set(Swept(s), pid, if Confirmed(ctx, s.files, job) then Done(job) else Failed)
  }

  ghost function ApplyBegin(ctx: Context, s: System, pid: nat, request: Request): System {
    match request
    case InitRequest(m) => ApplyStartInit(ctx, s, pid, m)
    case WaveRequest(e) => ApplyStartWave(ctx, s, pid, e)
  }

  /** A commit that cannot be written, or synchronized once it is published: its temporary file
      is removed, and an initializer rereads the store. */
  function AfterFailure(job: Job): Process { if job.InitJob? then Checking(job) else Failed }

  ghost function ApplyStep(ctx: Context, s: System, pid: nat, p: Process, step: Step): System {
    match step
    case Write => if p.Prepared? then Set(s, pid, Wrote(p.job)) else s
    case Ready => if p.Wrote? then Set(s, pid, Renamed(p.job)) else s
    case Link => if p.Renamed? then ApplyLink(ctx, s, pid, p.job) else s
    case Unlink =>
      if p.Published? || (p.Lost? && p.job.InitJob?) then Set(s, pid, Checking(p.job))
      else if p.Lost? then Set(s, pid, Failed)
      else s
    case GiveUp =>
      if p.Prepared? || p.Wrote? || p.Renamed? || p.Published? then Set(s, pid, AfterFailure(p.job)) else s
    case Check => if p.Checking? then ApplyCheck(ctx, s, pid, p.job) else s
    case Kill => if p.Done? || p.Failed? || p.Dead? then s else Set(s, pid, Dead(TemporaryOf(p)))
  }

  /** One step; a step its process cannot take changes nothing. */
  ghost function Apply(ctx: Context, s: System, event: Event): System {
    match event
    case Begin(pid, request) => if Idle(s, pid) then ApplyBegin(ctx, s, pid, request) else s
    case Advance(pid, step) =>
      if pid in s.processes then ApplyStep(ctx, s, pid, s.processes[pid], step) else s
  }

  ghost function Run(ctx: Context, s: System, events: seq<Event>): System {
    if events == [] then s
    else Apply(ctx, Run(ctx, s, events[..|events| - 1]), events[|events| - 1])
  }

  // The invariant.

  predicate JobOk(ctx: Context, history: seq<Publication>, job: Job) {
    && 0 < |Line(ctx, job)|
    && match job
       case InitJob(m) => ValidManifest(ctx.rules, m) && |Line(ctx, job)| <= PHASE_FILE_MAX
       case WaveJob(m, e) =>
         && ValidManifest(ctx.rules, m) && ValidEnvelope(ctx.rules, m, e) && |Line(ctx, job)| <= WAVE_FILE_MAX
         && history != [] && history[0].job == InitJob(m)
  }

  /** The job was published by this process, as the record it was meant to be. */
  predicate Won(history: seq<Publication>, job: Job, pid: nat) {
    0 <= Index(job) < |history| && history[Index(job)] == Publication(job, pid)
  }

  predicate ProcessOk(ctx: Context, history: seq<Publication>, pid: nat, p: Process) {
    match p
    case Prepared(job) => JobOk(ctx, history, job) && Index(job) <= |history|
    case Wrote(job) => JobOk(ctx, history, job) && Index(job) <= |history|
    case Renamed(job) => JobOk(ctx, history, job) && Index(job) <= |history|
    case Published(job) => JobOk(ctx, history, job) && Won(history, job, pid)
    case Lost(job) => JobOk(ctx, history, job) && Index(job) < |history|
    case Checking(job) => JobOk(ctx, history, job) && (job.WaveJob? ==> Won(history, job, pid))
    case Done(job) => JobOk(ctx, history, job) && (if job.WaveJob? then Won(history, job, pid)
                                                   else history != [] && history[0].job == job)
    case Failed => true
    case Dead(left) => left.Some? ==> JobOk(ctx, history, left.value.job) && Index(left.value.job) <= |history|
                                      && (left.value.published ==> left.value.ready && Won(history, left.value.job, pid))
  }

  /** The files are exactly the records published, in order: the manifest, then waves 1, 2, ... */
  ghost predicate Recorded(ctx: Context, files: Files, history: seq<Publication>) {
    && |history| <= STORE_MAX_WAVES + 1
    && (forall n :: n in files ==> n == PHASE_FILE || WaveOrdinal(n).Some?)
    && (PHASE_FILE in files <==> |history| > 0)
    && (forall o: nat :: 1 <= o <= STORE_MAX_WAVES ==> (WaveFileName(o) in files <==> o < |history|))
    && (forall i :: 0 <= i < |history| ==> RecordOk(ctx, files, history, i))
  }

  predicate RecordOk(ctx: Context, files: Files, history: seq<Publication>, i: nat)
    requires i < |history|
  {
    var job := history[i].job;
    JobOk(ctx, history, job) && Index(job) == i && (i == 0 <==> job.InitJob?)
    && RecordName(i) in files && files[RecordName(i)] == Line(ctx, job)
  }

  ghost predicate ProcessesOk(ctx: Context, history: seq<Publication>, processes: map<nat, Process>) {
    forall pid :: pid in processes ==> ProcessOk(ctx, history, pid, processes[pid])
  }

  ghost predicate Sound(ctx: Context, s: System) {
    Recorded(ctx, s.files, s.history) && ProcessesOk(ctx, s.history, s.processes)
  }

  function EnvelopeOf(p: Publication): Envelope {
    match p.job case WaveJob(_, e) => e case InitJob(_) => Envelope("", "", "", 0, 0, [])
  }

  function EnvelopesOf(history: seq<Publication>): seq<Envelope>
    requires history != []
  {
    seq(|history| - 1, i requires 0 <= i < |history| - 1 => EnvelopeOf(history[i + 1]))
  }

  /** A non-empty recorded store is the manifest and the contiguous valid waves published. */
  lemma RecordedStores(ctx: Context, files: Files, history: seq<Publication>)
    requires Lawful(ctx.codec) && Recorded(ctx, files, history) && history != []
    ensures history[0].job.InitJob?
    ensures Stores(files, ctx.rules, ctx.codec, history[0].job.m, EnvelopesOf(history))
  {
    hide WaveOrdinal, WaveFileName, ValidEnvelope, ValidManifest;
    assert RecordOk(ctx, files, history, 0);
    var m, es := history[0].job.m, EnvelopesOf(history);
    forall i | 0 <= i < |es| ensures HoldsWave(files, ctx.rules, ctx.codec, m, es[i], i + 1) {
      assert RecordOk(ctx, files, history, i + 1);
    }
    if |es| > 0 {
      assert RecordOk(ctx, files, history, |es|);
      EnvelopeIsOnSchedule(ctx.rules, m, es[|es| - 1]);
    }
    ManifestHasWaves(ctx.rules, m);
    assert Counts(files, |es|);
  }

  lemma FirstRecord(ctx: Context, files: Files, history: seq<Publication>)
    requires Recorded(ctx, files, history) && history != []
    ensures RecordOk(ctx, files, history, 0)
  {
  }

  lemma EnvelopesCount(history: seq<Publication>)
    requires history != []
    ensures |EnvelopesOf(history)| == |history| - 1
  {
  }

  lemma SweptKeeps(s: System)
    ensures Swept(s).history == s.history && Swept(s).files == s.files
  {
  }

  lemma HistoryGrows(ctx: Context, history: seq<Publication>, x: Publication, pid: nat, p: Process)
    requires ProcessOk(ctx, history, pid, p)
    ensures ProcessOk(ctx, history + [x], pid, p)
  {
    hide ValidEnvelope, ValidManifest;
  }

  lemma WaveJobsAreOnSchedule(ctx: Context, history: seq<Publication>, job: Job)
    requires JobOk(ctx, history, job)
    ensures 0 <= Index(job) <= STORE_MAX_WAVES && (Index(job) == 0 <==> job.InitJob?)
  {
    assert job.WaveJob? ==> InRange(job.e.wave, job.m.schedule.waves) && ValidSchedule(job.m.schedule);
  }

  /** A file name that is free is the next one. */
  lemma FreeIsNext(ctx: Context, files: Files, history: seq<Publication>, job: Job)
    requires Recorded(ctx, files, history) && JobOk(ctx, history, job) && Index(job) <= |history|
    ensures FileName(job) in files <==> Index(job) < |history|
  {
    WaveJobsAreOnSchedule(ctx, history, job);
    hide WaveOrdinal, WaveFileName, JobOk;
  }

  lemma LinkKeepsRecorded(ctx: Context, files: Files, history: seq<Publication>, job: Job, pid: nat)
    requires Recorded(ctx, files, history) && JobOk(ctx, history, job) && Index(job) == |history|
    ensures Recorded(ctx, files[FileName(job) := Line(ctx, job)], history + [Publication(job, pid)])
  {
    var n := |history|;
    var after := history + [Publication(job, pid)];
    var files' := files[FileName(job) := Line(ctx, job)];
    WaveJobsAreOnSchedule(ctx, history, job);
    PhaseIsNoWave();
    WaveNameIsWave(n);
    hide ValidEnvelope, ValidManifest, WaveOrdinal, WaveFileName, RecordOk, JobOk;
    forall o: nat | 1 <= o <= STORE_MAX_WAVES ensures WaveFileName(o) in files' <==> o < n + 1 {
      assert RecordName(o) == WaveFileName(o);
      if RecordName(o) == RecordName(n) { RecordNamesDiffer(o, n); }
    }
    assert PHASE_FILE in files' <==> |after| > 0;
    forall i | 0 <= i < |after| ensures RecordOk(ctx, files', after, i) {
      RecordStays(ctx, files, history, job, pid, i);
    }
  }

  lemma WaveNameIsWave(n: nat)
    requires n <= STORE_MAX_WAVES
    ensures RecordName(n) == PHASE_FILE || WaveOrdinal(RecordName(n)).Some?
    ensures RecordName(n) == PHASE_FILE <==> n == 0
  {
    PhaseIsNoWave();
    if n > 0 { WaveNameRoundTrip(n); }
  }

  lemma RecordStays(ctx: Context, files: Files, history: seq<Publication>, job: Job, pid: nat, i: nat)
    requires i <= |history| == Index(job) <= STORE_MAX_WAVES && JobOk(ctx, history, job)
    requires Index(job) == 0 <==> job.InitJob?
    requires forall k :: 0 <= k < |history| ==> RecordOk(ctx, files, history, k)
    ensures RecordOk(ctx, files[FileName(job) := Line(ctx, job)], history + [Publication(job, pid)], i)
  {
    hide ValidEnvelope, ValidManifest, WaveFileName;
    if i < |history| {
      assert RecordOk(ctx, files, history, i);
      if RecordName(i) == RecordName(|history|) { RecordNamesDiffer(i, |history|); }
    }
  }

  lemma SetKeepsSound(ctx: Context, s: System, pid: nat, p: Process)
    requires Sound(ctx, s) && ProcessOk(ctx, s.history, pid, p)
    ensures Sound(ctx, Set(s, pid, p))
  {
    hide Recorded, ProcessOk;
  }

  lemma SweepKeepsSound(ctx: Context, s: System)
    requires Sound(ctx, s)
    ensures Sound(ctx, Swept(s))
  {
    hide Recorded, JobOk, Won;
  }

  lemma LinkKeepsSound(ctx: Context, s: System, pid: nat, job: Job)
    requires Lawful(ctx.codec) && Sound(ctx, s) && ProcessOk(ctx, s.history, pid, Renamed(job)) && 0 <= Index(job)
    ensures Sound(ctx, ApplyLink(ctx, s, pid, job))
  {
    hide Recorded, JobOk;
    FreeIsNext(ctx, s.files, s.history, job);
    if FileName(job) in s.files {
      SetKeepsSound(ctx, s, pid, Lost(job));
    } else {
      LinkKeepsRecorded(ctx, s.files, s.history, job, pid);
      var x := Publication(job, pid);
      HistoryGrows(ctx, s.history, x, pid, Renamed(job));
      forall q | q in s.processes ensures ProcessOk(ctx, s.history + [x], q, s.processes[q]) {
        HistoryGrows(ctx, s.history, x, q, s.processes[q]);
      }
      assert ProcessOk(ctx, s.history + [x], pid, Published(job));
    }
  }

  lemma JobsHaveIndices(ctx: Context, history: seq<Publication>, job: Job)
    requires JobOk(ctx, history, job)
    ensures Index(job) >= 0
  {
  }

  /** What a successful read saw is what the history says. */
  lemma ReadFollowsHistory(ctx: Context, s: System)
    requires Lawful(ctx.codec) && Recorded(ctx, s.files, s.history) && Read(ctx, s.files).Some?
    ensures s.history != [] && s.history[0].job.InitJob?
    ensures Read(ctx, s.files).value == Store(s.history[0].job.m, EnvelopesOf(s.history))
  {
    hide WaveOrdinal, WaveFileName, ValidEnvelope, ValidManifest, TotalBytes, Stores, EnvelopesOf;
    assert PHASE_FILE in s.files by {
      var m, es :| Readable(s.files, ctx.rules, ctx.codec, m, es);
      StoredManifest(s.files, ctx.rules, ctx.codec, m, es);
    }
    RecordedStores(ctx, s.files, s.history);
    ReadIs(ctx, s.files, s.history[0].job.m, EnvelopesOf(s.history));
  }

  lemma StartInitKeepsSound(ctx: Context, s: System, pid: nat, m: Manifest)
    requires Lawful(ctx.codec) && Sound(ctx, s)
    ensures Sound(ctx, ApplyStartInit(ctx, s, pid, m))
  {
    hide Recorded, CanList, ValidManifest;
    SweepKeepsSound(ctx, s);
    SetKeepsSound(ctx, s, pid, Failed);
    if InitAllowed(ctx, m) {
      SetKeepsSound(ctx, Swept(s), pid, Prepared(InitJob(m)));
      SetKeepsSound(ctx, Swept(s), pid, Checking(InitJob(m)));
    }
  }

  lemma StartWaveKeepsSound(ctx: Context, s: System, pid: nat, e: Envelope)
    requires Lawful(ctx.codec) && Sound(ctx, s)
    ensures Sound(ctx, ApplyStartWave(ctx, s, pid, e))
  {
    hide Recorded, CanList, ValidManifest, ValidEnvelope, Read;
    SweepKeepsSound(ctx, s);
    SetKeepsSound(ctx, s, pid, Failed);
    SetKeepsSound(ctx, Swept(s), pid, Failed);
    var store := Read(ctx, s.files);
    if store.Some? && WaveAllowed(ctx, store.value, e) {
      ReadFollowsHistory(ctx, s);
      FirstRecord(ctx, s.files, s.history);
      SetKeepsSound(ctx, Swept(s), pid, Prepared(WaveJob(store.value.manifest, e)));
    }
  }

  lemma CheckKeepsSound(ctx: Context, s: System, pid: nat, job: Job)
    requires Lawful(ctx.codec) && Sound(ctx, s) && ProcessOk(ctx, s.history, pid, Checking(job))
    ensures Sound(ctx, ApplyCheck(ctx, s, pid, job))
  {
    hide Recorded, CanList, ValidManifest, ValidEnvelope, Read, JobOk;
    SweepKeepsSound(ctx, s);
    SetKeepsSound(ctx, s, pid, Failed);
    SetKeepsSound(ctx, Swept(s), pid, Failed);
    if Confirmed(ctx, s.files, job) {
      ReadFollowsHistory(ctx, s);
      SetKeepsSound(ctx, Swept(s), pid, Done(job));
    }
  }

  lemma KillKeepsSound(ctx: Context, s: System, pid: nat)
    requires Sound(ctx, s) && pid in s.processes
    ensures Sound(ctx, Set(s, pid, Dead(TemporaryOf(s.processes[pid]))))
  {
    hide Recorded, JobOk;
    SetKeepsSound(ctx, s, pid, Dead(TemporaryOf(s.processes[pid])));
  }

  /** Every step keeps the store a manifest and a contiguous prefix, and only ever adds to it. */
  lemma StepKeepsSound(ctx: Context, s: System, event: Event)
    requires Lawful(ctx.codec) && Sound(ctx, s)
    ensures Sound(ctx, Apply(ctx, s, event)) && s.history <= Apply(ctx, s, event).history
  {
    hide Recorded, CanList, ValidManifest, ValidEnvelope, Read, JobOk, Swept, Confirmed;
    SweptKeeps(s);
    match event {
      case Begin(pid, InitRequest(m)) => StartInitKeepsSound(ctx, s, pid, m);
      case Begin(pid, WaveRequest(e)) => StartWaveKeepsSound(ctx, s, pid, e);
      case Advance(pid, step) =>
        if pid in s.processes { ProcessStepKeepsSound(ctx, s, pid, s.processes[pid], step); }
    }
  }

  /** Where a process may go without publishing. */
  lemma ResultOk(ctx: Context, history: seq<Publication>, pid: nat, p: Process)
    requires ProcessOk(ctx, history, pid, p)
    ensures p.Prepared? ==> ProcessOk(ctx, history, pid, Wrote(p.job))
    ensures p.Wrote? ==> ProcessOk(ctx, history, pid, Renamed(p.job))
    ensures p.Renamed? ==> JobOk(ctx, history, p.job)
    ensures p.Published? || (p.Lost? && p.job.InitJob?) ==> ProcessOk(ctx, history, pid, Checking(p.job))
    ensures p.Prepared? || p.Wrote? || p.Renamed? || p.Published? ==>
              ProcessOk(ctx, history, pid, AfterFailure(p.job))
    ensures ProcessOk(ctx, history, pid, Failed)
  {
    hide JobOk, Won;
  }

  lemma ProcessStepKeepsSound(ctx: Context, s: System, pid: nat, p: Process, step: Step)
    requires Lawful(ctx.codec) && Sound(ctx, s) && pid in s.processes && p == s.processes[pid]
    ensures Sound(ctx, ApplyStep(ctx, s, pid, p, step)) && s.history <= ApplyStep(ctx, s, pid, p, step).history
  {
    assert ProcessOk(ctx, s.history, pid, p);
    hide Recorded, CanList, JobOk, Swept, Confirmed, ProcessesOk, Won;
    SweptKeeps(s);
    hide ProcessOk, Sound;
    ResultOk(ctx, s.history, pid, p);
    match step {
      case Write => if p.Prepared? { SetKeepsSound(ctx, s, pid, Wrote(p.job)); }
      case Ready => if p.Wrote? { SetKeepsSound(ctx, s, pid, Renamed(p.job)); }
      case Link =>
        if p.Renamed? {
          JobsHaveIndices(ctx, s.history, p.job);
          LinkKeepsSound(ctx, s, pid, p.job);
        }
      case Unlink =>
        if p.Published? || (p.Lost? && p.job.InitJob?) {
          SetKeepsSound(ctx, s, pid, Checking(p.job));
        } else {
          SetKeepsSound(ctx, s, pid, Failed);
        }
      case GiveUp =>
        if p.Prepared? || p.Wrote? || p.Renamed? || p.Published? { SetKeepsSound(ctx, s, pid, AfterFailure(p.job)); }
      case Check => if p.Checking? { CheckKeepsSound(ctx, s, pid, p.job); }
      case Kill => KillKeepsSound(ctx, s, pid);
    }
  }

  /** From an empty directory, over every interleaving and every kill. */
  lemma {:induction false} RunIsSound(ctx: Context, events: seq<Event>)
    requires Lawful(ctx.codec)
    ensures Sound(ctx, Run(ctx, INITIAL, events))
  {
    if events != [] {
      RunIsSound(ctx, events[..|events| - 1]);
      StepKeepsSound(ctx, Run(ctx, INITIAL, events[..|events| - 1]), events[|events| - 1]);
    }
  }

  lemma {:induction false} HistoryExtends(ctx: Context, s: System, events: seq<Event>)
    requires Lawful(ctx.codec) && Sound(ctx, s)
    ensures Sound(ctx, Run(ctx, s, events)) && s.history <= Run(ctx, s, events).history
  {
    if events != [] {
      HistoryExtends(ctx, s, events[..|events| - 1]);
      StepKeepsSound(ctx, Run(ctx, s, events[..|events| - 1]), events[|events| - 1]);
    }
  }

  /** A published record is never changed or removed, whatever happens afterwards. */
  lemma PrefixNeverChanges(ctx: Context, before: seq<Event>, after: seq<Event>)
    requires Lawful(ctx.codec)
    ensures var s := Run(ctx, INITIAL, before);
      var s' := Run(ctx, s, after);
      && (s.files == map[] || exists m, es, more ::
            && Stores(s.files, ctx.rules, ctx.codec, m, es) && es <= more
            && Stores(s'.files, ctx.rules, ctx.codec, m, more))
      && forall n :: n in s.files ==> n in s'.files && s'.files[n] == s.files[n]
  {
    var s := Run(ctx, INITIAL, before);
    var s' := Run(ctx, s, after);
    RunIsSound(ctx, before);
    HistoryExtends(ctx, s, after);
    FilesExtend(ctx, s, s');
    if s.history == [] {
      NothingRecorded(ctx, s);
    } else {
      RecordedStores(ctx, s.files, s.history);
      RecordedStores(ctx, s'.files, s'.history);
      hide Stores, Recorded;
      assert EnvelopesOf(s.history) <= EnvelopesOf(s'.history);
    }
  }

  lemma NothingRecorded(ctx: Context, s: System)
    requires Recorded(ctx, s.files, s.history) && s.history == []
    ensures s.files == map[]
  {
    forall n ensures n !in s.files {
      var o := WaveOrdinal(n);
      if o.Some? { assert WaveFileName(o.value) !in s.files; }
    }
  }

  lemma FilesExtend(ctx: Context, s: System, s': System)
    requires Recorded(ctx, s.files, s.history) && Recorded(ctx, s'.files, s'.history) && s.history <= s'.history
    ensures forall n :: n in s.files ==> n in s'.files && s'.files[n] == s.files[n]
  {
    hide JobOk;
    forall n | n in s.files ensures n in s'.files && s'.files[n] == s.files[n] {
      var i := if n == PHASE_FILE then 0 else WaveOrdinal(n).value;
      assert RecordName(i) == n && i < |s.history|;
      assert RecordOk(ctx, s.files, s.history, i) && RecordOk(ctx, s'.files, s'.history, i);
    }
  }

  /** What a successful process committed is what the published records say, then and later. */
  lemma DoneIsPublished(ctx: Context, s: System, s': System, pid: nat)
    requires Sound(ctx, s) && s.history <= s'.history && pid in s.processes && s.processes[pid].Done?
    ensures var job := s.processes[pid].job;
      && 0 <= Index(job) < |s'.history| && s'.history[Index(job)].job == job && (Index(job) == 0 <==> job.InitJob?)
      && (job.WaveJob? ==> s'.history[Index(job)].pid == pid && s'.history[0].job == InitJob(job.m))
  {
    var job := s.processes[pid].job;
    assert ProcessOk(ctx, s.history, pid, Done(job));
    WaveJobsAreOnSchedule(ctx, s.history, job);
    hide Recorded, ProcessesOk, ValidEnvelope, ValidManifest;
  }

  /** A store whose records include what the job was to commit. */
  predicate Contains(store: Store, job: Job) {
    match job
    case InitJob(m) => store.manifest == m
    case WaveJob(m, e) =>
      store.manifest == m && 1 <= e.wave <= |store.envelopes| && store.envelopes[e.wave - 1] == e
  }

  lemma DoneIsRead(ctx: Context, s: System, s': System, pid: nat)
    requires Lawful(ctx.codec) && Sound(ctx, s) && Recorded(ctx, s'.files, s'.history) && s.history <= s'.history
    requires pid in s.processes && s.processes[pid].Done? && Read(ctx, s'.files).Some?
    ensures Contains(Read(ctx, s'.files).value, s.processes[pid].job)
  {
    hide Read, Recorded, ProcessesOk;
    DoneIsPublished(ctx, s, s', pid);
    ReadFollowsHistory(ctx, s');
  }

  /** A commit that succeeded stands in every later read. */
  lemma SuccessStands(ctx: Context, before: seq<Event>, after: seq<Event>, pid: nat)
    requires Lawful(ctx.codec) && pid in Run(ctx, INITIAL, before).processes
    requires Run(ctx, INITIAL, before).processes[pid].Done?
    requires Read(ctx, Run(ctx, Run(ctx, INITIAL, before), after).files).Some?
    ensures Contains(Read(ctx, Run(ctx, Run(ctx, INITIAL, before), after).files).value,
                     Run(ctx, INITIAL, before).processes[pid].job)
  {
    hide Run, Read, Recorded, ProcessesOk, Contains;
    var s := Run(ctx, INITIAL, before);
    RunIsSound(ctx, before);
    HistoryExtends(ctx, s, after);
    DoneIsRead(ctx, s, Run(ctx, s, after), pid);
  }

  /** No two processes succeed with the same wave. */
  lemma OneCommitterPerWave(ctx: Context, events: seq<Event>, p: nat, q: nat)
    requires Lawful(ctx.codec) && p in Run(ctx, INITIAL, events).processes && q in Run(ctx, INITIAL, events).processes
    requires Run(ctx, INITIAL, events).processes[p].Done? && Run(ctx, INITIAL, events).processes[q].Done?
    requires Run(ctx, INITIAL, events).processes[p].job.WaveJob? && Run(ctx, INITIAL, events).processes[q].job.WaveJob?
    requires Index(Run(ctx, INITIAL, events).processes[p].job) == Index(Run(ctx, INITIAL, events).processes[q].job)
    ensures p == q
  {
    hide Recorded, ProcessesOk;
    RunIsSound(ctx, events);
    var s := Run(ctx, INITIAL, events);
    hide Run;
    DoneIsPublished(ctx, s, s, p);
    DoneIsPublished(ctx, s, s, q);
  }

  // One writer at a time, as the bundle's exclusive lease has it.

  /** Every other process has finished, failed or died. */
  ghost predicate Quiet(s: System, except: nat) {
    forall q :: q in s.processes && q != except ==> s.processes[q].Done? || s.processes[q].Failed? || s.processes[q].Dead?
  }

  /** A process begins only when no other is at work. */
  ghost predicate Leased(ctx: Context, events: seq<Event>) {
    events == [] ||
    (var before := events[..|events| - 1];
     var event := events[|events| - 1];
     Leased(ctx, before) && (event.Begin? ==> Quiet(Run(ctx, INITIAL, before), event.pid)))
  }

  /** The one process with anything under way is about to publish the next record, or has. */
  predicate HolderOk(p: Process, next: nat) {
    match p
    case Prepared(job) => Index(job) == next
    case Wrote(job) => Index(job) == next
    case Renamed(job) => Index(job) == next
    case Lost(_) => false
    case Dead(left) => left.Some? ==> left.value.published || Index(left.value.job) == next
    case _ => true
  }

  predicate Resting(p: Process) { p.Done? || p.Failed? || p == Dead(None) }

  /** At most one process, alive or dead, has anything under way, and nobody has lost a race. */
  ghost predicate LeaseKept(s: System, holder: nat) {
    && (forall q :: q in s.processes && q != holder ==> Resting(s.processes[q]))
    && (holder in s.processes ==> HolderOk(s.processes[holder], |s.history|))
  }

  lemma LeftoverIsRecoverable(ctx: Context, s: System, q: nat)
    requires Sound(ctx, s) && q in s.processes && HolderOk(s.processes[q], |s.history|)
    requires s.processes[q].Dead? && s.processes[q].left.Some?
    ensures Recoverable(s.files, s.processes[q].left.value)
  {
    assert ProcessOk(ctx, s.history, q, s.processes[q]);
    hide JobOk, Recorded, FileName, ProcessesOk;
    FreeIsNext(ctx, s.files, s.history, s.processes[q].left.value.job);
  }

  /** Then recovery accepts whatever a killed process left: no commit blocks the next. */
  lemma LeaseLists(ctx: Context, s: System, holder: nat, pid: nat)
    requires Sound(ctx, s) && LeaseKept(s, holder) && Quiet(s, pid) && Idle(s, pid)
    ensures CanList(s)
  {
    hide Recorded, FileName, ProcessesOk, Recoverable;
    forall q | q in s.processes && TemporaryOf(s.processes[q]).Some?
      ensures q == holder && s.processes[q].Dead? && Recoverable(s.files, s.processes[q].left.value)
    {
      LeftoverIsRecoverable(ctx, s, q);
    }
  }

  lemma EmptyIsUnrecorded(ctx: Context, s: System)
    requires Recorded(ctx, s.files, s.history)
    ensures s.files == map[] <==> s.history == []
  {
    hide RecordOk, WaveOrdinal, WaveFileName;
    if s.history == [] { NothingRecorded(ctx, s); }
  }

  lemma FailedLease(s: System, holder: nat, pid: nat)
    requires LeaseKept(s, holder)
    ensures LeaseKept(Set(s, pid, Failed), holder)
  {
  }

  lemma OthersRest(s: System, holder: nat, pid: nat)
    requires LeaseKept(s, holder) && pid in s.processes && pid != holder
    ensures Resting(s.processes[pid])
  {
  }

  lemma ProcessIsOk(ctx: Context, s: System, pid: nat)
    requires ProcessesOk(ctx, s.history, s.processes) && pid in s.processes
    ensures ProcessOk(ctx, s.history, pid, s.processes[pid])
  {
    hide ProcessOk;
  }

  lemma SweptLease(s: System, pid: nat, p: Process)
    requires Quiet(s, pid) && HolderOk(p, |s.history|)
    ensures LeaseKept(Set(Swept(s), pid, p), pid)
  {
    hide HolderOk;
  }

  lemma LeaseBegins(ctx: Context, s: System, holder: nat, pid: nat, request: Request)
    requires Lawful(ctx.codec) && Sound(ctx, s) && LeaseKept(s, holder) && Quiet(s, pid) && Idle(s, pid)
    ensures LeaseKept(ApplyBegin(ctx, s, pid, request), pid) || LeaseKept(ApplyBegin(ctx, s, pid, request), holder)
  {
    hide Recorded, ProcessesOk, CanList, Read, ValidEnvelope, ValidManifest, LeaseKept, Quiet, Swept, EnvelopesOf;
    LeaseLists(ctx, s, holder, pid);
    EmptyIsUnrecorded(ctx, s);
    SweptLease(s, pid, Failed);
    FailedLease(s, holder, pid);
    match request {
      case InitRequest(m) =>
        SweptLease(s, pid, Checking(InitJob(m)));
        if s.files == map[] { SweptLease(s, pid, Prepared(InitJob(m))); }
      case WaveRequest(e) =>
        var store := Read(ctx, s.files);
        if store.Some? && WaveAllowed(ctx, store.value, e) {
          ReadFollowsHistory(ctx, s);
          EnvelopesCount(s.history);
          SweptLease(s, pid, Prepared(WaveJob(store.value.manifest, e)));
        }
    }
  }

  /** The steps of a process at work keep it the only one. */
  lemma LeaseSteps(ctx: Context, s: System, holder: nat, step: Step)
    requires Sound(ctx, s) && LeaseKept(s, holder) && holder in s.processes
    ensures LeaseKept(ApplyStep(ctx, s, holder, s.processes[holder], step), holder)
  {
    hide Recorded, ProcessesOk, CanList, JobOk, ProcessOk, ApplyLink, ApplyCheck;
    var p := s.processes[holder];
    ProcessIsOk(ctx, s, holder);
    if p.Renamed? { LeaseLinks(ctx, s, holder, p.job); }
    if p.Checking? { LeaseChecks(ctx, s, holder, p.job); }
  }

  lemma LeaseLinks(ctx: Context, s: System, holder: nat, job: Job)
    requires Recorded(ctx, s.files, s.history) && ProcessOk(ctx, s.history, holder, Renamed(job))
    requires LeaseKept(s, holder) && Index(job) == |s.history|
    ensures LeaseKept(ApplyLink(ctx, s, holder, job), holder)
  {
    hide Recorded, JobOk, FileName;
    FreeIsNext(ctx, s.files, s.history, job);
  }

  lemma LeaseChecks(ctx: Context, s: System, holder: nat, job: Job)
    requires LeaseKept(s, holder)
    ensures LeaseKept(ApplyCheck(ctx, s, holder, job), holder)
  {
    assert HolderOk(Done(job), |s.history|) && HolderOk(Failed, |s.history|);
    hide CanList, Confirmed, HolderOk;
  }

  lemma RestingStays(ctx: Context, s: System, pid: nat, step: Step)
    requires pid in s.processes && Resting(s.processes[pid])
    ensures ApplyStep(ctx, s, pid, s.processes[pid], step) == s
  {
  }

  lemma {:induction false} LeaseHolds(ctx: Context, events: seq<Event>) returns (holder: nat)
    requires Lawful(ctx.codec) && Leased(ctx, events)
    ensures LeaseKept(Run(ctx, INITIAL, events), holder)
  {
    if events == [] { return 0; }
    var before, event := events[..|events| - 1], events[|events| - 1];
    holder := LeaseHolds(ctx, before);
    RunIsSound(ctx, before);
    var s := Run(ctx, INITIAL, before);
    hide LeaseKept, Sound, ApplyBegin, ApplyStep, Idle, Quiet, Resting;
    match event
    case Begin(pid, request) =>
      if Idle(s, pid) {
        LeaseBegins(ctx, s, holder, pid, request);
        if LeaseKept(ApplyBegin(ctx, s, pid, request), pid) { holder := pid; }
      }
    case Advance(pid, step) =>
      if pid in s.processes {
        if pid == holder {
          LeaseSteps(ctx, s, holder, step);
        } else {
          OthersRest(s, holder, pid);
          RestingStays(ctx, s, pid, step);
        }
      }
  }

  /** A store reads if and only if its total size is within the limit. */
  lemma ReadSucceedsIff(ctx: Context, s: System)
    requires Lawful(ctx.codec) && Recorded(ctx, s.files, s.history)
    ensures Read(ctx, s.files).Some? <==>
              exists m, es :: Stores(s.files, ctx.rules, ctx.codec, m, es) && TotalBytes(ctx.codec, m, es) <= STORE_MAX_TOTAL
    ensures s.files != map[] ==> exists m, es :: Stores(s.files, ctx.rules, ctx.codec, m, es)
  {
    EmptyIsUnrecorded(ctx, s);
    if s.history != [] { RecordedStores(ctx, s.files, s.history); }
    hide Stores, TotalBytes, Recorded, EnvelopesOf;
    forall m, es | Stores(s.files, ctx.rules, ctx.codec, m, es)
      ensures Read(ctx, s.files).Some? <==> TotalBytes(ctx.codec, m, es) <= STORE_MAX_TOTAL
    {
      ReadIs(ctx, s.files, m, es);
    }
  }

  /** Under the lease, wherever the last process was killed, the next one's read succeeds if and
      only if there is a store and its total size is within the limit. */
  lemma LeasedReadSucceedsIff(ctx: Context, events: seq<Event>, pid: nat)
    requires Lawful(ctx.codec) && Leased(ctx, events)
    requires Quiet(Run(ctx, INITIAL, events), pid) && Idle(Run(ctx, INITIAL, events), pid)
    ensures var s := Run(ctx, INITIAL, events);
      && CanList(s)
      && (Read(ctx, s.files).Some? <==>
            exists m, es :: Stores(s.files, ctx.rules, ctx.codec, m, es) && TotalBytes(ctx.codec, m, es) <= STORE_MAX_TOTAL)
      && (s.files != map[] ==> exists m, es :: Stores(s.files, ctx.rules, ctx.codec, m, es))
  {
    hide Stores, TotalBytes, Recorded, CanList, ProcessesOk, Quiet, Idle, LeaseKept, EnvelopesOf;
    var holder := LeaseHolds(ctx, events);
    RunIsSound(ctx, events);
    var s := Run(ctx, INITIAL, events);
    hide Run;
    LeaseLists(ctx, s, holder, pid);
    ReadSucceedsIff(ctx, s);
  }

  /** The steps of one commit that is not stopped. */
  function Commit(pid: nat, e: Envelope): seq<Event> {
    [Begin(pid, WaveRequest(e)), Advance(pid, Write), Advance(pid, Ready), Advance(pid, Link), Advance(pid, Unlink),
     Advance(pid, Check)]
  }

  lemma {:induction false} RunAppend(ctx: Context, s: System, a: seq<Event>, b: seq<Event>)
    ensures Run(ctx, s, a + b) == Run(ctx, Run(ctx, s, a), b)
    decreases |b|
  {
    if b == [] {
      assert a + b == a;
    } else {
      RunAppend(ctx, s, a, b[..|b| - 1]);
      assert (a + b)[..|a + b| - 1] == a + b[..|b| - 1];
    }
  }

  lemma RunOne(ctx: Context, s: System, events: seq<Event>, event: Event)
    ensures Run(ctx, s, events + [event]) == Apply(ctx, Run(ctx, s, events), event)
  {
    assert (events + [event])[..|events|] == events;
  }
}
