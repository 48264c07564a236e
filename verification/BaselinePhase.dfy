/** One baseline concurrent-wave phase (diagnose-lib/baseline-phase.mjs): its schedule, the
    validation of a wave's envelope, the assessment of a prefix of waves, and the run of the
    next wave. Attempt evidence and its canonical binding are parameters. */
module BaselinePhase {
  import opened Text

  const MAX_CHILDREN := 64
  const MAX_WAVES := 65536
  const MAX_SCHEDULE_ENTRIES := 1000000

  type Evidence = string

  /** What the evidence module says of a record: whether it parses, whether its outcome is
      operationally valid, and its canonical binding. */
  datatype Rules = Rules(parses: Evidence -> bool, validOutcome: Evidence -> bool, binding: Evidence -> string,
                         workload: string, digest: Schedule -> string)

  datatype Schedule = Schedule(childrenPerWave: int, waves: int, attemptCount: int)

  datatype Manifest = Manifest(generation: string, workload: string, concurrencyMode: string, schedule: Schedule,
                               scheduleDigest: string)

  datatype Slot = Slot(ordinal: int, wave: int, position: int)

  datatype BoundAttempt = BoundAttempt(slot: Slot, binding: string, evidence: Evidence)

  datatype Envelope = Envelope(generation: string, workload: string, scheduleDigest: string, wave: int, childCount: int,
                               attempts: seq<BoundAttempt>)

  const CONCURRENCY_MODE := "independent-supervisors-v1"

  // Schedules and slots.

  predicate InRange(value: int, maximum: int) { 1 <= value <= maximum }

  function ScheduleIdentity(childrenPerWave: int, waves: int): Option<Schedule> {
    if InRange(childrenPerWave, MAX_CHILDREN) && InRange(waves, MAX_WAVES)
       && childrenPerWave * waves <= MAX_SCHEDULE_ENTRIES
    then Some(Schedule(childrenPerWave, waves, childrenPerWave * waves)) else None
  }

  predicate ValidSchedule(s: Schedule) { ScheduleIdentity(s.childrenPerWave, s.waves) == Some(s) }

  function ExpectedSlot(s: Schedule, wave: int, position: int): Slot {
    Slot((wave - 1) * s.childrenPerWave + position, wave, position)
  }

  predicate OnSchedule(s: Schedule, slot: Slot) {
    1 <= slot.wave <= s.waves && 1 <= slot.position <= s.childrenPerWave
    && slot == ExpectedSlot(s, slot.wave, slot.position)
  }

  /** Slots and ordinals 1..attemptCount correspond one to one. */
  lemma {:induction false} SlotOfOrdinal(s: Schedule, ordinal: int) returns (slot: Slot)
    requires ValidSchedule(s) && 1 <= ordinal <= s.attemptCount
    ensures OnSchedule(s, slot) && slot.ordinal == ordinal
    ensures forall other :: OnSchedule(s, other) && other.ordinal == ordinal ==> other == slot
  {
    var c := s.childrenPerWave;
    var w, p := (ordinal - 1) / c, (ordinal - 1) % c;
    QuotientBound(ordinal - 1, c, s.waves);
    slot := ExpectedSlot(s, w + 1, p + 1);
    forall other | OnSchedule(s, other) && other.ordinal == ordinal ensures other == slot {
      QuotientUnique(c, w, p, other.wave - 1, other.position - 1);
    }
  }

  lemma SlotOrdinalBounds(s: Schedule, slot: Slot)
    requires ValidSchedule(s) && OnSchedule(s, slot)
    ensures 1 <= slot.ordinal <= s.attemptCount
  {
    ProductMonotone(slot.wave - 1, s.waves - 1, s.childrenPerWave);
    assert (s.waves - 1) * s.childrenPerWave == s.attemptCount - s.childrenPerWave;
    ProductMonotone(0, slot.wave - 1, s.childrenPerWave);
  }

  lemma ProductMonotone(a: int, b: int, c: int)
    requires a <= b && 0 <= c
    ensures a * c <= b * c
  {
    assert (b - a) * c >= 0;
  }

  lemma QuotientBound(n: int, c: int, waves: int)
    requires 0 <= n < c * waves && 0 < c
    ensures 0 <= n / c < waves && n == (n / c) * c + n % c
  {
    if n / c >= waves { ProductMonotone(waves, n / c, c); }
  }

  lemma QuotientUnique(c: int, w: int, p: int, w': int, p': int)
    requires 0 <= p < c && 0 <= p' < c && w * c + p == w' * c + p'
    ensures w == w' && p == p'
  {
    if w < w' {
      ProductMonotone(w + 1, w', c);
    } else if w' < w {
      ProductMonotone(w' + 1, w, c);
    }
  }

  // Manifests and envelopes.

  predicate IsHex(c: char) { '0' <= c <= '9' || 'a' <= c <= 'f' }

  predicate IsGeneration(s: string) { |s| == 32 && forall i :: 0 <= i < 32 ==> IsHex(s[i]) }

  predicate ValidManifest(rules: Rules, m: Manifest) {
    && IsGeneration(m.generation) && m.workload == rules.workload && m.concurrencyMode == CONCURRENCY_MODE
    && ValidSchedule(m.schedule) && m.scheduleDigest == rules.digest(m.schedule)
  }

  lemma ManifestHasWaves(rules: Rules, m: Manifest)
    requires ValidManifest(rules, m)
    ensures 1 <= m.schedule.waves <= MAX_WAVES
  {
  }

  function BuildManifest(rules: Rules, generation: string, childrenPerWave: int, waves: int): (m: Option<Manifest>)
    ensures m.Some? <==> IsGeneration(generation) && ScheduleIdentity(childrenPerWave, waves).Some?
    ensures m.Some? ==> ValidManifest(rules, m.value) && m.value.schedule.childrenPerWave == childrenPerWave
                        && m.value.schedule.waves == waves
  {
    if !IsGeneration(generation) then None
    else match ScheduleIdentity(childrenPerWave, waves)
      case None => None
      case Some(s) => Some(Manifest(generation, rules.workload, CONCURRENCY_MODE, s, rules.digest(s)))
  }

  predicate ValidAttempt(rules: Rules, a: BoundAttempt, expected: Slot) {
    a.slot == expected && rules.parses(a.evidence) && rules.validOutcome(a.evidence)
    && a.binding == rules.binding(a.evidence)
  }

  /** validateWaveEnvelope. */
  predicate ValidEnvelope(rules: Rules, m: Manifest, e: Envelope) {
    && e.generation == m.generation && e.workload == rules.workload && e.scheduleDigest == m.scheduleDigest
    && InRange(e.wave, m.schedule.waves) && e.childCount == m.schedule.childrenPerWave
    && |e.attempts| == m.schedule.childrenPerWave
    && forall i :: 0 <= i < |e.attempts| ==> ValidAttempt(rules, e.attempts[i], ExpectedSlot(m.schedule, e.wave, i + 1))
  }

  lemma EnvelopeIsOnSchedule(rules: Rules, m: Manifest, e: Envelope)
    requires ValidEnvelope(rules, m, e)
    ensures 1 <= e.wave <= m.schedule.waves
  {
  }

  function BindAttempt(rules: Rules, s: Schedule, wave: int, evidence: Evidence, position: int): BoundAttempt {
    BoundAttempt(ExpectedSlot(s, wave, position), rules.binding(evidence), evidence)
  }

  function BoundEnvelope(rules: Rules, m: Manifest, wave: int, evidence: seq<Evidence>): Envelope {
    Envelope(m.generation, rules.workload, m.scheduleDigest, wave, m.schedule.childrenPerWave,
             seq(|evidence|, i requires 0 <= i < |evidence| => BindAttempt(rules, m.schedule, wave, evidence[i], i + 1)))
  }

  /** buildBaselineWaveEnvelope. */
  function BuildEnvelope(rules: Rules, m: Manifest, wave: int, evidence: seq<Evidence>): Option<Envelope> {
    if ValidManifest(rules, m) && InRange(wave, m.schedule.waves) && |evidence| == m.schedule.childrenPerWave
       && (forall i :: 0 <= i < |evidence| ==> rules.parses(evidence[i]))
       && ValidEnvelope(rules, m, BoundEnvelope(rules, m, wave, evidence))
    then Some(BoundEnvelope(rules, m, wave, evidence)) else None
  }

  /** Valid records, one a child, are all it takes; and every valid envelope is built from its
      own evidence. */
  lemma BuildSucceedsIff(rules: Rules, m: Manifest, wave: int, evidence: seq<Evidence>)
    ensures BuildEnvelope(rules, m, wave, evidence).Some? <==>
              && ValidManifest(rules, m) && InRange(wave, m.schedule.waves) && |evidence| == m.schedule.childrenPerWave
              && forall i :: 0 <= i < |evidence| ==> rules.parses(evidence[i]) && rules.validOutcome(evidence[i])
  {
    var e := BoundEnvelope(rules, m, wave, evidence);
    forall i | 0 <= i < |evidence|
      ensures ValidAttempt(rules, e.attempts[i], ExpectedSlot(m.schedule, wave, i + 1)) <==>
              rules.parses(evidence[i]) && rules.validOutcome(evidence[i])
    {
    }
  }

  lemma EnvelopeIsBuilt(rules: Rules, m: Manifest, e: Envelope)
    requires ValidManifest(rules, m) && ValidEnvelope(rules, m, e)
    ensures BuildEnvelope(rules, m, e.wave, seq(|e.attempts|, i requires 0 <= i < |e.attempts| => e.attempts[i].evidence))
            == Some(e)
  {
    var evidence := seq(|e.attempts|, i requires 0 <= i < |e.attempts| => e.attempts[i].evidence);
    var built := BoundEnvelope(rules, m, e.wave, evidence);
    forall i | 0 <= i < |evidence| ensures built.attempts[i] == e.attempts[i] {
      assert ValidAttempt(rules, e.attempts[i], ExpectedSlot(m.schedule, e.wave, i + 1));
    }
    assert built.attempts == e.attempts;
  }

  // Prefixes.

  ghost predicate IsPrefix(rules: Rules, m: Manifest, envelopes: seq<Envelope>) {
    && |envelopes| <= m.schedule.waves
    && forall i :: 0 <= i < |envelopes| ==> ValidEnvelope(rules, m, envelopes[i]) && envelopes[i].wave == i + 1
  }

  lemma PrefixIsBounded(rules: Rules, m: Manifest, envelopes: seq<Envelope>)
    requires IsPrefix(rules, m, envelopes)
    ensures |envelopes| <= m.schedule.waves
  {
  }

  datatype NextWave = NextWave(ordinal: int, firstAttemptOrdinal: int, childCount: int)

  datatype Progress = Progress(committedWaves: nat, committedAttempts: int, next: Option<NextWave>)

  /** assessPrefixWithContext. */
  method AssessPrefix(rules: Rules, m: Manifest, envelopes: seq<Envelope>) returns (r: Option<Progress>)
    ensures r.Some? <==> ValidManifest(rules, m) && IsPrefix(rules, m, envelopes)
    ensures r.Some? ==> r.value == ProgressOf(m, |envelopes|)
  {
    if !ValidManifest(rules, m) || |envelopes| > m.schedule.waves { return None; }
    for i := 0 to |envelopes|
      invariant forall k :: 0 <= k < i ==> ValidEnvelope(rules, m, envelopes[k]) && envelopes[k].wave == k + 1
    {
      if !ValidEnvelope(rules, m, envelopes[i]) || envelopes[i].wave != i + 1 { return None; }
    }
    return Some(ProgressOf(m, |envelopes|));
  }

  function ProgressOf(m: Manifest, committed: nat): Progress {
    var c := m.schedule.childrenPerWave;
    Progress(committed, committed * c,
             if committed == m.schedule.waves then None else Some(NextWave(committed + 1, committed * c + 1, c)))
  }

  /** The attempt with ordinal o in a prefix. */
  function AttemptAt(m: Manifest, envelopes: seq<Envelope>, o: int): Option<BoundAttempt>
    requires m.schedule.childrenPerWave > 0
  {
    var c := m.schedule.childrenPerWave;
    var w, p := (o - 1) / c, (o - 1) % c;
    if 0 <= w < |envelopes| && p < |envelopes[w].attempts| then Some(envelopes[w].attempts[p]) else None
  }

  /** Quotient and remainder of an ordinal, and the ordinals they cover. */
  lemma OrdinalParts(o: int, c: int, waves: nat)
    requires c > 0
    ensures var w, p := (o - 1) / c, (o - 1) % c;
      o - 1 == w * c + p && 0 <= p < c && (0 <= w < waves <==> 1 <= o <= waves * c)
  {
    var w := (o - 1) / c;
    if 1 <= o <= waves * c { QuotientBound(o - 1, c, waves); }
    if 0 <= w < waves {
      ProductMonotone(w + 1, waves, c);
      ProductMonotone(0, w, c);
    }
  }

  predicate GoodAttempt(rules: Rules, s: Schedule, a: BoundAttempt) {
    && OnSchedule(s, a.slot) && rules.parses(a.evidence) && rules.validOutcome(a.evidence)
    && a.binding == rules.binding(a.evidence)
  }

  /** The attempt in a wave's place. */
  lemma AttemptInPlace(rules: Rules, m: Manifest, envelopes: seq<Envelope>, i: nat, j: nat)
    requires IsPrefix(rules, m, envelopes) && i < |envelopes| && j < |envelopes[i].attempts|
    ensures |envelopes[i].attempts| == m.schedule.childrenPerWave
    ensures envelopes[i].attempts[j].slot.ordinal == i * m.schedule.childrenPerWave + j + 1
    ensures GoodAttempt(rules, m.schedule, envelopes[i].attempts[j])
  {
    assert ValidEnvelope(rules, m, envelopes[i]);
    assert ValidAttempt(rules, envelopes[i].attempts[j], ExpectedSlot(m.schedule, i + 1, j + 1));
  }

  lemma WavesAreFull(rules: Rules, m: Manifest, envelopes: seq<Envelope>)
    requires ValidManifest(rules, m) && IsPrefix(rules, m, envelopes)
    ensures m.schedule.childrenPerWave > 0
    ensures forall i :: 0 <= i < |envelopes| ==> |envelopes[i].attempts| == m.schedule.childrenPerWave
  {
    hide ValidAttempt;
  }

  lemma ManifestHasChildren(rules: Rules, m: Manifest)
    requires ValidManifest(rules, m)
    ensures m.schedule.childrenPerWave > 0
  {
  }

  /** A prefix of k waves holds one valid attempt for each ordinal from 1 to k times the number
      of children, for no other, and nowhere twice. */
  lemma OneAttemptPerOrdinal(rules: Rules, m: Manifest, envelopes: seq<Envelope>, o: int)
    requires ValidManifest(rules, m) && IsPrefix(rules, m, envelopes)
    ensures AttemptAt(m, envelopes, o).Some? <==> 1 <= o <= ProgressOf(m, |envelopes|).committedAttempts
    ensures AttemptAt(m, envelopes, o).Some? ==>
              var a := AttemptAt(m, envelopes, o).value;
              a.slot.ordinal == o && OnSchedule(m.schedule, a.slot) && rules.parses(a.evidence)
              && rules.validOutcome(a.evidence) && a.binding == rules.binding(a.evidence)
    ensures forall i, j :: 0 <= i < |envelopes| && 0 <= j < |envelopes[i].attempts|
                           && envelopes[i].attempts[j].slot.ordinal == o ==>
              AttemptAt(m, envelopes, o) == Some(envelopes[i].attempts[j])
  {
    ManifestHasChildren(rules, m);
    hide ValidManifest, IsPrefix, OnSchedule;
    var c := m.schedule.childrenPerWave;
    var w, p := (o - 1) / c, (o - 1) % c;
    WavesAreFull(rules, m, envelopes);
    OrdinalParts(o, c, |envelopes|);
    if 0 <= w < |envelopes| { AttemptInPlace(rules, m, envelopes, w, p); }
    forall i, j | 0 <= i < |envelopes| && 0 <= j < |envelopes[i].attempts| && envelopes[i].attempts[j].slot.ordinal == o
      ensures AttemptAt(m, envelopes, o) == Some(envelopes[i].attempts[j])
    {
      AttemptInPlace(rules, m, envelopes, i, j);
      QuotientUnique(c, w, p, i, j);
    }
  }

  // The next wave.

  /** What one attempt comes to: an error of the runner, a result the evidence module refuses,
      or evidence. */
  datatype Attempted = RunnerError(code: string) | BadResult(code: string) | Returned(evidence: Evidence)

  datatype Status = StatusRunnerError | OperationalInvalid | Valid

  datatype ChildResult = ChildResult(status: Status, slot: Slot, code: string, evidence: Option<Evidence>)

  function Judge(rules: Rules, slot: Slot, a: Attempted): ChildResult {
    match a
    case RunnerError(code) => ChildResult(StatusRunnerError, slot, code, None)
    case BadResult(code) => ChildResult(StatusRunnerError, slot, code, None)
    case Returned(e) =>
      ChildResult(if rules.validOutcome(e) then Valid else OperationalInvalid, slot, "", Some(e))
  }

  datatype WaveResult =
    | AlreadyComplete
    | NotCommitted(wave: NextWave, reason: ChildResult, attempts: seq<ChildResult>)
    | Committed(wave: NextWave, envelope: Envelope)

  /** The children finish in some order; each may come out differently once the wave has been
      aborted, by the caller or by the first failure. */
  ghost predicate IsOrder(order: seq<nat>, n: int) {
    |order| == n && (forall i :: 0 <= i < n ==> order[i] < n)
    && (forall i, j :: 0 <= i < j < n ==> order[i] != order[j])
    && (forall k: nat :: k < n ==> k in order)
  }

  predicate SoundOutcome(rules: Rules, a: Attempted) { a.Returned? ==> rules.parses(a.evidence) }

  /** runNextBaselinePhaseWave. */
  method RunNextWave(rules: Rules, m: Manifest, envelopes: seq<Envelope>, order: seq<nat>,
                     run: (nat, bool) -> Attempted, abortedAtStart: bool)
    returns (r: Option<WaveResult>)
    requires ValidManifest(rules, m) ==> IsOrder(order, m.schedule.childrenPerWave)
    requires forall i: nat, b :: SoundOutcome(rules, run(i, b))
    ensures r.None? <==> !ValidManifest(rules, m) || !IsPrefix(rules, m, envelopes)
    ensures r == Some(AlreadyComplete) <==>
              ValidManifest(rules, m) && IsPrefix(rules, m, envelopes) && |envelopes| == m.schedule.waves
    ensures r.Some? && r.value.Committed? ==>
              IsPrefix(rules, m, envelopes + [r.value.envelope]) && r.value.wave.ordinal == |envelopes| + 1
    ensures r.Some? && r.value.Committed? ==> |r.value.envelope.attempts| == m.schedule.childrenPerWave
    ensures r.Some? && r.value.Committed? ==> forall i: nat :: i < m.schedule.childrenPerWave ==>
              run(i, abortedAtStart) == Returned(r.value.envelope.attempts[i].evidence)
    ensures r.Some? && r.value.NotCommitted? ==>
              && r.value.reason.status != Valid && r.value.reason in r.value.attempts
              && |r.value.attempts| == m.schedule.childrenPerWave
              && FirstFailure(rules, m, r.value.wave, order, run, abortedAtStart, r.value.reason)
  {
    var progress := AssessPrefix(rules, m, envelopes);
    match progress {
      case None => return None;
      case Some(p) =>
        match p.next {
          case None => return Some(AlreadyComplete);
          case Some(wave) =>
            var attempts, first := RunChildren(rules, m, wave, order, run, abortedAtStart);
            match first {
              case Some(failure) => return Some(NotCommitted(wave, failure, attempts));
              case None =>
                var evidence := seq(|attempts|, i requires 0 <= i < |attempts| => EvidenceOf(attempts[i]));
                BuildSucceedsIff(rules, m, wave.ordinal, evidence);
                var e := BuildEnvelope(rules, m, wave.ordinal, evidence);
                return Some(Committed(wave, e.value));
            }
        }
    }
  }

  function EvidenceOf(c: ChildResult): Evidence { match c.evidence case Some(e) => e case None => "" }

  function ChildAt(rules: Rules, m: Manifest, wave: NextWave, run: (nat, bool) -> Attempted, aborted: bool, i: nat)
    : ChildResult
  {
    Judge(rules, ExpectedSlot(m.schedule, wave.ordinal, i + 1), run(i, aborted))
  }

  /** The reason given is the first child to finish that is not valid. */
  ghost predicate FirstFailure(rules: Rules, m: Manifest, wave: NextWave, order: seq<nat>,
                               run: (nat, bool) -> Attempted, abortedAtStart: bool, reason: ChildResult)
  {
    exists k :: 0 <= k < |order| && reason == ChildAt(rules, m, wave, run, abortedAtStart, order[k])
      && forall j :: 0 <= j < k ==> ChildAt(rules, m, wave, run, abortedAtStart, order[j]).status == Valid
  }

  method RunChildren(rules: Rules, m: Manifest, wave: NextWave, order: seq<nat>, run: (nat, bool) -> Attempted,
                     abortedAtStart: bool)
    returns (attempts: seq<ChildResult>, first: Option<ChildResult>)
    requires ValidManifest(rules, m) && IsOrder(order, m.schedule.childrenPerWave)
    ensures |attempts| == m.schedule.childrenPerWave
    ensures first.None? ==> forall i: nat :: i < |attempts| ==>
              attempts[i] == ChildAt(rules, m, wave, run, abortedAtStart, i) && attempts[i].status == Valid
    ensures first.Some? ==>
              && first.value.status != Valid && first.value in attempts
              && FirstFailure(rules, m, wave, order, run, abortedAtStart, first.value)
  {
    var n := m.schedule.childrenPerWave;
    var done: array<ChildResult> := new ChildResult[n](_ => ChildResult(Valid, Slot(0, 0, 0), "", None));
    var aborted := abortedAtStart;
    first := None;
    ghost var at: nat := 0;
    for k := 0 to n
      invariant first.None? ==> aborted == abortedAtStart
      invariant first.None? ==> forall j :: 0 <= j < k ==>
                  done[order[j]] == ChildAt(rules, m, wave, run, abortedAtStart, order[j]) && done[order[j]].status == Valid
      invariant first.Some? ==>
                  && at < k && first.value.status != Valid && done[order[at]] == first.value
                  && first.value == ChildAt(rules, m, wave, run, abortedAtStart, order[at])
                  && forall j :: 0 <= j < at ==> ChildAt(rules, m, wave, run, abortedAtStart, order[j]).status == Valid
    {
      var i := order[k];
      done[i] := ChildAt(rules, m, wave, run, aborted, i);
      if done[i].status != Valid {
        if first.None? {
          first := Some(done[i]);
          at := k;
        }
        aborted := true;
      }
    }
    attempts := done[..];
    if first.None? {
      forall i: nat | i < n ensures attempts[i] == ChildAt(rules, m, wave, run, abortedAtStart, i) && attempts[i].status == Valid {
        assert i in order;
        var k :| 0 <= k < n && order[k] == i;
      }
    } else {
      assert attempts[order[at]] == first.value;
    }
  }
}
