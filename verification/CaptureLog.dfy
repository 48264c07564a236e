/** The capture loop of capture-fault.sh and the reader of its log (gdb_run_counts_read and
    gdb_result_is_complete in diagnose.sh): the accepted logs are exactly the emitted ones. */
module CaptureLog {
  import opened Text

  datatype Config = Config(generation: string, cpu: string, maxRuns: nat, maxCaptures: nat)

  const SAFE_LIMIT: nat := 9007199254740992

  const MAX_LINE := 512

  predicate IsHex(c: char) { '0' <= c <= '9' || 'a' <= c <= 'f' }

  /** The arguments both programs check. */
  predicate ValidConfig(cfg: Config) {
    && |cfg.generation| == 32 && (forall i :: 0 <= i < 32 ==> IsHex(cfg.generation[i]))
    && IsCanonical(cfg.cpu) && 0 < cfg.maxRuns < SAFE_LIMIT && 0 < cfg.maxCaptures < SAFE_LIMIT
  }

  datatype Outcome = Clean | Captured | Error
  {
    function Word(): string {
      match this case Clean => "clean" case Captured => "captured" case Error => "error"
    }
  }

  /** The transcript helper's answer for one run; an overflow counts as an error. */
  datatype Helper = Reported(outcome: Outcome) | Overflow | HelperFailed

  function Count(outcomes: seq<Outcome>, o: Outcome): nat
    decreases |outcomes|
  {
    if outcomes == [] then 0
    else Count(outcomes[..|outcomes| - 1], o) + if outcomes[|outcomes| - 1] == o then 1 else 0
  }

  lemma {:induction false} CountsAddUp(outcomes: seq<Outcome>)
    ensures Count(outcomes, Clean) + Count(outcomes, Captured) + Count(outcomes, Error) == |outcomes|
    decreases |outcomes|
  {
    if outcomes != [] { CountsAddUp(outcomes[..|outcomes| - 1]); }
  }

  lemma CountSnoc(outcomes: seq<Outcome>, last: Outcome, o: Outcome)
    ensures Count(outcomes + [last], o) == Count(outcomes, o) + if last == o then 1 else 0
  {
    assert (outcomes + [last])[..|outcomes|] == outcomes;
  }

  // The text of a record.

  /** The common head of every record. */
  function Head(word: string, cfg: Config): string {
    word + "\tGENERATION\t" + cfg.generation + "\tCPU\t" + cfg.cpu + "\tMAX_RUNS\t" + Decimal(cfg.maxRuns)
    + "\tMAX_CAPTURES\t" + Decimal(cfg.maxCaptures)
  }

  /** A labelled number. */
  function Field(name: string, n: nat): string { name + Decimal(n) }

  function AttemptPrefix(cfg: Config, run: nat): string {
    Head("ATTEMPT", cfg) + Field("\tRUN\t", run) + "\tOUTCOME\t"
  }

  function AttemptLine(cfg: Config, run: nat, o: Outcome): string { AttemptPrefix(cfg, run) + o.Word() }

  function CountsPrefix(cfg: Config, run: nat, clean: nat, captured: nat, errors: nat): string {
    Head("COUNTS", cfg) + Field("\tATTEMPTED\t", run) + Field("\tCLEAN\t", clean) + Field("\tCAPTURED\t", captured)
    + Field("\tERRORS\t", errors) + "\tEXIT_CODE\t"
  }

  function Attempts(cfg: Config, outcomes: seq<Outcome>): seq<string>
    decreases |outcomes|
  {
    if outcomes == [] then []
    else Attempts(cfg, outcomes[..|outcomes| - 1]) + [AttemptLine(cfg, |outcomes|, outcomes[|outcomes| - 1])]
  }

  function CountsLine(cfg: Config, outcomes: seq<Outcome>, code: nat): string {
    CountsPrefix(cfg, |outcomes|, Count(outcomes, Clean), Count(outcomes, Captured), Count(outcomes, Error))
    + Decimal(code)
  }

  // The capture loop.

  /** The outcomes recorded and the exit code, from the state after some runs. */
  function Loop(cfg: Config, helper: nat -> Helper, done: seq<Outcome>): (seq<Outcome>, nat)
    requires |done| <= cfg.maxRuns
    decreases cfg.maxRuns - |done|
  {
    if |done| == cfg.maxRuns then
      (done, if Count(done, Captured) > 0 then 0 else if Count(done, Clean) == 0 then 5 else 3)
    else
      match helper(|done| + 1)
      case HelperFailed => (done, 5)
      case Overflow => Loop(cfg, helper, done + [Error])
      case Reported(o) =>
        if o.Captured? && Count(done, Captured) + 1 >= cfg.maxCaptures then (done + [o], 0)
        else Loop(cfg, helper, done + [o])
  }

  method Capture(cfg: Config, helper: nat -> Helper) returns (log: seq<string>, code: nat)
    ensures var (outcomes, c) := Loop(cfg, helper, []);
      && code == c
      && log == Attempts(cfg, outcomes) + (if code == 5 then [] else [CountsLine(cfg, outcomes, code)])
  {
    hide AttemptLine, CountsLine;
    var captures, clean, errors := 0, 0, 0;
    ghost var done: seq<Outcome> := [];
    log := [];
    var run := 1;
    while run <= cfg.maxRuns
      invariant run == |done| + 1 && |done| <= cfg.maxRuns
      invariant log == Attempts(cfg, done) && Loop(cfg, helper, []) == Loop(cfg, helper, done)
      invariant captures == Count(done, Captured) && clean == Count(done, Clean) && errors == Count(done, Error)
      decreases cfg.maxRuns - run
    {
      var answer := helper(run);
      if answer.HelperFailed? { return log, 5; }
      var outcome := if answer.Overflow? then Error else answer.outcome;
      CountSnoc(done, outcome, Captured);
      CountSnoc(done, outcome, Clean);
      CountSnoc(done, outcome, Error);
      assert (done + [outcome])[..|done|] == done;
      log := log + [AttemptLine(cfg, run, outcome)];
      done := done + [outcome];
      match outcome {
        case Captured =>
          captures := captures + 1;
          if captures >= cfg.maxCaptures {
            log := log + [CountsText(cfg, run, clean, captures, errors, 0, done)];
            return log, 0;
          }
        case Clean => clean := clean + 1;
        case Error => errors := errors + 1;
      }
      run := run + 1;
    }
    if captures > 0 { return log + [CountsText(cfg, cfg.maxRuns, clean, captures, errors, 0, done)], 0; }
    if clean == 0 { return log, 5; }
    return log + [CountsText(cfg, cfg.maxRuns, clean, captures, errors, 3, done)], 3;
  }

  /** emit_counts. */
  function CountsText(cfg: Config, attempted: nat, clean: nat, captures: nat, errors: nat, code: nat,
                      ghost done: seq<Outcome>): (line: string)
    requires attempted == |done| && clean == Count(done, Clean) && captures == Count(done, Captured)
    requires errors == Count(done, Error)
    ensures line == CountsLine(cfg, done, code)
  {
    CountsPrefix(cfg, attempted, clean, captures, errors) + Decimal(code)
  }

  // The reader.

  datatype Scan = Scan(run: nat, clean: nat, captured: nat, errors: nat, capRun: nat, terminal: Option<nat>)

  const FRESH: Scan := Scan(0, 0, 0, 0, 0, None)

  predicate HasPrefix(prefix: string, line: string) { prefix <= line }

  function ReadAttempt(cfg: Config, s: Scan, line: string): Option<Scan> {
    var prefix := AttemptPrefix(cfg, s.run + 1);
    if s.capRun != 0 || !HasPrefix(prefix, line) then None
    else
      var next := s.(run := s.run + 1);
      if line == prefix + Clean.Word() then Some(next.(clean := s.clean + 1))
      else if line == prefix + Captured.Word() then
        Some(next.(captured := s.captured + 1,
                   capRun := if s.captured + 1 == cfg.maxCaptures then s.run + 1 else s.capRun))
      else if line == prefix + Error.Word() then Some(next.(errors := s.errors + 1))
      else None
  }

  function ReadCounts(cfg: Config, s: Scan, line: string): Option<Scan> {
    var prefix := CountsPrefix(cfg, s.run, s.clean, s.captured, s.errors);
    if line == prefix + "0" then Some(s.(terminal := Some(0)))
    else if line == prefix + "3" then Some(s.(terminal := Some(3)))
    else None
  }

  function ReadLine(cfg: Config, s: Scan, line: string): Option<Scan> {
    if s.terminal.Some? then None
    else if HasPrefix("ATTEMPT\t", line) then ReadAttempt(cfg, s, line)
    else if HasPrefix("COUNTS\t", line) then ReadCounts(cfg, s, line)
    else None
  }

  function ReadLines(cfg: Config, lines: seq<string>): Option<Scan>
    decreases |lines|
  {
    if lines == [] then Some(FRESH)
    else
      match ReadLines(cfg, lines[..|lines| - 1])
      case None => None
      case Some(s) => ReadLine(cfg, s, lines[|lines| - 1])
  }

  predicate Printable(line: string) { forall i :: 0 <= i < |line| ==> ' ' <= line[i] <= '~' || line[i] == '\t' }

  /** The checks before the reading loop. */
  predicate WellFormed(cfg: Config, lines: seq<string>) {
    && ValidConfig(cfg) && 2 <= |lines| <= cfg.maxRuns + 1
    && forall i :: 0 <= i < |lines| ==> Printable(lines[i]) && |lines[i]| <= MAX_LINE
  }

  /** The checks after it. */
  predicate Reconciles(cfg: Config, s: Scan) {
    && s.terminal.Some? && 1 <= s.run <= cfg.maxRuns && s.run == s.clean + s.captured + s.errors
    && if s.terminal.value == 0
       then 1 <= s.captured <= cfg.maxCaptures && (s.run == cfg.maxRuns || s.captured == cfg.maxCaptures)
       else s.run == cfg.maxRuns && s.captured == 0 && s.clean >= 1
  }

  /** gdb_run_counts_read. */
  function Read(cfg: Config, lines: seq<string>): Option<Scan> {
    if !WellFormed(cfg, lines) then None
    else
      match ReadLines(cfg, lines)
      case None => None
      case Some(s) => if Reconciles(cfg, s) then Some(s) else None
  }

  method ReadLog(cfg: Config, lines: seq<string>) returns (r: Option<Scan>)
    ensures r == Read(cfg, lines)
  {
    hide ReadLine, WellFormed, Reconciles;
    if !WellFormed(cfg, lines) { return None; }
    var s := FRESH;
    for k := 0 to |lines|
      invariant ReadLines(cfg, lines[..k]) == Some(s)
    {
      assert lines[..k + 1][..k] == lines[..k];
      var next := ReadLine(cfg, s, lines[k]);
      if next.None? {
        RefusalIsFinal(cfg, lines, k + 1);
        return None;
      }
      s := next.value;
    }
    assert lines[..|lines|] == lines;
    return if Reconciles(cfg, s) then Some(s) else None;
  }

  lemma {:induction false} RefusalIsFinal(cfg: Config, lines: seq<string>, k: nat)
    requires k <= |lines| && ReadLines(cfg, lines[..k]).None?
    ensures ReadLines(cfg, lines).None?
    decreases |lines|
  {
    hide ReadLine;
    if k == |lines| {
      assert lines[..k] == lines;
    } else {
      var front := lines[..|lines| - 1];
      assert front[..k] == lines[..k];
      RefusalIsFinal(cfg, front, k);
    }
  }

  /** gdb_result_is_complete. */
  predicate IsComplete(code: nat, maxRuns: nat, attempted: nat, clean: nat, captured: nat, errors: nat) {
    && 0 < maxRuns < SAFE_LIMIT && attempted <= maxRuns && attempted == clean + captured + errors
    && ((code == 0 && captured >= 1) || (code == 3 && attempted == maxRuns && captured == 0 && clean >= 1))
  }

  // Emitted and accepted logs are the same.

  /** These outcomes bring the loop to its COUNTS record with this code. */
  predicate Completes(cfg: Config, outcomes: seq<Outcome>, code: nat) {
    && 1 <= |outcomes| <= cfg.maxRuns && Count(outcomes[..|outcomes| - 1], Captured) < cfg.maxCaptures
    && if Count(outcomes, Captured) >= cfg.maxCaptures then code == 0
       else |outcomes| == cfg.maxRuns
            && if Count(outcomes, Captured) > 0 then code == 0 else Count(outcomes, Clean) > 0 && code == 3
  }

  lemma {:induction false} CountGrows(outcomes: seq<Outcome>, k: nat, o: Outcome)
    requires k <= |outcomes|
    ensures Count(outcomes[..k], o) <= Count(outcomes, o)
    decreases |outcomes|
  {
    if k == |outcomes| {
      assert outcomes[..k] == outcomes;
    } else {
      assert outcomes[..|outcomes| - 1][..k] == outcomes[..k];
      CountGrows(outcomes[..|outcomes| - 1], k, o);
    }
  }

  lemma {:induction false} LoopCompletes(cfg: Config, helper: nat -> Helper, done: seq<Outcome>)
    requires |done| <= cfg.maxRuns && 0 < cfg.maxRuns && Count(done, Captured) < cfg.maxCaptures
    ensures var (outcomes, code) := Loop(cfg, helper, done);
      code != 5 ==> Completes(cfg, outcomes, code)
    decreases cfg.maxRuns - |done|
  {
    if |done| == cfg.maxRuns {
      CountGrows(done, |done| - 1, Captured);
    } else if !helper(|done| + 1).HelperFailed? {
      var o := if helper(|done| + 1).Overflow? then Error else helper(|done| + 1).outcome;
      CountSnoc(done, o, Captured);
      assert (done + [o])[..|done|] == done;
      if !(o.Captured? && Count(done, Captured) + 1 >= cfg.maxCaptures) { LoopCompletes(cfg, helper, done + [o]); }
    }
  }

  lemma ProperPrefix(cfg: Config, outcomes: seq<Outcome>, k: nat)
    requires k < |outcomes| && Count(outcomes[..|outcomes| - 1], Captured) < cfg.maxCaptures
    ensures Count(outcomes[..k], Captured) < cfg.maxCaptures
  {
    hide Count;
    var front := outcomes[..|outcomes| - 1];
    assert front[..k] == outcomes[..k];
    CountGrows(front, k, Captured);
  }

  /** A helper that reports these outcomes makes the loop emit them. */
  lemma {:induction false} CompletedIsLooped(cfg: Config, helper: nat -> Helper, outcomes: seq<Outcome>, code: nat, k: nat)
    requires Completes(cfg, outcomes, code) && k < |outcomes|
    requires forall i :: 0 <= i < |outcomes| ==> helper(i + 1) == Reported(outcomes[i])
    ensures Loop(cfg, helper, outcomes[..k]) == (outcomes, code)
    decreases |outcomes| - k
  {
    hide Count;
    var done, o := outcomes[..k], outcomes[k];
    assert done + [o] == outcomes[..k + 1];
    assert helper(k + 1) == Reported(o);
    CountSnoc(done, o, Captured);
    ProperPrefix(cfg, outcomes, k);
    if k + 1 < |outcomes| {
      ProperPrefix(cfg, outcomes, k + 1);
      CompletedIsLooped(cfg, helper, outcomes, code, k + 1);
    } else {
      assert outcomes[..k + 1] == outcomes;
    }
  }

  /** What the reader knows after the attempts. */
  function Tally(cfg: Config, outcomes: seq<Outcome>): Scan {
    Scan(|outcomes|, Count(outcomes, Clean), Count(outcomes, Captured), Count(outcomes, Error),
         if Count(outcomes, Captured) == cfg.maxCaptures then |outcomes| else 0, None)
  }

  lemma WordsDiffer(prefix: string, a: Outcome, b: Outcome)
    ensures (prefix + a.Word() == prefix + b.Word()) <==> a == b
  {
    var x, y := prefix + a.Word(), prefix + b.Word();
    assert x[|prefix|..] == a.Word() && y[|prefix|..] == b.Word();
    assert "clean"[0] == 'c' && "captured"[1] == 'a' && "clean"[1] == 'l' && "error"[0] == 'e';
  }

  lemma HeadStarts(word: string, cfg: Config, rest: string)
    ensures HasPrefix(word + "\t", Head(word, cfg) + rest)
  {
    var line := Head(word, cfg) + rest;
    assert line[..|word|] == word && line[|word|] == '\t';
    assert line == word + "\t" + line[|word| + 1..];
  }

  lemma AttemptHeads(cfg: Config, run: nat, rest: string)
    ensures HasPrefix("ATTEMPT\t", AttemptPrefix(cfg, run) + rest)
    ensures HasPrefix(AttemptPrefix(cfg, run), AttemptPrefix(cfg, run) + rest)
  {
    hide Head, Field;
    var tail := Field("\tRUN\t", run) + "\tOUTCOME\t" + rest;
    assert AttemptPrefix(cfg, run) + rest == Head("ATTEMPT", cfg) + tail;
    HeadStarts("ATTEMPT", cfg, tail);
    assert "ATTEMPT" + "\t" == "ATTEMPT\t";
  }

  lemma CountsHeads(cfg: Config, run: nat, clean: nat, captured: nat, errors: nat, rest: string)
    ensures var line := CountsPrefix(cfg, run, clean, captured, errors) + rest;
      HasPrefix("COUNTS\t", line) && !HasPrefix("ATTEMPT\t", line)
  {
    hide Head, Field;
    var tail := Field("\tATTEMPTED\t", run) + Field("\tCLEAN\t", clean) + Field("\tCAPTURED\t", captured)
      + Field("\tERRORS\t", errors) + "\tEXIT_CODE\t" + rest;
    assert CountsPrefix(cfg, run, clean, captured, errors) + rest == Head("COUNTS", cfg) + tail;
    HeadStarts("COUNTS", cfg, tail);
    assert "COUNTS" + "\t" == "COUNTS\t" && "COUNTS\t"[0] == 'C' && "ATTEMPT\t"[0] == 'A';
  }

  lemma WordIsRead(cfg: Config, s: Scan, o: Outcome)
    requires s.capRun == 0
    ensures ReadAttempt(cfg, s, AttemptLine(cfg, s.run + 1, o)) ==
            Some(match o
                 case Clean => s.(run := s.run + 1, clean := s.clean + 1)
                 case Captured =>
                   s.(run := s.run + 1, captured := s.captured + 1,
                      capRun := if s.captured + 1 == cfg.maxCaptures then s.run + 1 else s.capRun)
                 case Error => s.(run := s.run + 1, errors := s.errors + 1))
  {
    hide AttemptPrefix, Outcome.Word, HasPrefix;
    var prefix := AttemptPrefix(cfg, s.run + 1);
    AttemptHeads(cfg, s.run + 1, o.Word());
    WordsDiffer(prefix, o, Clean);
    WordsDiffer(prefix, o, Captured);
    WordsDiffer(prefix, o, Error);
  }

  lemma AttemptLineHead(cfg: Config, run: nat, o: Outcome)
    ensures HasPrefix("ATTEMPT\t", AttemptLine(cfg, run, o))
  {
    hide AttemptPrefix, Outcome.Word, HasPrefix;
    AttemptHeads(cfg, run, o.Word());
  }

  lemma TallyGrows(cfg: Config, outcomes: seq<Outcome>, o: Outcome)
    requires Count(outcomes, Captured) < cfg.maxCaptures
    ensures var s := Tally(cfg, outcomes);
      && s.capRun == 0 && s.terminal.None? && s.run == |outcomes|
      && Tally(cfg, outcomes + [o]) ==
         match o
         case Clean => s.(run := s.run + 1, clean := s.clean + 1)
         case Captured =>
           s.(run := s.run + 1, captured := s.captured + 1,
              capRun := if s.captured + 1 == cfg.maxCaptures then s.run + 1 else s.capRun)
         case Error => s.(run := s.run + 1, errors := s.errors + 1)
  {
    hide Count;
    CountSnoc(outcomes, o, Clean);
    CountSnoc(outcomes, o, Captured);
    CountSnoc(outcomes, o, Error);
  }

  /** One attempt line advances the tally. */
  lemma AttemptIsRead(cfg: Config, outcomes: seq<Outcome>, o: Outcome)
    requires Count(outcomes, Captured) < cfg.maxCaptures
    ensures ReadLine(cfg, Tally(cfg, outcomes), AttemptLine(cfg, |outcomes| + 1, o)) == Some(Tally(cfg, outcomes + [o]))
  {
    hide AttemptLine, HasPrefix, Count, ReadAttempt, ReadCounts, Tally;
    AttemptLineHead(cfg, |outcomes| + 1, o);
    TallyGrows(cfg, outcomes, o);
    WordIsRead(cfg, Tally(cfg, outcomes), o);
  }

  lemma {:induction false} AttemptsAreRead(cfg: Config, outcomes: seq<Outcome>)
    requires outcomes == [] || Count(outcomes[..|outcomes| - 1], Captured) < cfg.maxCaptures
    requires cfg.maxCaptures > 0
    ensures ReadLines(cfg, Attempts(cfg, outcomes)) == Some(Tally(cfg, outcomes))
    decreases |outcomes|
  {
    hide ReadLine, AttemptLine, Count, Tally;
    if outcomes == [] {
      NothingIsTallied(cfg);
    } else {
      var front, o := outcomes[..|outcomes| - 1], outcomes[|outcomes| - 1];
      if front != [] { CountGrows(front, |front| - 1, Captured); }
      AttemptsAreRead(cfg, front);
      AttemptIsRead(cfg, front, o);
      assert front + [o] == outcomes;
      var lines := Attempts(cfg, front) + [AttemptLine(cfg, |outcomes|, o)];
      assert lines[..|lines| - 1] == Attempts(cfg, front);
    }
  }

  lemma NothingIsTallied(cfg: Config)
    requires cfg.maxCaptures > 0
    ensures Tally(cfg, []) == FRESH
  {
  }

  /** Every log the loop completes is read back with its own counts and code. */
  lemma EmittedIsRead(cfg: Config, outcomes: seq<Outcome>, code: nat)
    requires Completes(cfg, outcomes, code) && cfg.maxCaptures > 0
    ensures var lines := Attempts(cfg, outcomes) + [CountsLine(cfg, outcomes, code)];
      ReadLines(cfg, lines) == Some(Tally(cfg, outcomes).(terminal := Some(code)))
      && Reconciles(cfg, Tally(cfg, outcomes).(terminal := Some(code)))
  {
    var lines := Attempts(cfg, outcomes) + [CountsLine(cfg, outcomes, code)];
    assert lines[..|lines| - 1] == Attempts(cfg, outcomes);
    AttemptsAreRead(cfg, outcomes);
    CountsAddUp(outcomes);
    CountSnoc(outcomes[..|outcomes| - 1], outcomes[|outcomes| - 1], Captured);
    assert outcomes[..|outcomes| - 1] + [outcomes[|outcomes| - 1]] == outcomes;
    CountsAreRead(cfg, outcomes, code);
    hide ReadLine, CountsLine, Attempts, Count;
  }

  lemma CountsAreRead(cfg: Config, outcomes: seq<Outcome>, code: nat)
    requires code == 0 || code == 3
    ensures ReadLine(cfg, Tally(cfg, outcomes), CountsLine(cfg, outcomes, code)) ==
            Some(Tally(cfg, outcomes).(terminal := Some(code)))
  {
    var prefix := CountsPrefix(cfg, |outcomes|, Count(outcomes, Clean), Count(outcomes, Captured), Count(outcomes, Error));
    CountsHeads(cfg, |outcomes|, Count(outcomes, Clean), Count(outcomes, Captured), Count(outcomes, Error), Decimal(code));
    assert Decimal(0) == "0" && Decimal(3) == "3";
    assert (prefix + "0")[|prefix|] == '0' && (prefix + "3")[|prefix|] == '3';
    hide CountsPrefix, Count, HasPrefix;
  }

  /** Whatever the reader takes in is a run of the loop. */
  lemma {:induction false} ReadIsEmitted(cfg: Config, lines: seq<string>) returns (outcomes: seq<Outcome>)
    requires ReadLines(cfg, lines).Some? && cfg.maxCaptures > 0
    ensures outcomes == [] || Count(outcomes[..|outcomes| - 1], Captured) < cfg.maxCaptures
    ensures var s := ReadLines(cfg, lines).value;
      s == Tally(cfg, outcomes).(terminal := s.terminal)
      && (s.terminal.None? ==> lines == Attempts(cfg, outcomes))
      && (s.terminal.Some? ==>
            && (s.terminal.value == 0 || s.terminal.value == 3)
            && lines == Attempts(cfg, outcomes) + [CountsLine(cfg, outcomes, s.terminal.value)])
    decreases |lines|
  {
    hide Count, AttemptLine, CountsLine, ReadLine;
    outcomes := [];
    if lines == [] {
      assert Count([], Captured) == 0 && Count([], Clean) == 0 && Count([], Error) == 0 by { NoCounts(); }
    } else {
      var front, line := lines[..|lines| - 1], lines[|lines| - 1];
      assert lines == front + [line];
      outcomes := ReadIsEmitted(cfg, front);
      var s := ReadLines(cfg, front).value;
      assert s.terminal.None? by { TerminalIsLast(cfg, s, line); }
      if HasPrefix("ATTEMPT\t", line) {
        var o := AttemptWasEmitted(cfg, outcomes, line);
        assert (outcomes + [o])[..|outcomes|] == outcomes;
        outcomes := outcomes + [o];
      } else {
        CountsWereEmitted(cfg, outcomes, line);
      }
    }
  }

  lemma NoCounts()
    ensures Count([], Captured) == 0 && Count([], Clean) == 0 && Count([], Error) == 0
  {
  }

  lemma TerminalIsLast(cfg: Config, s: Scan, line: string)
    requires ReadLine(cfg, s, line).Some?
    ensures s.terminal.None?
  {
    hide ReadAttempt, ReadCounts, HasPrefix;
  }

  lemma AttemptWasEmitted(cfg: Config, outcomes: seq<Outcome>, line: string) returns (o: Outcome)
    requires HasPrefix("ATTEMPT\t", line) && ReadLine(cfg, Tally(cfg, outcomes), line).Some?
    requires outcomes == [] || Count(outcomes[..|outcomes| - 1], Captured) < cfg.maxCaptures
    requires cfg.maxCaptures > 0
    ensures line == AttemptLine(cfg, |outcomes| + 1, o) && Count(outcomes, Captured) < cfg.maxCaptures
    ensures ReadLine(cfg, Tally(cfg, outcomes), line) == Some(Tally(cfg, outcomes + [o]))
  {
    CapturedAtMost(cfg, outcomes);
    hide AttemptPrefix, Count, Outcome.Word;
    var prefix := AttemptPrefix(cfg, |outcomes| + 1);
    o := if line == prefix + Clean.Word() then Clean else if line == prefix + Captured.Word() then Captured else Error;
    AttemptIsRead(cfg, outcomes, o);
  }

  lemma CapturedAtMost(cfg: Config, outcomes: seq<Outcome>)
    requires outcomes == [] || Count(outcomes[..|outcomes| - 1], Captured) < cfg.maxCaptures
    ensures Count(outcomes, Captured) <= cfg.maxCaptures && (outcomes == [] ==> Count(outcomes, Captured) == 0)
  {
  }

  lemma CountsWereEmitted(cfg: Config, outcomes: seq<Outcome>, line: string)
    requires !HasPrefix("ATTEMPT\t", line) && ReadLine(cfg, Tally(cfg, outcomes), line).Some?
    ensures var s := ReadLine(cfg, Tally(cfg, outcomes), line).value;
      && s.terminal.Some? && (s.terminal.value == 0 || s.terminal.value == 3)
      && s == Tally(cfg, outcomes).(terminal := s.terminal)
      && line == CountsLine(cfg, outcomes, s.terminal.value)
  {
    hide CountsPrefix, Count, HasPrefix;
    assert Decimal(0) == "0" && Decimal(3) == "3";
  }

  // The bounds on the text of an emitted log.

  lemma {:induction false} DecimalLength(n: nat, digits: nat)
    requires digits > 0 && n < Power10(digits)
    ensures |Decimal(n)| <= digits
    decreases digits
  {
    assert Power10(digits) == 10 * Power10(digits - 1) && Power10(0) == 1;
    if n >= 10 && digits > 1 { DecimalLength(n / 10, digits - 1); }
  }

  function Power10(k: nat): nat { if k == 0 then 1 else 10 * Power10(k - 1) }

  lemma SafeDecimal(n: nat)
    requires n <= SAFE_LIMIT
    ensures |Decimal(n)| <= 16 && Printable(Decimal(n))
  {
    assert Power10(4) == 10000 && Power10(8) == 100000000 && Power10(12) == 1000000000000;
    assert Power10(16) == 10000000000000000;
    DecimalLength(n, 16);
  }

  predicate Fits(line: string, bound: nat) { Printable(line) && |line| <= bound }

  lemma FitsConcat(a: string, m: nat, b: string, n: nat)
    requires Fits(a, m) && Fits(b, n)
    ensures Fits(a + b, m + n)
  {
  }

  lemma FieldFits(name: string, n: nat, bound: nat)
    requires Fits(name, bound) && n < SAFE_LIMIT
    ensures Fits(Field(name, n), bound + 16)
  {
    hide Fits;
    assert Fits(Decimal(n), 16) by { SafeDecimal(n); FitsIs(Decimal(n), 16); }
    FitsConcat(name, bound, Decimal(n), 16);
  }

  lemma FitsIs(line: string, bound: nat)
    ensures Fits(line, bound) <==> Printable(line) && |line| <= bound
  {
  }

  lemma HeadFits(word: string, cfg: Config)
    requires ValidConfig(cfg) && Fits(word, 7)
    ensures Fits(Head(word, cfg), 112 + |cfg.cpu|)
  {
    var n := |cfg.cpu|;
    assert Fits(cfg.generation, 32) && Fits(cfg.cpu, n);
    assert Fits("\tGENERATION\t", 12) && Fits("\tCPU\t", 5) && Fits("\tMAX_RUNS\t", 10) && Fits("\tMAX_CAPTURES\t", 14);
    hide Fits, IsCanonical;
    SafeDecimal(cfg.maxRuns);
    SafeDecimal(cfg.maxCaptures);
    FitsIs(Decimal(cfg.maxRuns), 16);
    FitsIs(Decimal(cfg.maxCaptures), 16);
    var a := word + "\tGENERATION\t";
    FitsConcat(word, 7, "\tGENERATION\t", 12);
    FitsConcat(a, 19, cfg.generation, 32);
    FitsConcat(a + cfg.generation, 51, "\tCPU\t", 5);
    var b := a + cfg.generation + "\tCPU\t";
    FitsConcat(b, 56, cfg.cpu, n);
    FitsConcat(b + cfg.cpu, 56 + n, "\tMAX_RUNS\t", 10);
    var c := b + cfg.cpu + "\tMAX_RUNS\t";
    FitsConcat(c, 66 + n, Decimal(cfg.maxRuns), 16);
    FitsConcat(c + Decimal(cfg.maxRuns), 82 + n, "\tMAX_CAPTURES\t", 14);
    FitsConcat(c + Decimal(cfg.maxRuns) + "\tMAX_CAPTURES\t", 96 + n, Decimal(cfg.maxCaptures), 16);
  }

  lemma AttemptFits(cfg: Config, run: nat, o: Outcome)
    requires ValidConfig(cfg) && run < SAFE_LIMIT
    ensures Printable(AttemptLine(cfg, run, o)) && |AttemptLine(cfg, run, o)| <= 239 + |cfg.cpu|
  {
    var n := |cfg.cpu|;
    assert Fits("ATTEMPT", 7) && Fits("\tRUN\t", 5) && Fits("\tOUTCOME\t", 9) && Fits(o.Word(), 8);
    hide Fits, ValidConfig, Head, Field, Outcome.Word;
    HeadFits("ATTEMPT", cfg);
    FieldFits("\tRUN\t", run, 5);
    FitsConcat(Head("ATTEMPT", cfg), 112 + n, Field("\tRUN\t", run), 21);
    FitsConcat(Head("ATTEMPT", cfg) + Field("\tRUN\t", run), 133 + n, "\tOUTCOME\t", 9);
    FitsConcat(AttemptPrefix(cfg, run), 142 + n, o.Word(), 8);
    FitsIs(AttemptLine(cfg, run, o), 150 + n);
  }

  lemma CountsFit(cfg: Config, run: nat, clean: nat, captured: nat, errors: nat, code: nat)
    requires ValidConfig(cfg) && run < SAFE_LIMIT && clean < SAFE_LIMIT && captured < SAFE_LIMIT
    requires errors < SAFE_LIMIT && code < 10
    ensures var line := CountsPrefix(cfg, run, clean, captured, errors) + Decimal(code);
      Printable(line) && |line| <= 239 + |cfg.cpu|
  {
    var n := |cfg.cpu|;
    assert Fits("COUNTS", 7) && Fits("\tATTEMPTED\t", 11) && Fits("\tCLEAN\t", 7) && Fits("\tCAPTURED\t", 10)
      && Fits("\tERRORS\t", 8) && Fits("\tEXIT_CODE\t", 11);
    hide Fits, ValidConfig, Head, Field;
    HeadFits("COUNTS", cfg);
    FieldFits("\tATTEMPTED\t", run, 11);
    FieldFits("\tCLEAN\t", clean, 7);
    FieldFits("\tCAPTURED\t", captured, 10);
    FieldFits("\tERRORS\t", errors, 8);
    SafeDecimal(code);
    FitsIs(Decimal(code), 16);
    var a := Head("COUNTS", cfg) + Field("\tATTEMPTED\t", run);
    FitsConcat(Head("COUNTS", cfg), 112 + n, Field("\tATTEMPTED\t", run), 27);
    var b := a + Field("\tCLEAN\t", clean);
    FitsConcat(a, 139 + n, Field("\tCLEAN\t", clean), 23);
    var c := b + Field("\tCAPTURED\t", captured);
    FitsConcat(b, 162 + n, Field("\tCAPTURED\t", captured), 26);
    var d := c + Field("\tERRORS\t", errors);
    FitsConcat(c, 188 + n, Field("\tERRORS\t", errors), 24);
    FitsConcat(d, 212 + n, "\tEXIT_CODE\t", 11);
    FitsConcat(d + "\tEXIT_CODE\t", 223 + n, Decimal(code), 16);
    FitsIs(d + "\tEXIT_CODE\t" + Decimal(code), 239 + n);
  }

  lemma {:induction false} AttemptsFit(cfg: Config, outcomes: seq<Outcome>)
    requires ValidConfig(cfg) && |outcomes| <= cfg.maxRuns
    ensures |Attempts(cfg, outcomes)| == |outcomes|
    ensures forall i :: 0 <= i < |outcomes| ==>
              Printable(Attempts(cfg, outcomes)[i]) && |Attempts(cfg, outcomes)[i]| <= 239 + |cfg.cpu|
    decreases |outcomes|
  {
    hide AttemptLine, Printable, IsCanonical;
    if outcomes != [] {
      AttemptsFit(cfg, outcomes[..|outcomes| - 1]);
      AttemptFits(cfg, |outcomes|, outcomes[|outcomes| - 1]);
    }
  }

  /** The reader's limit on a line. */
  predicate LinesFit(lines: seq<string>) { forall i :: 0 <= i < |lines| ==> |lines[i]| <= MAX_LINE }

  /** A completed log is well formed if its lines fit, and for a CPU text of at most 273
      characters they always do. */
  lemma EmittedFits(cfg: Config, outcomes: seq<Outcome>, code: nat)
    requires ValidConfig(cfg) && Completes(cfg, outcomes, code)
    ensures var lines := Attempts(cfg, outcomes) + [CountsLine(cfg, outcomes, code)];
      (WellFormed(cfg, lines) <==> LinesFit(lines)) && (|cfg.cpu| <= 273 ==> LinesFit(lines))
  {
    CountsAddUp(outcomes);
    hide CountsPrefix, Count, Printable, IsCanonical, Attempts, Decimal;
    AttemptsFit(cfg, outcomes);
    CountsFit(cfg, |outcomes|, Count(outcomes, Clean), Count(outcomes, Captured), Count(outcomes, Error), code);
  }

  // The main results.

  /** The log and code of a run of the loop that reached its COUNTS record. */
  ghost predicate Emitted(cfg: Config, lines: seq<string>, s: Scan) {
    exists helper: nat -> Helper ::
      var (outcomes, code) := Loop(cfg, helper, []);
      code != 5 && lines == Attempts(cfg, outcomes) + [CountsLine(cfg, outcomes, code)]
      && s == Tally(cfg, outcomes).(terminal := Some(code))
  }

  lemma CompletedIsEmitted(cfg: Config, outcomes: seq<Outcome>, code: nat)
    requires Completes(cfg, outcomes, code)
    ensures Emitted(cfg, Attempts(cfg, outcomes) + [CountsLine(cfg, outcomes, code)],
                    Tally(cfg, outcomes).(terminal := Some(code)))
  {
    hide Attempts, CountsLine, Tally, Count;
    var helper: nat -> Helper := i => if 1 <= i <= |outcomes| then Reported(outcomes[i - 1]) else HelperFailed;
    CompletedIsLooped(cfg, helper, outcomes, code, 0);
    assert outcomes[..0] == [];
    var (o, c) := Loop(cfg, helper, []);
    assert o == outcomes && c == code;
  }

  /** The reader accepts a log, with these counts and this code, exactly when the loop can
      emit it when it reaches its COUNTS record, and no line is too long for the reader. */
  lemma AcceptedIffEmitted(cfg: Config, lines: seq<string>, s: Scan)
    requires ValidConfig(cfg)
    ensures Read(cfg, lines) == Some(s) <==> Emitted(cfg, lines, s) && LinesFit(lines)
    ensures |cfg.cpu| <= 273 ==> (Read(cfg, lines) == Some(s) <==> Emitted(cfg, lines, s))
  {
    WellFormedFits(cfg, lines);
    hide Attempts, CountsLine, Count, ReadLines, WellFormed, IsCanonical, LinesFit;
    if Emitted(cfg, lines, s) {
      var helper: nat -> Helper :|
        var (outcomes, code) := Loop(cfg, helper, []);
        code != 5 && lines == Attempts(cfg, outcomes) + [CountsLine(cfg, outcomes, code)]
        && s == Tally(cfg, outcomes).(terminal := Some(code));
      var (outcomes, code) := Loop(cfg, helper, []);
      NoCounts();
      LoopCompletes(cfg, helper, []);
      EmittedFits(cfg, outcomes, code);
      if LinesFit(lines) { EmittedIsRead(cfg, outcomes, code); }
    }
    if Read(cfg, lines) == Some(s) {
      var outcomes := ReadIsEmitted(cfg, lines);
      ReconciledCompletes(cfg, outcomes, s);
      CompletedIsEmitted(cfg, outcomes, s.terminal.value);
    }
  }

  lemma WellFormedFits(cfg: Config, lines: seq<string>)
    ensures WellFormed(cfg, lines) ==> LinesFit(lines)
    ensures Read(cfg, lines).Some? ==> WellFormed(cfg, lines)
  {
    hide ReadLines, IsCanonical;
  }

  lemma ReconciledCompletes(cfg: Config, outcomes: seq<Outcome>, s: Scan)
    requires s == Tally(cfg, outcomes).(terminal := s.terminal) && Reconciles(cfg, s)
    requires s.terminal.value == 0 || s.terminal.value == 3
    requires outcomes == [] || Count(outcomes[..|outcomes| - 1], Captured) < cfg.maxCaptures
    requires cfg.maxCaptures > 0
    ensures Completes(cfg, outcomes, s.terminal.value)
  {
    CapturedAtMost(cfg, outcomes);
    hide Count;
  }

  /** An accepted log also meets the completeness policy. */
  lemma AcceptedIsComplete(cfg: Config, lines: seq<string>)
    requires Read(cfg, lines).Some?
    ensures var s := Read(cfg, lines).value;
      s.terminal.Some? && IsComplete(s.terminal.value, cfg.maxRuns, s.run, s.clean, s.captured, s.errors)
  {
    var outcomes := ReadIsEmitted(cfg, lines);
    hide ReadLines, Count, Attempts, CountsLine, IsCanonical;
  }
}
