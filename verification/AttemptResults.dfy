/** Which results the runner can build are accepted: exactly the faultless ones, in every run,
    and all of them under four assumptions about the environment that the code does not
    enforce. */
module AttemptResults {
  import opened Text
  import opened AttemptRunner
  import opened AttemptCleanup
  import opened AttemptSystem
  import opened AttemptSafety
  import opened AttemptAgreement
  import opened AttemptTerminal
  import opened AttemptEvidence

  // The assumptions. The clock both sides share is part of the system itself.

  predicate InGroup(cfg: Config, read: Read) {
    read.Found? && read.identity.group == cfg.pid && read.identity.session == cfg.pid
  }

  /** Start ticks of a process that answers for the workload are the ones the supervisor
      read. */
  predicate TicksAreStable(cfg: Config, sys: System, step: Step) {
    step.Deliver? && sys.up != [] && sys.up[0].message.Started? && sys.up[0].message.bound.Some?
    && InGroup(cfg, step.read) ==>
      step.read.identity.ticks == sys.up[0].message.bound
  }

  /** A supervisor that reports an exit status had its identity read. */
  predicate ExitHasIdentity(sys: System, step: Step) {
    step.SupervisorExited? ==> sys.r.child.identity.Some?
  }

  /** After a TERM wait that ended early, no KILL comes before the grace period is over. */
  predicate NoEarlyKill(cfg: Config, r: Runner) {
    r.signals.drainedEarly && r.signals.term.at.Some? && r.signals.kill.at.Some? ==>
      r.signals.kill.at.value - r.signals.term.at.value >= cfg.termGrace
  }

  /** A destroyed stream emits no later end. */
  predicate DestroyedIsSilent(sys: System, step: Step) {
    step.StreamEnds? ==> !sys.r.streams.destroyed
  }

  datatype Assumption = StableTicks | IdentifiedExit | SilentStreams | PatientKill

  predicate Meets(x: Assumption, cfg: Config, sys: System, step: Step)
    requires Enabled(cfg, sys, step)
  {
    match x
    case StableTicks => TicksAreStable(cfg, sys, step)
    case IdentifiedExit => ExitHasIdentity(sys, step)
    case SilentStreams => DestroyedIsSilent(sys, step)
    case PatientKill => NoEarlyKill(cfg, Take(cfg, sys, step).r)
  }

  predicate Assumed(cfg: Config, sys: System, step: Step)
    requires Enabled(cfg, sys, step)
  {
    forall x :: Meets(x, cfg, sys, step)
  }

  predicate IsAssumedRun(cfg: Config, sys: System, steps: seq<Step>)
    requires IsRun(cfg, sys, steps)
    decreases |steps|
  {
    steps == [] ||
    (IsAssumedRun(cfg, sys, steps[..|steps| - 1])
     && Assumed(cfg, After(cfg, sys, steps[..|steps| - 1]), steps[|steps| - 1]))
  }

  /** What a result must not show: an exit status of a supervisor without an identity, a
      workload without its start, a KILL inside the grace period after TERM, or streams that
      are at odds with the recorded drain. */
  predicate Faultless(r: Result, grace: nat) {
    && (r.cleanup.supervisorStatus.Some? ==> r.supervisor.Some?)
    && r.workload.Some? == r.boundary.started.Some?
    && (r.cleanup.term.attempted && r.cleanup.kill.attempted ==>
          r.cleanup.kill.at.Some? && r.cleanup.term.at.Some?
          && r.cleanup.kill.at.value >= r.cleanup.term.at.value + grace)
    && r.cleanup.outputDrained == (r.out.Complete() && r.err.Complete())
  }

  /** The acceptor's verdict, and what the assumptions add. */
  predicate Judged(assumed: bool, r: Result, grace: nat) {
    (Acceptable(r, grace) <==> Faultless(r, grace)) && (assumed ==> Faultless(r, grace))
  }

  // What the processes, the signals and the streams look like along the way. Parts that need
  // the assumptions are stated of runs that meet them so far.

  ghost predicate ProcessInvariant(assumed: bool, cfg: Config, sys: System) {
    var r := sys.r;
    && (r.child.identity.Some? ==>
          r.child.identity.value.pid == cfg.pid && LeadsItsGroup(r.child.identity.value)
          && r.child.identity.value.ticks.Some?)
    && (r.task.identity.Some? ==> r.task.identity.value.pid > 1)
    && (r.task.startedAt.Some? ==> r.task.identity.Some?)
    && (assumed && r.task.identity.Some? ==> r.task.startedAt.Some?)
    && (r.task.startedAt.Some? ==> cfg.start <= r.task.startedAt.value <= sys.now)
    && (r.child.status.Some? ==> ValidStatus(r.child.status.value))
    && (assumed && r.child.status.Some? ==> r.child.identity.Some?)
    && (!r.child.present ==>
          && r.child.identity.None? && r.child.spawnError.Some? && r.child.status.None? && r.task.identity.None?
          && sys.up == [] && sys.s.life.Gone?)
  }

  /** An action as the signal function leaves it, taken after the choice. */
  predicate ProperAction(a: Action, first: Time, last: Time) {
    if !a.attempted then a == NO_ACTION
    else (a.delivered ==> a.mode.Some?) && a.at.Some? && first <= a.at.value <= last
  }

  /** The actions of a runner at a time, and what each stage implies about them. */
  ghost predicate SignalInvariant(assumed: bool, cfg: Config, r: Runner, now: Time) {
    var first := if r.terminal.Some? then r.terminal.value.chosen else now;
    && (!r.stage.Waiting? ==> r.terminal.Some?)
    && ProperAction(r.signals.term, first, now) && ProperAction(r.signals.kill, first, now)
    && (r.stage.Waiting? ==> r.signals == Signals(NO_ACTION, NO_ACTION, false))
    && (r.stage.Draining? ==>
          && r.signals.term.attempted && !r.signals.kill.attempted && !r.signals.drainedEarly
          && r.stage.until >= r.signals.term.at.value + cfg.termGrace)
    && (r.signals.term.attempted && !r.signals.drainedEarly && !r.stage.Draining? ==>
          now >= r.signals.term.at.value + cfg.termGrace)
    && (assumed ==> AcceptsGrace(r.signals.term, r.signals.kill, cfg.termGrace))
    && (r.stage.Destroying? ==> r.streams.destroyed)
    && (assumed && r.stage.Destroying? ==> !StreamsComplete(r))
  }

  ghost predicate ResultInvariant(assumed: bool, cfg: Config, sys: System) {
    sys.r.stage.Finished? ==> Judged(assumed, sys.r.stage.result, cfg.termGrace)
  }

  // Actions.

  lemma {:induction false} MembersKeepAction(action: Action, world: World, members: seq<Identity>)
    ensures var a := SignalMembers(action, world, members);
      a.attempted == action.attempted && a.mode == action.mode && a.at == action.at
    decreases |members|
  {
    if members != [] { MembersKeepAction(action, world, members[..|members| - 1]); }
  }

  lemma TargetIsProper(supervisor: Option<Identity>, probe: Probe, world: World, at: Time)
    ensures var a := SignalTarget(supervisor, probe, world, at);
      a.attempted && a.at == Some(at) && (a.delivered ==> a.mode.Some?)
  {
    MembersKeepAction(Action(true, false, Some(IdentityBoundMembers), None, Some(at)), world, probe.members);
    hide Matches, SignalMembers;
  }

  // The result.

  lemma CompleteIffNoFailure(r: Runner, drained: bool, outputDrained: bool)
    ensures CleanupComplete(r, drained, outputDrained) <==> FailureReason(r, drained, outputDrained).None?
  {
    hide SupervisorCompletionValid;
  }

  lemma CompletionIsAccepted(assumed: bool, cfg: Config, sys: System, choice: Choice, drained: bool,
                             outputDrained: bool, at: Time)
    requires ProcessInvariant(assumed, cfg, sys) && ProperAction(sys.r.signals.kill, choice.chosen, at)
    ensures AcceptsCompletion(BuildResult(cfg, sys.r, choice, drained, outputDrained, at))
  {
    hide FailureReason;
  }

  lemma ResultIsAccepted(assumed: bool, cfg: Config, sys: System, drained: bool, outputDrained: bool, at: Time)
    requires ValidConfig(cfg) && ChoiceInvariant(cfg, sys) && ProcessInvariant(assumed, cfg, sys) && sys.now <= at
    requires sys.r.terminal.Some?
    requires ProperAction(sys.r.signals.term, sys.r.terminal.value.chosen, at)
    requires ProperAction(sys.r.signals.kill, sys.r.terminal.value.chosen, at)
    requires assumed ==> AcceptsGrace(sys.r.signals.term, sys.r.signals.kill, cfg.termGrace)
    requires assumed ==> outputDrained == StreamsComplete(sys.r)
    ensures Judged(assumed, BuildResult(cfg, sys.r, sys.r.terminal.value, drained, outputDrained, at), cfg.termGrace)
  {
    CompleteIffNoFailure(sys.r, drained, outputDrained);
    CompletionIsAccepted(assumed, cfg, sys, sys.r.terminal.value, drained, outputDrained, at);
    hide CleanupComplete, FailureReason, AcceptsCompletion;
    var res := BuildResult(cfg, sys.r, sys.r.terminal.value, drained, outputDrained, at);
    assert res.reason == ReasonForCause(res.cleanup.cause);
    assert AcceptsRawStatus(res);
    assert AcceptsBoundary(res.boundary) && AcceptsSupervisor(res.supervisor);
    assert Faultless(res, cfg.termGrace) ==> AcceptsCleanup(res, cfg.termGrace) by {
      hide ReasonForCause, ReasonOf, AcceptsRawStatus;
    }
  }

  // The cleanup steps keep the actions in order.

  lemma DecideKeepsSignals(assumed: bool, cfg: Config, r: Runner, world: World, channel: Channel, now: Time, at: Time)
    requires r.terminal.Some? && r.terminal.value.chosen <= now <= at
    requires ProperAction(r.signals.term, r.terminal.value.chosen, now) && r.signals.kill == NO_ACTION
    requires r.signals.term.attempted && !r.signals.drainedEarly ==> now >= r.signals.term.at.value + cfg.termGrace
    requires assumed ==> NoEarlyKill(cfg, Decide(cfg, r, world, channel, at))
    ensures SignalInvariant(assumed, cfg, Decide(cfg, r, world, channel, at), at)
  {
    TargetIsProper(r.child.identity, r.group.probe, world, at);
    hide SignalTarget, HasResidue, StreamsComplete;
  }

  lemma BeginKeepsSignals(assumed: bool, cfg: Config, r: Runner, listing: Listing, world: World,
                          channel: Channel, at: Time)
    requires SignalInvariant(assumed, cfg, r, at) && r.stage.Waiting?
    requires r.terminal.Some? && r.terminal.value.chosen <= at
    requires assumed ==> NoEarlyKill(cfg, Begin(cfg, r, listing, world, channel, at))
    ensures SignalInvariant(assumed, cfg, Begin(cfg, r, listing, world, channel, at), at)
  {
    var id := if r.child.identity.Some? then Some(r.child.identity.value.group)
              else if r.child.spawned then Some(cfg.pid) else None;
    var probed := Probed(r.(group := r.group.(id := id)), listing);
    TargetIsProper(r.child.identity, probed.group.probe, world, at);
    hide SignalTarget, HasResidue, StreamsComplete, ProbeGroup, Decide;
    if probed.group.probe.known && !HasResidue(cfg, probed.group.probe) {
      DecideKeepsSignals(assumed, cfg, probed, world, channel, at, at);
    }
  }

  lemma DrainKeepsSignals(assumed: bool, cfg: Config, r: Runner, first: Listing, last: Listing, final: Listing,
                          now: Time, world: World, channel: Channel, at: Time)
    requires SignalInvariant(assumed, cfg, r, now) && r.stage.Draining? && r.terminal.Some?
    requires r.terminal.value.chosen <= now <= at
    requires assumed ==> NoEarlyKill(cfg, Drain(cfg, r, first, last, final, now, world, channel, at))
    ensures SignalInvariant(assumed, cfg, Drain(cfg, r, first, last, final, now, world, channel, at), at)
  {
    hide SignalTarget, HasResidue, StreamsComplete, ProbeGroup, Decide;
    var probed := Probed(r, first);
    if Drained(cfg, probed) {
      var early := Probed(probed.(signals := r.signals.(drainedEarly := true)), final);
      DecideKeepsSignals(assumed, cfg, early, world, channel, now, at);
    } else if now >= r.stage.until {
      DecideKeepsSignals(assumed, cfg, Probed(Probed(probed, last), final), world, channel, now, at);
    }
  }

  lemma SettlingKeepsSignals(assumed: bool, cfg: Config, r: Runner, now: Time, at: Time)
    requires SignalInvariant(assumed, cfg, r, now) && r.terminal.Some? && r.terminal.value.chosen <= now <= at
    ensures SignalInvariant(assumed, cfg, r, at)
  {
    hide StreamsComplete;
  }

  lemma CloseKeepsSignals(assumed: bool, cfg: Config, r: Runner, at: Time)
    requires SignalInvariant(assumed, cfg, r, at) && (r.stage.Settling? || r.stage.Reprobing?)
    ensures SignalInvariant(assumed, cfg, Close(cfg, r, at), at)
  {
    hide BuildResult;
  }

  lemma ConcludeKeepsSignals(assumed: bool, cfg: Config, r: Runner, world: World, now: Time, at: Time)
    requires SignalInvariant(assumed, cfg, r, now) && r.stage.Settling? && r.terminal.value.chosen <= now <= at
    requires assumed ==> NoEarlyKill(cfg, Conclude(cfg, r, world, at))
    ensures SignalInvariant(assumed, cfg, Conclude(cfg, r, world, at), at)
  {
    TargetIsProper(r.child.identity, r.group.probe, world, at);
    SettlingKeepsSignals(assumed, cfg, r, now, at);
    CloseKeepsSignals(assumed, cfg, r, at);
    hide SignalTarget, StreamsComplete, Close;
  }

  /** A finished cleanup built an accepted result. */
  lemma CloseIsAccepted(assumed: bool, cfg: Config, sys: System, at: Time)
    requires ValidConfig(cfg) && ChoiceInvariant(cfg, sys) && ProcessInvariant(assumed, cfg, sys) && sys.now <= at
    requires SignalInvariant(assumed, cfg, sys.r, at) && (sys.r.stage.Settling? || sys.r.stage.Reprobing?)
    ensures Close(cfg, sys.r, at).stage.Finished? ==> Judged(assumed, Close(cfg, sys.r, at).stage.result, cfg.termGrace)
  {
    hide ChoiceInvariant, ProcessInvariant, Judged, StreamsComplete, BuildResult;
    if StreamsComplete(sys.r) {
      ResultIsAccepted(assumed, cfg, sys, sys.r.group.probe.known && sys.r.group.probe.members == [], true, at);
    }
  }

  lemma ConcludeIsAccepted(assumed: bool, cfg: Config, sys: System, world: World, at: Time)
    requires ValidConfig(cfg) && ChoiceInvariant(cfg, sys) && ProcessInvariant(assumed, cfg, sys) && sys.now <= at
    requires SignalInvariant(assumed, cfg, sys.r, sys.now) && sys.r.stage.Settling?
    requires sys.r.terminal.value.chosen <= sys.now
    ensures Conclude(cfg, sys.r, world, at).stage.Finished? ==>
              Judged(assumed, Conclude(cfg, sys.r, world, at).stage.result, cfg.termGrace)
  {
    SettlingKeepsSignals(assumed, cfg, sys.r, sys.now, at);
    CloseIsAccepted(assumed, cfg, sys, at);
    hide ChoiceInvariant, ProcessInvariant, Judged, StreamsComplete, Close, SignalTarget;
  }

  lemma ProcessIsKept(assumed: bool, cfg: Config, sys: System, sys': System)
    requires ProcessInvariant(assumed, cfg, sys) && sys.now <= sys'.now
    requires sys'.r.child == sys.r.child && sys'.r.task == sys.r.task
    requires sys'.up == sys.up && sys'.s == sys.s
    ensures ProcessInvariant(assumed, cfg, sys')
  {
    hide LeadsItsGroup, ValidStatus;
  }

  /** Probing changes nothing the invariants look at. */
  lemma ProbingKeeps(assumed: bool, cfg: Config, sys: System, listing: Listing)
    requires ChoiceInvariant(cfg, sys) && ProcessInvariant(assumed, cfg, sys)
    ensures ChoiceInvariant(cfg, sys.(r := Probed(sys.r, listing)))
    ensures ProcessInvariant(assumed, cfg, sys.(r := Probed(sys.r, listing)))
  {
    hide ProbeGroup, ChoiceInvariant, ProcessInvariant;
    ChoiceIsKept(cfg, sys, sys.(r := Probed(sys.r, listing)));
    ProcessIsKept(assumed, cfg, sys, sys.(r := Probed(sys.r, listing)));
  }

  lemma ProbingKeepsSignals(assumed: bool, cfg: Config, r: Runner, listing: Listing, now: Time)
    requires SignalInvariant(assumed, cfg, r, now)
    ensures SignalInvariant(assumed, cfg, Probed(r, listing), now)
    ensures Probed(r, listing).stage == r.stage && Probed(r, listing).terminal == r.terminal
  {
    hide ProbeGroup;
  }

  /** Everything the theorem carries along a run. */
  ghost predicate Carried(assumed: bool, cfg: Config, sys: System) {
    && ChoiceInvariant(cfg, sys) && ProcessInvariant(assumed, cfg, sys) && SignalInvariant(assumed, cfg, sys.r, sys.now)
    && ResultInvariant(assumed, cfg, sys)
  }

  lemma ChosenBefore(cfg: Config, sys: System)
    requires ChoiceInvariant(cfg, sys)
    ensures sys.r.terminal.Some? ==> sys.r.terminal.value.chosen <= sys.now
  {
  }

  /** What a probe and a conclusion need, and what a probe leaves of it. */
  ghost predicate Settles(assumed: bool, cfg: Config, sys: System) {
    && ChoiceInvariant(cfg, sys) && ProcessInvariant(assumed, cfg, sys)
    && SignalInvariant(assumed, cfg, sys.r, sys.now) && sys.r.stage.Settling? && sys.r.terminal.Some?
  }

  lemma ProbeSettles(assumed: bool, cfg: Config, sys: System, listing: Listing)
    requires Settles(assumed, cfg, sys)
    ensures Settles(assumed, cfg, sys.(r := Probed(sys.r, listing)))
    ensures Probed(sys.r, listing).stage == sys.r.stage
  {
    hide ChoiceInvariant, ProcessInvariant, SignalInvariant, Probed;
    ProbingKeeps(assumed, cfg, sys, listing);
    ProbingKeepsSignals(assumed, cfg, sys.r, listing, sys.now);
  }

  lemma ConclusionSettles(assumed: bool, cfg: Config, sys: System, world: World, at: Time)
    requires ValidConfig(cfg) && Settles(assumed, cfg, sys) && sys.now <= at
    requires assumed ==> NoEarlyKill(cfg, Conclude(cfg, sys.r, world, at))
    ensures var r := Conclude(cfg, sys.r, world, at);
      SignalInvariant(assumed, cfg, r, at) && (r.stage.Finished? ==> Judged(assumed, r.stage.result, cfg.termGrace))
  {
    ChosenBefore(cfg, sys);
    hide ChoiceInvariant, ProcessInvariant, SignalInvariant, Conclude, Judged, NoEarlyKill;
    ConcludeKeepsSignals(assumed, cfg, sys.r, world, sys.now, at);
    ConcludeIsAccepted(assumed, cfg, sys, world, at);
  }

  lemma SettleKeepsSignals(assumed: bool, cfg: Config, sys: System, first: Listing, last: Listing, final: Listing,
                           world: World, at: Time)
    requires ValidConfig(cfg) && Carried(assumed, cfg, sys) && sys.r.stage.Settling? && sys.now <= at
    requires assumed ==> NoEarlyKill(cfg, Settle(cfg, sys.r, first, last, final, sys.now, world, at))
    ensures var r := Settle(cfg, sys.r, first, last, final, sys.now, world, at);
      SignalInvariant(assumed, cfg, r, at) && (r.stage.Finished? ==> Judged(assumed, r.stage.result, cfg.termGrace))
  {
    hide Carried, Settles, SignalInvariant, Probed, Conclude, Judged, Quiet, NoEarlyKill;
    CarriedSettles(assumed, cfg, sys);
    var one := sys.(r := Probed(sys.r, first));
    ProbeSettles(assumed, cfg, sys, first);
    if Quiet(one.r) {
      ProbeSettles(assumed, cfg, one, final);
      ConclusionSettles(assumed, cfg, one.(r := Probed(one.r, final)), world, at);
    } else if sys.now >= sys.r.stage.until {
      var two := one.(r := Probed(one.r, last));
      ProbeSettles(assumed, cfg, one, last);
      ProbeSettles(assumed, cfg, two, final);
      ConclusionSettles(assumed, cfg, two.(r := Probed(two.r, final)), world, at);
    } else {
      NotYetSettled(assumed, cfg, one, at);
    }
  }

  lemma CarriedSettles(assumed: bool, cfg: Config, sys: System)
    requires Carried(assumed, cfg, sys) && sys.r.stage.Settling?
    ensures Settles(assumed, cfg, sys)
  {
    StageHasChoice(assumed, cfg, sys.r, sys.now);
    hide ChoiceInvariant, ProcessInvariant, SignalInvariant, ResultInvariant;
  }

  lemma NotYetSettled(assumed: bool, cfg: Config, sys: System, at: Time)
    requires Settles(assumed, cfg, sys) && sys.now <= at
    ensures SignalInvariant(assumed, cfg, sys.r, at) && !sys.r.stage.Finished?
  {
    ChosenBefore(cfg, sys);
    hide ChoiceInvariant, ProcessInvariant, SignalInvariant;
    SettlingKeepsSignals(assumed, cfg, sys.r, sys.now, at);
  }

  lemma StageHasChoice(assumed: bool, cfg: Config, r: Runner, now: Time)
    requires SignalInvariant(assumed, cfg, r, now) && !r.stage.Waiting?
    ensures r.terminal.Some?
  {
  }

  // Preservation, step by step.

  lemma ProcessStarts(assumed: bool, cfg: Config, thrown: Option<Code>)
    ensures Carried(assumed, cfg, Start(cfg, thrown))
  {
    ChoiceStarts(cfg, thrown);
    hide ChoiceInvariant;
  }

  lemma ProcessAfterDeadline(cfg: Config, r: Runner, now: Time, read: Read, again: bool)
    ensures var r' := OnDeadline(cfg, r, now, now, read, again);
      r'.child == r.child && r'.task == r.task && r'.signals == r.signals && r'.stage == r.stage
      && r'.streams == r.streams
  {
    hide Matches, SelectDeadlineCandidate, NoteRead, ChooseLaunchError, ChooseTerminalRace, ChooseNatural, Choose;
    var noted := if r.task.identity.Some? && r.task.identity.value.ticks.Some? then NoteRead(r, read) else r;
    NotingKeeps(r, read);
    ChoosingKeeps(noted.(retrying := false), "LAUNCH_TIMEOUT", now);
  }

  /** What a choice leaves of a runner. */
  predicate OnlyChooses(r: Runner, r': Runner) { r' == r.(terminal := r'.terminal) }

  lemma ChoosingKeeps(r: Runner, code: Code, at: Time)
    ensures OnlyChooses(r, ChooseLaunchError(r, code, at)) && OnlyChooses(r, ChooseTerminalRace(r, at))
    ensures forall status :: OnlyChooses(r, ChooseNatural(r, status, at))
    ensures forall c :: OnlyChooses(r, Choose(r, c))
  {
  }

  lemma NotingKeeps(r: Runner, read: Read)
    ensures NoteRead(r, read) == r.(identityError := NoteRead(r, read).identityError)
  {
  }

  lemma ProcessAfterSupervisorExit(cfg: Config, r: Runner, status: Status, at: Time)
    ensures var r' := OnSupervisorExit(cfg, r, status, at);
      && r'.signals == r.signals && r'.stage == r.stage && r'.streams == r.streams
      && r'.child.present == r.child.present && (r.terminal.Some? ==> r'.terminal == r.terminal)
  {
  }

  lemma ProcessAfterSpawn(assumed: bool, cfg: Config, sys: System, read: Read)
    requires ProcessInvariant(assumed, cfg, sys) && sys.r.child.present && ReadOf(read, cfg.pid)
    ensures ProcessInvariant(assumed, cfg, sys.(r := OnSpawn(cfg, sys.r, read)))
  {
    hide ValidStatus;
  }

  lemma ProcessAfterExit(assumed: bool, cfg: Config, sys: System, status: Status)
    requires ProcessInvariant(assumed, cfg, sys) && sys.r.child.present && ValidStatus(status)
    requires assumed ==> sys.r.child.identity.Some?
    ensures ProcessInvariant(assumed, cfg, sys.(r := OnSupervisorExit(cfg, sys.r, status, sys.now)))
  {
    hide LeadsItsGroup, ValidStatus;
  }

  lemma ProcessAfterSpawnError(assumed: bool, cfg: Config, sys: System, code: Code)
    requires ProcessInvariant(assumed, cfg, sys)
    ensures ProcessInvariant(assumed, cfg, sys.(r := OnSpawnError(sys.r, code, sys.now)))
  {
    hide LeadsItsGroup, ValidStatus;
  }

  lemma ProcessAfterEvent(assumed: bool, cfg: Config, sys: System, step: Step)
    requires ProcessInvariant(assumed, cfg, sys) && Enabled(cfg, sys, step) && IsRunnerEvent(step)
    requires ValidConfig(cfg) && (assumed ==> ExitHasIdentity(sys, step))
    ensures ProcessInvariant(assumed, cfg, Take(cfg, sys, step))
  {
    assert step.Spawned? ==> sys.r.child.present && ReadOf(step.read, cfg.pid);
    assert step.SupervisorExited? ==> sys.r.child.present && ValidStatus(step.status);
    hide OnDeadline, OnSpawn, OnSupervisorExit, OnSpawnError, ValidStatus, LeadsItsGroup, Enabled, OnBoot, OnCommand,
         OnChildSpawned, OnChildError, Send, SendFatal, OnDeliver, Cleaning, Begin, Drain, Settle, Close, Finish, Probed;
    if step.Deadline? { ProcessAfterDeadline(cfg, sys.r, sys.now, step.read, sys.r.retrying); }
    if step.Spawned? { ProcessAfterSpawn(assumed, cfg, sys, step.read); }
    if step.SupervisorExited? { ProcessAfterExit(assumed, cfg, sys, step.status); }
    if step.SpawnFailed? { ProcessAfterSpawnError(assumed, cfg, sys, step.code); }
  }

  /** An event touches the streams only by ending or failing one, and may make the choice. */
  lemma EventKeepsSignals(cfg: Config, sys: System, step: Step)
    requires Enabled(cfg, sys, step) && IsRunnerEvent(step)
    ensures Take(cfg, sys, step).r.signals == sys.r.signals && Take(cfg, sys, step).r.stage == sys.r.stage
    ensures !step.StreamEnds? && !step.StreamFails? ==> Take(cfg, sys, step).r.streams == sys.r.streams
    ensures Take(cfg, sys, step).r.child.present == sys.r.child.present
    ensures sys.r.terminal.Some? ==> Take(cfg, sys, step).r.terminal == sys.r.terminal
  {
    hide OnDeadline, OnSupervisorExit, Enabled, OnBoot, OnCommand, OnChildSpawned, OnChildError, Send, SendFatal, OnDeliver, Cleaning,
         Begin, Drain, Settle, Close, Finish, Probed;
    RunnerEventKeeps(cfg, sys, step);
    if step.Deadline? { ProcessAfterDeadline(cfg, sys.r, sys.now, step.read, sys.r.retrying); }
    if step.SupervisorExited? { ProcessAfterSupervisorExit(cfg, sys.r, step.status, sys.now); }
    if !step.Deadline? && !step.SupervisorExited? { OtherEventKeepsSignals(cfg, sys, step); }
  }

  lemma OtherEventKeepsSignals(cfg: Config, sys: System, step: Step)
    requires IsRunnerEvent(step) && Enabled(cfg, sys, step) && !step.Deadline? && !step.SupervisorExited?
    ensures Take(cfg, sys, step).r.signals == sys.r.signals && Take(cfg, sys, step).r.stage == sys.r.stage
    ensures !step.StreamEnds? && !step.StreamFails? ==> Take(cfg, sys, step).r.streams == sys.r.streams
    ensures Take(cfg, sys, step).r.child.present == sys.r.child.present
    ensures sys.r.terminal.Some? ==> Take(cfg, sys, step).r.terminal == sys.r.terminal
  {
    hide Enabled, OnDeadline, OnSupervisorExit, OnBoot, OnCommand, OnChildSpawned, OnChildError, Send, SendFatal, OnDeliver, Cleaning,
         Begin, Drain, Settle, Close, Finish, Probed;
  }

  lemma StreamEventKeepsSignals(assumed: bool, cfg: Config, sys: System, step: Step)
    requires SignalInvariant(assumed, cfg, sys.r, sys.now) && (step.StreamEnds? || step.StreamFails?)
    requires Enabled(cfg, sys, step) && (assumed ==> DestroyedIsSilent(sys, step))
    ensures SignalInvariant(assumed, cfg, Take(cfg, sys, step).r, sys.now)
  {
    hide AcceptsGrace, ProperAction;
  }

  lemma SignalsAfterEvent(assumed: bool, cfg: Config, sys: System, step: Step)
    requires SignalInvariant(assumed, cfg, sys.r, sys.now) && ResultInvariant(assumed, cfg, sys)
    requires ChoiceInvariant(cfg, sys)
    requires Enabled(cfg, sys, step) && IsRunnerEvent(step) && (assumed ==> DestroyedIsSilent(sys, step))
    ensures SignalInvariant(assumed, cfg, Take(cfg, sys, step).r, sys.now)
    ensures ResultInvariant(assumed, cfg, Take(cfg, sys, step))
  {
    EventKeepsSignals(cfg, sys, step);
    ChoiceStep(cfg, sys, step);
    ChosenBefore(cfg, sys);
    ChosenBefore(cfg, Take(cfg, sys, step));
    assert Take(cfg, sys, step).now == sys.now by { RunnerEventKeeps(cfg, sys, step); }
    if step.StreamEnds? || step.StreamFails? { StreamEventKeepsSignals(assumed, cfg, sys, step); }
    hide Take, Enabled, Judged, ChoiceInvariant, SignalInvariant;
    if !step.StreamEnds? && !step.StreamFails? {
      SignalsAreKept(assumed, cfg, sys.r, Take(cfg, sys, step).r, sys.now, sys.now);
    }
  }

  lemma ReadyKeepsProcess(cfg: Config, r: Runner, m: Message, stamp: Time, at: Time, read: Read,
                           sendThrew: Option<Code>)
    requires m.Ready? && ReadOf(read, m.pid)
    ensures var r' := OnReady(cfg, r, m, stamp, at, read, sendThrew);
      && r'.task == r.task && r'.signals == r.signals && r'.streams == r.streams
      && (r'.child == r.child
          || (read.Found? && r'.child == r.child.(identity := Some(read.identity)) && LeadsItsGroup(read.identity)
              && read.identity.pid == cfg.pid && read.identity.ticks.Some?))
  {
    hide AffinityDiffers;
  }

  lemma StartedKeepsProcess(assumed: bool, cfg: Config, r: Runner, m: Message, stamp: Time, at: Time, read: Read)
    requires m.Started? && ReadOf(read, m.pid)
    requires assumed && m.bound.Some? && InGroup(cfg, read) ==> read.identity.ticks == m.bound
    ensures var r' := OnStarted(cfg, r, m, stamp, at, read);
      && r'.child == r.child && r'.signals == r.signals && r'.streams == r.streams
      && (r'.task == r.task
          || (r'.task.identity.Some? && r'.task.identity.value.pid > 1 && r'.task.exit == r.task.exit
              && (r'.task.startedAt == Some(stamp) || (!assumed && r'.task.startedAt == r.task.startedAt))))
  {
    hide AffinityDiffers;
  }

  lemma OverKeepsProcess(cfg: Config, r: Runner, m: Message, stamp: Time, at: Time)
    ensures m.Exited? ==> SameProcess(r, OnExited(cfg, r, m, stamp, at))
    ensures m.Failed? ==> SameProcess(r, OnFailed(cfg, r, m, stamp, at))
    ensures m.Fatal? ==> SameProcess(r, OnFatal(r, m, at))
  {
    hide ValidStatus;
  }

  predicate SameProcess(r: Runner, r': Runner) {
    && r'.child == r.child && r'.task.identity == r.task.identity && r'.task.startedAt == r.task.startedAt
    && r'.signals == r.signals && r'.streams == r.streams
  }

  lemma ProcessAfterDelivery(assumed: bool, cfg: Config, sys: System, read: Read, sendThrew: Option<Code>)
    requires ProcessInvariant(assumed, cfg, sys) && WellStamped(cfg, sys) && Enabled(cfg, sys, Deliver(read, sendThrew))
    requires assumed ==> TicksAreStable(cfg, sys, Deliver(read, sendThrew))
    ensures ProcessInvariant(assumed, cfg, OnDeliver(cfg, sys, read, sendThrew))
    ensures OnDeliver(cfg, sys, read, sendThrew).r.signals == sys.r.signals
    ensures OnDeliver(cfg, sys, read, sendThrew).r.streams == sys.r.streams
    ensures OnDeliver(cfg, sys, read, sendThrew).r.child.present == sys.r.child.present
  {
    var sm := sys.up[0];
    var timed := sys.r.(link := sys.r.link.(lastStamp := Some(sm.stamp)));
    if sm.message.Ready? { ReadyKeepsProcess(cfg, timed, sm.message, sm.stamp, sys.now, read, sendThrew); }
    if sm.message.Started? { StartedKeepsProcess(assumed, cfg, timed, sm.message, sm.stamp, sys.now, read); }
    OverKeepsProcess(cfg, timed, sm.message, sm.stamp, sys.now);
    hide OnReady, OnStarted, OnExited, OnFailed, OnFatal, CheckFails, ValidStatus;
  }

  lemma SignalsAreKept(assumed: bool, cfg: Config, r: Runner, r': Runner, now: Time, now': Time)
    requires SignalInvariant(assumed, cfg, r, now) && now <= now'
    requires r'.signals == r.signals && r'.streams == r.streams && r'.stage == r.stage
    requires r'.child.present == r.child.present
    requires r.terminal.Some? ==> r'.terminal == r.terminal && r.terminal.value.chosen <= now
    requires r.terminal.None? && r'.terminal.Some? ==> r'.terminal.value.chosen <= now'
    ensures SignalInvariant(assumed, cfg, r', now')
  {
    hide AcceptsGrace;
  }

  lemma CarriedAfterDelivery(assumed: bool, cfg: Config, sys: System, read: Read, sendThrew: Option<Code>)
    requires Carried(assumed, cfg, sys) && WellStamped(cfg, sys) && Enabled(cfg, sys, Deliver(read, sendThrew))
    requires assumed ==> TicksAreStable(cfg, sys, Deliver(read, sendThrew))
    ensures Carried(assumed, cfg, OnDeliver(cfg, sys, read, sendThrew))
  {
    var after := OnDeliver(cfg, sys, read, sendThrew);
    ChosenBefore(cfg, sys);
    ChoiceAfterDelivery(cfg, sys, read, sendThrew);
    ChosenBefore(cfg, after);
    ProcessAfterDelivery(assumed, cfg, sys, read, sendThrew);
    MessageAdvances(cfg, sys.r, sys.up[0], sys.now, read, sendThrew);
    hide OnMessage, ChoiceInvariant, ProcessInvariant, SignalInvariant, CheckFails, WellStamped, Judged;
    SignalsAreKept(assumed, cfg, sys.r, after.r, sys.now, sys.now);
  }

  lemma CarriedAfterSupervisor(assumed: bool, cfg: Config, sys: System, step: Step)
    requires Carried(assumed, cfg, sys) && Enabled(cfg, sys, step)
    requires !IsCleanup(step) && !IsRunnerEvent(step) && !step.Deliver?
    ensures Carried(assumed, cfg, Take(cfg, sys, step))
  {
    ChosenBefore(cfg, sys);
    ChoiceStep(cfg, sys, step);
    SupervisorKeepsRunner(cfg, sys, step);
    if !sys.r.child.present { AbsentSupervisorIsSilent(cfg, sys, step); }
    hide Take, Enabled, ChoiceInvariant, SignalInvariant, Judged, LeadsItsGroup, ValidStatus;
    SignalsAreKept(assumed, cfg, sys.r, sys.r, sys.now, Take(cfg, sys, step).now);
  }

  lemma AbsentSupervisorIsSilent(cfg: Config, sys: System, step: Step)
    requires Enabled(cfg, sys, step) && !sys.r.child.present && sys.up == [] && sys.s.life.Gone?
    requires !IsCleanup(step) && !IsRunnerEvent(step) && !step.Deliver?
    ensures Take(cfg, sys, step).up == [] && Take(cfg, sys, step).s.life.Gone?
  {
  }

  lemma SignalsAfterCleanup(assumed: bool, cfg: Config, sys: System, step: Step)
    requires ValidConfig(cfg) && Carried(assumed, cfg, sys) && Enabled(cfg, sys, step) && IsCleanup(step)
    requires assumed ==> NoEarlyKill(cfg, Take(cfg, sys, step).r)
    ensures SignalInvariant(assumed, cfg, Take(cfg, sys, step).r, Take(cfg, sys, step).now)
    ensures ResultInvariant(assumed, cfg, Take(cfg, sys, step))
  {
    ChosenBefore(cfg, sys);
    hide ChoiceInvariant, ProcessInvariant, SignalInvariant, Judged, Begin, Drain, Settle, Close, Finish,
         NoEarlyKill;
    assert !sys.r.stage.Waiting? ==> sys.r.terminal.Some? by {
      if !sys.r.stage.Waiting? { StageHasChoice(assumed, cfg, sys.r, sys.now); }
    }
    if step.BeginCleanup? {
      BeginKeepsSignals(assumed, cfg, sys.r, step.first, step.world, step.channel, sys.now);
      BeginDoesNotFinish(cfg, sys.r, step.first, step.world, step.channel, sys.now);
    }
    if step.DrainTurn? {
      DrainKeepsSignals(assumed, cfg, sys.r, step.first, step.last, step.final, sys.now, step.world,
                        step.channel, step.time);
      DrainDoesNotFinish(cfg, sys.r, step.first, step.last, step.final, sys.now, step.world, step.channel, step.time);
    }
    if step.SettleTurn? {
      SettleKeepsSignals(assumed, cfg, sys, step.first, step.last, step.final, step.world, step.time);
    }
    if step.Reprobe? {
      var one := sys.(r := Probed(sys.r, step.first));
      ProbingKeeps(assumed, cfg, sys, step.first);
      ProbingKeepsSignals(assumed, cfg, sys.r, step.first, sys.now);
      CloseKeepsSignals(assumed, cfg, one.r, sys.now);
      CloseIsAccepted(assumed, cfg, one, sys.now);
    }
    if step.Collect? { CollectIsAccepted(assumed, cfg, sys); }
  }

  lemma BeginDoesNotFinish(cfg: Config, r: Runner, listing: Listing, world: World, channel: Channel, at: Time)
    ensures !Begin(cfg, r, listing, world, channel, at).stage.Finished?
  {
    hide SignalTarget, HasResidue, ProbeGroup;
  }

  lemma DrainDoesNotFinish(cfg: Config, r: Runner, first: Listing, last: Listing, final: Listing, now: Time,
                           world: World, channel: Channel, at: Time)
    requires r.stage.Draining?
    ensures !Drain(cfg, r, first, last, final, now, world, channel, at).stage.Finished?
  {
    hide SignalTarget, HasResidue, ProbeGroup;
  }

  lemma CollectIsAccepted(assumed: bool, cfg: Config, sys: System)
    requires ValidConfig(cfg) && Carried(assumed, cfg, sys) && sys.r.stage.Destroying? && sys.r.terminal.Some?
    ensures var r := Finish(cfg, sys.r, sys.r.stage.drained, false, sys.now);
      SignalInvariant(assumed, cfg, r, sys.now) && r.stage.Finished? && Judged(assumed, r.stage.result, cfg.termGrace)
  {
    hide ChoiceInvariant, ProcessInvariant, Judged, BuildResult, StreamsComplete;
    ResultIsAccepted(assumed, cfg, sys, sys.r.stage.drained, false, sys.now);
  }

  lemma CarriedAfterCleanup(assumed: bool, cfg: Config, sys: System, step: Step)
    requires ValidConfig(cfg) && Carried(assumed, cfg, sys) && Enabled(cfg, sys, step) && IsCleanup(step)
    requires assumed ==> NoEarlyKill(cfg, Take(cfg, sys, step).r)
    ensures Carried(assumed, cfg, Take(cfg, sys, step))
  {
    ChoiceStep(cfg, sys, step);
    CleanupStep(cfg, sys, step);
    SignalsAfterCleanup(assumed, cfg, sys, step);
    hide Take, Enabled, ChoiceInvariant, ProcessInvariant, SignalInvariant, ResultInvariant, NoEarlyKill;
    ProcessIsKept(assumed, cfg, sys, Take(cfg, sys, step));
  }

  lemma CarriedAfterEvent(assumed: bool, cfg: Config, sys: System, step: Step)
    requires ValidConfig(cfg) && Carried(assumed, cfg, sys) && Enabled(cfg, sys, step) && IsRunnerEvent(step)
    requires assumed ==> ExitHasIdentity(sys, step) && DestroyedIsSilent(sys, step)
    ensures Carried(assumed, cfg, Take(cfg, sys, step))
  {
    RunnerEventKeeps(cfg, sys, step);
    hide Take, Enabled, ChoiceInvariant, ProcessInvariant, SignalInvariant, ResultInvariant, KeepsProtocol;
    ChoiceStep(cfg, sys, step);
    ProcessAfterEvent(assumed, cfg, sys, step);
    SignalsAfterEvent(assumed, cfg, sys, step);
  }

  lemma AssumedMeans(cfg: Config, sys: System, step: Step)
    requires Enabled(cfg, sys, step) && Assumed(cfg, sys, step)
    ensures TicksAreStable(cfg, sys, step) && ExitHasIdentity(sys, step) && DestroyedIsSilent(sys, step)
    ensures NoEarlyKill(cfg, Take(cfg, sys, step).r)
  {
    hide Enabled, Take, TicksAreStable, ExitHasIdentity, DestroyedIsSilent, NoEarlyKill;
    assert Meets(StableTicks, cfg, sys, step) && Meets(IdentifiedExit, cfg, sys, step);
    assert Meets(SilentStreams, cfg, sys, step) && Meets(PatientKill, cfg, sys, step);
  }

  lemma CarriedStep(assumed: bool, cfg: Config, sys: System, step: Step)
    requires ValidConfig(cfg) && Carried(assumed, cfg, sys) && WellStamped(cfg, sys)
    requires Enabled(cfg, sys, step) && (assumed ==> Assumed(cfg, sys, step))
    ensures Carried(assumed, cfg, Take(cfg, sys, step))
  {
    if assumed { AssumedMeans(cfg, sys, step); }
    hide Carried, WellStamped, TicksAreStable, NoEarlyKill, Assumed, Meets;
    if IsCleanup(step) {
      hide Take, Enabled;
      CarriedAfterCleanup(assumed, cfg, sys, step);
    } else if IsRunnerEvent(step) {
      hide Take, Enabled;
      CarriedAfterEvent(assumed, cfg, sys, step);
    } else if step.Deliver? {
      DeliveryIsTaken(cfg, sys, step);
      hide Take, Enabled;
      CarriedAfterDelivery(assumed, cfg, sys, step.read, step.sendThrew);
    } else {
      hide Take, Enabled;
      CarriedAfterSupervisor(assumed, cfg, sys, step);
    }
  }

  lemma {:induction false} RunsCarry(assumed: bool, cfg: Config, thrown: Option<Code>, steps: seq<Step>)
    requires ValidConfig(cfg) && IsRun(cfg, Start(cfg, thrown), steps)
    requires assumed ==> IsAssumedRun(cfg, Start(cfg, thrown), steps)
    ensures Carried(assumed, cfg, After(cfg, Start(cfg, thrown), steps))
    decreases |steps|
  {
    hide Take, Enabled, Carried, Assumed;
    if steps == [] {
      ProcessStarts(assumed, cfg, thrown);
    } else {
      var front := steps[..|steps| - 1];
      RunsCarry(assumed, cfg, thrown, front);
      NoProtocolError(cfg, thrown, front);
      CarriedStep(assumed, cfg, After(cfg, Start(cfg, thrown), front), steps[|steps| - 1]);
    }
  }

  /** In every run, whatever the environment does, a finished attempt's result passes the
      acceptor exactly when it is faultless. */
  lemma ResultIsAcceptedIff(cfg: Config, thrown: Option<Code>, steps: seq<Step>)
    requires ValidConfig(cfg) && IsRun(cfg, Start(cfg, thrown), steps)
    requires After(cfg, Start(cfg, thrown), steps).r.stage.Finished?
    ensures var result := After(cfg, Start(cfg, thrown), steps).r.stage.result;
      Acceptable(result, cfg.termGrace) <==> Faultless(result, cfg.termGrace)
  {
    hide Acceptable, Faultless, ChoiceInvariant, ProcessInvariant, SignalInvariant;
    RunsCarry(false, cfg, thrown, steps);
  }

  /** Whatever the order of messages, timers, aborts and probes, under the assumptions a
      finished attempt's result is faultless and passes the acceptor. */
  lemma EveryResultIsAccepted(cfg: Config, thrown: Option<Code>, steps: seq<Step>)
    requires ValidConfig(cfg) && IsRun(cfg, Start(cfg, thrown), steps)
    requires IsAssumedRun(cfg, Start(cfg, thrown), steps)
    requires After(cfg, Start(cfg, thrown), steps).r.stage.Finished?
    ensures Acceptable(After(cfg, Start(cfg, thrown), steps).r.stage.result, cfg.termGrace)
  {
    hide Acceptable, Faultless, ChoiceInvariant, ProcessInvariant, SignalInvariant;
    RunsCarry(true, cfg, thrown, steps);
  }

  /** An attempt cancelled before it began reports itself in one instant. */
  function CancelledBeforeLaunch(now: Time): Result {
    Result(Boundary(now, None, now, now), None, None, NO_STATUS, "external-cancel", true, None,
           Cleanup(ExternalCancel, NO_ACTION, NO_ACTION, false, true, true, None, None, None),
           Stream(true, None), Stream(true, None))
  }

  lemma CancelledIsAccepted(now: Time, grace: nat)
    ensures Acceptable(CancelledBeforeLaunch(now), grace)
  {
  }
}
