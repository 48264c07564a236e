/** Which runs end in a refused result: the events behind the condition of
    AttemptResults.ResultIsAcceptedIff. */
module AttemptFaults {
  import opened Text
  import opened AttemptRunner
  import opened AttemptCleanup
  import opened AttemptSystem
  import opened AttemptSafety
  import opened AttemptTerminal
  import opened AttemptEvidence
  import opened AttemptResults

  // Events.

  predicate ExitReported(steps: seq<Step>) { exists i :: 0 <= i < |steps| && steps[i].SupervisorExited? }

  /** A started message that the runner waits for and takes at its word so far. */
  predicate Awaited(cfg: Config, r: Runner, sm: Stamped, now: Time) {
    && sm.message.Started? && sm.stamp <= now && (r.link.lastStamp.Some? ==> r.link.lastStamp.value <= sm.stamp)
    && r.link.protocol.LaunchSent? && sm.message.pid > 1 && !AffinityDiffers(cfg, sm.message.cpus)
  }

  /** The workload answers, but with other start ticks than its supervisor read. */
  predicate HalfBinds(cfg: Config, sys: System, step: Step) {
    step.Deliver? && sys.up != [] && Awaited(cfg, sys.r, sys.up[0], sys.now) && !TicksAreStable(cfg, sys, step)
  }

  predicate HalfBound(cfg: Config, sys: System, steps: seq<Step>)
    requires IsRun(cfg, sys, steps)
    decreases |steps|
  {
    steps != [] &&
    (HalfBound(cfg, sys, steps[..|steps| - 1])
     || HalfBinds(cfg, After(cfg, sys, steps[..|steps| - 1]), steps[|steps| - 1]))
  }

  // What the events leave in the runner.

  predicate IsStarted(sm: Stamped) { sm.message.Started? }

  /** At most one started message is ever under way, and none once one has been taken. */
  ghost predicate OneStart(sys: System) {
    && (sys.s.workload.NoWorkload? || sys.s.workload.Spawning? || sys.s.workload.NeverStarted? ==>
          sys.r.task.identity.None? && forall i :: 0 <= i < |sys.up| ==> !IsStarted(sys.up[i]))
    && (forall i, j :: 0 <= i < j < |sys.up| && IsStarted(sys.up[i]) ==> !IsStarted(sys.up[j]))
    && (forall i :: 0 <= i < |sys.up| && IsStarted(sys.up[i]) ==> sys.r.task.identity.None?)
    && (sys.r.task.startedAt.Some? ==> sys.r.task.identity.Some?)
  }

  ghost predicate HalfTaken(r: Runner) { r.task.identity.Some? && r.task.startedAt.None? }

  lemma OneStartAfterQuiet(sys: System, sys': System)
    requires OneStart(sys) && sys'.up == sys.up && sys'.r.task.identity == sys.r.task.identity
    requires sys'.r.task.startedAt == sys.r.task.startedAt && sys'.s.workload == sys.s.workload
    ensures OneStart(sys') && HalfTaken(sys'.r) == HalfTaken(sys.r)
  {
  }

  /** What a step of the supervisor may do to the workload and to the messages under way. */
  predicate SupervisorMoves(sys: System, sys': System) {
    && sys'.r == sys.r
    && (sys'.s.workload.NoWorkload? || sys'.s.workload.Spawning? || sys'.s.workload.NeverStarted? ==>
          sys.s.workload.NoWorkload? || sys.s.workload.Spawning? || sys.s.workload.NeverStarted?)
    && (sys'.up == sys.up
        || (|sys'.up| == |sys.up| + 1 && sys'.up[..|sys.up|] == sys.up
            && (IsStarted(sys'.up[|sys.up|]) ==> sys.s.workload.Spawning? && sys'.s.workload.Running?)))
  }

  lemma OneStartAfterMove(sys: System, sys': System)
    requires OneStart(sys) && SupervisorMoves(sys, sys')
    ensures OneStart(sys')
  {
    forall i | 0 <= i < |sys.up| ensures sys'.up[i] == sys.up[i] {
      if sys'.up != sys.up { assert sys'.up[..|sys.up|][i] == sys'.up[i]; }
    }
  }

  lemma CommandMoves(sys: System, outcome: LaunchOutcome)
    requires sys.down != [] && (!sys.s.workload.NoWorkload? ==> sys.s.launchReceived)
    ensures SupervisorMoves(sys, OnCommand(sys, outcome))
  {
  }

  lemma ChildMoves(cfg: Config, sys: System, step: Step)
    ensures step.ChildSpawned? && sys.s.workload.Spawning? ==> SupervisorMoves(sys, OnChildSpawned(cfg, sys, step))
    ensures step.ChildError? ==> SupervisorMoves(sys, OnChildError(sys, step.code))
    ensures step.ChildExited? ==> SupervisorMoves(sys, Send(sys.(s := sys.s.(workload := Ended)), Exited(step.status)))
  {
    hide AffinityDiffers;
  }

  lemma OtherMoves(cfg: Config, sys: System, step: Step)
    ensures step.Boot? ==> SupervisorMoves(sys, OnBoot(cfg, sys, step))
    ensures step.Collapse? ==> SupervisorMoves(sys, SendFatal(sys, step.code))
  {
    hide AffinityDiffers;
  }

  lemma SupervisorStepMoves(cfg: Config, sys: System, step: Step)
    requires Enabled(cfg, sys, step) && !IsCleanup(step) && !IsRunnerEvent(step) && !step.Deliver?
    requires !sys.s.workload.NoWorkload? ==> sys.s.launchReceived
    ensures SupervisorMoves(sys, Take(cfg, sys, step))
  {
    hide OnCommand, OnChildSpawned, OnChildError, OnBoot, SendFatal, Send, OnDeliver, Cleaning, Begin, Drain, Settle,
         Close, Finish, Probed, OnSpawn, OnDeadline, OnSupervisorExit;
    match step
    case Receive(outcome) => CommandMoves(sys, outcome);
    case ChildSpawned(_, _, _, _) => ChildMoves(cfg, sys, step);
    case ChildError(_) => ChildMoves(cfg, sys, step);
    case ChildExited(_) => ChildMoves(cfg, sys, step);
    case _ => OtherMoves(cfg, sys, step);
  }

  // Messages.

  lemma StartedTakes(cfg: Config, r: Runner, sm: Stamped, now: Time, read: Read)
    requires sm.message.Started? && ReadOf(read, sm.message.pid)
    requires r.task.identity.None? && r.task.startedAt.None?
    ensures var r' := OnMessage(cfg, r, sm, now, now, read, None);
      && r'.child == r.child && (r'.task.startedAt.Some? ==> r'.task.identity.Some?)
      && (HalfTaken(r') <==> Awaited(cfg, r, sm, now) && sm.message.bound.Some? && InGroup(cfg, read)
                             && read.identity.ticks != sm.message.bound)
  {
    hide AffinityDiffers;
  }

  lemma SendingIsNothing(cfg: Config, r: Runner, sm: Stamped, now: Time, read: Read, sendThrew: Option<Code>)
    requires sm.message.Started?
    ensures OnMessage(cfg, r, sm, now, now, read, sendThrew) == OnMessage(cfg, r, sm, now, now, read, None)
  {
    hide OnStarted;
  }

  /** Any other message leaves the workload and the exit status alone. */
  lemma OtherTakes(cfg: Config, r: Runner, sm: Stamped, now: Time, read: Read, sendThrew: Option<Code>)
    requires !sm.message.Started? && (sm.message.Ready? ==> ReadOf(read, sm.message.pid))
    ensures var r' := OnMessage(cfg, r, sm, now, now, read, sendThrew);
      && r'.task.identity == r.task.identity && r'.task.startedAt == r.task.startedAt
      && r'.child.status == r.child.status
  {
    hide OnReady, OnStarted, OnExited, OnFailed, OnFatal;
    var timed := r.(link := r.link.(lastStamp := Some(sm.stamp)));
    if sm.message.Ready? { ReadyKeepsProcess(cfg, timed, sm.message, sm.stamp, now, read, sendThrew); }
    OverKeepsProcess(cfg, timed, sm.message, sm.stamp, now);
  }

  lemma OneStartAfterMessage(sys: System, sys': System)
    requires OneStart(sys) && sys.up != [] && sys'.up == sys.up[1..] && sys'.s == sys.s
    requires IsStarted(sys.up[0]) || (sys'.r.task.identity == sys.r.task.identity
                                      && sys'.r.task.startedAt == sys.r.task.startedAt)
    requires sys'.r.task.startedAt.Some? ==> sys'.r.task.identity.Some?
    ensures OneStart(sys')
  {
    forall i | 0 <= i < |sys'.up| ensures sys'.up[i] == sys.up[i + 1] { }
  }

  lemma DeliveryTakes(cfg: Config, sys: System, read: Read, sendThrew: Option<Code>)
    requires OneStart(sys) && Enabled(cfg, sys, Deliver(read, sendThrew))
    ensures var sys' := OnDeliver(cfg, sys, read, sendThrew);
      && OneStart(sys') && sys'.r.child.status == sys.r.child.status
      && (HalfTaken(sys'.r) <==> HalfTaken(sys.r) || HalfBinds(cfg, sys, Deliver(read, sendThrew)))
  {
    hide OnMessage, Awaited, InGroup, CheckFails;
    var sm := sys.up[0];
    if sm.message.Started? {
      assert IsStarted(sm);
      StartedTakes(cfg, sys.r, sm, sys.now, read);
      SendingIsNothing(cfg, sys.r, sm, sys.now, read, sendThrew);
    } else {
      OtherTakes(cfg, sys.r, sm, sys.now, read, sendThrew);
    }
    OneStartAfterMessage(sys, OnDeliver(cfg, sys, read, sendThrew));
  }

  // Events of the runner.

  lemma EventTakes(cfg: Config, sys: System, step: Step)
    requires Enabled(cfg, sys, step) && IsRunnerEvent(step)
    ensures Take(cfg, sys, step).r.task == sys.r.task
    ensures Take(cfg, sys, step).r.child.status.Some? <==> sys.r.child.status.Some? || step.SupervisorExited?
  {
    hide OnDeadline, Enabled, OnBoot, OnCommand, OnChildSpawned, OnChildError, Send, SendFatal, OnDeliver, Cleaning,
         Begin, Drain, Settle, Close, Finish, Probed;
    if step.Deadline? { ProcessAfterDeadline(cfg, sys.r, sys.now, step.read, sys.r.retrying); }
  }

  // Along a run.

  ghost predicate FaultsSeen(cfg: Config, sys0: System, steps: seq<Step>)
    requires IsRun(cfg, sys0, steps)
  {
    var sys := After(cfg, sys0, steps);
    && OneStart(sys) && (sys.r.child.status.Some? <==> ExitReported(steps))
    && (HalfTaken(sys.r) <==> HalfBound(cfg, sys0, steps))
  }

  lemma ExitSnoc(steps: seq<Step>)
    requires steps != []
    ensures ExitReported(steps) <==> ExitReported(steps[..|steps| - 1]) || steps[|steps| - 1].SupervisorExited?
  {
    var front := steps[..|steps| - 1];
    assert steps == front + [steps[|steps| - 1]];
    if i :| 0 <= i < |front| && front[i].SupervisorExited? { assert steps[i].SupervisorExited?; }
    if i :| 0 <= i < |steps| && steps[i].SupervisorExited? { if i < |front| { assert front[i].SupervisorExited?; } }
  }

  lemma StepTakes(cfg: Config, sys: System, step: Step)
    requires Enabled(cfg, sys, step) && OneStart(sys) && ShutdownInvariant(sys)
    ensures var sys' := Take(cfg, sys, step);
      && OneStart(sys') && (sys'.r.child.status.Some? <==> sys.r.child.status.Some? || step.SupervisorExited?)
      && (HalfTaken(sys'.r) <==> HalfTaken(sys.r) || HalfBinds(cfg, sys, step))
  {
    var received := sys.s.workload.NoWorkload? || sys.s.launchReceived;
    assert received;
    hide ShutdownInvariant, OneStart, HalfBinds;
    if IsCleanup(step) {
      CleanupStep(cfg, sys, step);
      hide Take, Enabled;
      OneStartAfterQuiet(sys, Take(cfg, sys, step));
      NotBinding(cfg, sys, step);
    } else if IsRunnerEvent(step) {
      RunnerEventKeeps(cfg, sys, step);
      EventTakes(cfg, sys, step);
      hide Take, Enabled;
      OneStartAfterQuiet(sys, Take(cfg, sys, step));
      NotBinding(cfg, sys, step);
    } else if step.Deliver? {
      DeliveryIsTaken(cfg, sys, step);
      hide Take, Enabled;
      DeliveryTakes(cfg, sys, step.read, step.sendThrew);
    } else {
      SupervisorStepMoves(cfg, sys, step);
      hide Take, Enabled;
      OneStartAfterMove(sys, Take(cfg, sys, step));
      NotBinding(cfg, sys, step);
    }
  }

  lemma NotBinding(cfg: Config, sys: System, step: Step)
    requires !step.Deliver?
    ensures !HalfBinds(cfg, sys, step)
  {
  }

  lemma {:induction false} RunsSeeFaults(cfg: Config, thrown: Option<Code>, steps: seq<Step>)
    requires IsRun(cfg, Start(cfg, thrown), steps)
    ensures FaultsSeen(cfg, Start(cfg, thrown), steps)
    decreases |steps|
  {
    hide Take, Enabled, OneStart, HalfTaken, HalfBinds, ExitReported, ShutdownInvariant;
    if steps == [] {
      NothingSeen(cfg, thrown);
    } else {
      var front := steps[..|steps| - 1];
      RunsSeeFaults(cfg, thrown, front);
      ShutdownNeverMeetsALiveWorkload(cfg, thrown, front);
      StepTakes(cfg, After(cfg, Start(cfg, thrown), front), steps[|steps| - 1]);
      ExitSnoc(steps);
    }
  }

  lemma NothingSeen(cfg: Config, thrown: Option<Code>)
    ensures FaultsSeen(cfg, Start(cfg, thrown), [])
  {
  }

  // The finishing step.

  /** What a result says of the runner that built it; collected: after a destroyed stream. */
  predicate Reports(r: Runner, result: Result, collected: bool) {
    && result.cleanup.supervisorStatus == r.child.status && result.supervisor == r.child.identity
    && result.workload == r.task.identity && result.boundary.started == r.task.startedAt
    && result.cleanup.term == r.signals.term && result.cleanup.kill == r.signals.kill
    && result.cleanup.outputDrained == !collected
    && (result.out.Complete() && result.err.Complete() <==> StreamsComplete(r))
    && (!collected ==> StreamsComplete(r))
  }

  lemma FinishReports(cfg: Config, r: Runner, drained: bool, outputDrained: bool, at: Time)
    requires r.terminal.Some? && (outputDrained ==> StreamsComplete(r))
    ensures var r' := Finish(cfg, r, drained, outputDrained, at);
      r'.stage.Finished? && Reports(r', r'.stage.result, !outputDrained)
  {
    hide FailureReason, CleanupComplete;
  }

  lemma CloseReports(cfg: Config, r: Runner, at: Time)
    requires !r.stage.Finished? && r.terminal.Some? && Close(cfg, r, at).stage.Finished?
    ensures Reports(Close(cfg, r, at), Close(cfg, r, at).stage.result, false)
  {
    hide Finish, Reports, StreamsComplete;
    if StreamsComplete(r) { FinishReports(cfg, r, r.group.probe.known && r.group.probe.members == [], true, at); }
  }

  lemma ConcludeReports(cfg: Config, r: Runner, world: World, at: Time)
    requires r.stage.Settling? && r.terminal.Some? && Conclude(cfg, r, world, at).stage.Finished?
    ensures Reports(Conclude(cfg, r, world, at), Conclude(cfg, r, world, at).stage.result, false)
  {
    hide Close, Reports, SignalTarget;
    if Conclude(cfg, r, world, at) == Close(cfg, r, at) { CloseReports(cfg, r, at); }
  }

  lemma SettleReports(cfg: Config, r: Runner, first: Listing, last: Listing, final: Listing, now: Time, world: World,
                      at: Time)
    requires r.stage.Settling? && r.terminal.Some? && Settle(cfg, r, first, last, final, now, world, at).stage.Finished?
    ensures var r' := Settle(cfg, r, first, last, final, now, world, at); Reports(r', r'.stage.result, false)
  {
    hide Conclude, Reports, ProbeGroup, Quiet;
    var probed := Probed(r, first);
    if Quiet(probed) {
      ConcludeReports(cfg, Probed(probed, final), world, at);
    } else if now >= r.stage.until {
      ConcludeReports(cfg, Probed(Probed(probed, last), final), world, at);
    }
  }

  lemma OnlyCleanupFinishes(cfg: Config, sys: System, step: Step)
    requires Enabled(cfg, sys, step) && !sys.r.stage.Finished? && Take(cfg, sys, step).r.stage.Finished?
    ensures step.SettleTurn? || step.Reprobe? || step.Collect?
  {
    hide Take, Enabled;
    if IsRunnerEvent(step) {
      RunnerEventKeeps(cfg, sys, step);
    } else if step.Deliver? {
      DeliveryIsTaken(cfg, sys, step);
      MessageAdvances(cfg, sys.r, sys.up[0], sys.now, step.read, step.sendThrew);
      hide OnMessage, CheckFails;
    } else if !IsCleanup(step) {
      SupervisorKeepsRunner(cfg, sys, step);
    } else if step.BeginCleanup? || step.DrainTurn? {
      OpeningDoesNotFinish(cfg, sys, step);
    }
  }

  lemma OpeningDoesNotFinish(cfg: Config, sys: System, step: Step)
    requires Enabled(cfg, sys, step) && (step.BeginCleanup? || step.DrainTurn?)
    ensures !Take(cfg, sys, step).r.stage.Finished?
  {
    hide Begin, Drain, Settle, Close, Finish;
    if step.BeginCleanup? {
      BeginDoesNotFinish(cfg, sys.r, step.first, step.world, step.channel, sys.now);
    } else {
      DrainDoesNotFinish(cfg, sys.r, step.first, step.last, step.final, sys.now, step.world, step.channel, step.time);
    }
  }

  lemma FinishingReports(cfg: Config, sys: System, step: Step)
    requires Enabled(cfg, sys, step) && !sys.r.stage.Finished? && Take(cfg, sys, step).r.stage.Finished?
    requires sys.r.terminal.Some?
    ensures Reports(Take(cfg, sys, step).r, Take(cfg, sys, step).r.stage.result, step.Collect?)
  {
    OnlyCleanupFinishes(cfg, sys, step);
    hide Begin, Drain, Settle, Close, Finish, Reports, OnBoot, OnCommand, OnChildSpawned, OnChildError, OnDeliver;
    if step.SettleTurn? {
      SettleReports(cfg, sys.r, step.first, step.last, step.final, sys.now, step.world, step.time);
    } else if step.Reprobe? {
      CloseReports(cfg, Probed(sys.r, step.first), sys.now);
    } else {
      FinishReports(cfg, sys.r, sys.r.stage.drained, false, sys.now);
    }
  }

  // The condition.

  /** A KILL before the grace period after TERM was over. */
  predicate Hasty(signals: Signals, grace: nat) {
    && signals.term.attempted && signals.kill.attempted && signals.term.at.Some? && signals.kill.at.Some?
    && signals.kill.at.value < signals.term.at.value + grace
  }

  lemma FaultlessIff(r: Runner, result: Result, collected: bool, grace: nat)
    requires Reports(r, result, collected) && (r.task.startedAt.Some? ==> r.task.identity.Some?)
    requires r.signals.term.attempted ==> r.signals.term.at.Some?
    requires r.signals.kill.attempted ==> r.signals.kill.at.Some?
    ensures Faultless(result, grace) <==>
              && (r.child.status.Some? ==> r.child.identity.Some?) && !HalfTaken(r)
              && !(collected && StreamsComplete(r)) && !Hasty(r.signals, grace)
  {
    hide StreamsComplete;
  }

  lemma SignalsAreDated(cfg: Config, sys: System)
    requires Carried(false, cfg, sys)
    ensures sys.r.signals.term.attempted ==> sys.r.signals.term.at.Some?
    ensures sys.r.signals.kill.attempted ==> sys.r.signals.kill.at.Some?
    ensures !sys.r.stage.Waiting? ==> sys.r.terminal.Some?
  {
    hide ChoiceInvariant, ProcessInvariant, ResultInvariant, AcceptsGrace, StreamsComplete;
  }

  lemma StageNeedsChoice(cfg: Config, sys: System, step: Step)
    requires Enabled(cfg, sys, step) && (step.SettleTurn? || step.Reprobe? || step.Collect?)
    ensures !sys.r.stage.Waiting?
  {
  }

  /** The run that ends when its attempt finishes is refused exactly if a supervisor's exit was
      reported and its identity never read, or the workload answered with other start ticks
      than its supervisor read, or streams destroyed for being incomplete were complete in the
      end, or KILL came inside the grace period after TERM. */
  lemma RefusedIff(cfg: Config, thrown: Option<Code>, steps: seq<Step>)
    requires ValidConfig(cfg) && IsRun(cfg, Start(cfg, thrown), steps) && steps != []
    requires !After(cfg, Start(cfg, thrown), steps[..|steps| - 1]).r.stage.Finished?
    requires After(cfg, Start(cfg, thrown), steps).r.stage.Finished?
    ensures var r := After(cfg, Start(cfg, thrown), steps).r;
      !Acceptable(r.stage.result, cfg.termGrace) <==>
        || (ExitReported(steps) && r.child.identity.None?)
        || HalfBound(cfg, Start(cfg, thrown), steps)
        || (steps[|steps| - 1].Collect? && StreamsComplete(r))
        || Hasty(r.signals, cfg.termGrace)
  {
    hide Acceptable, Faultless, Carried, Reports, Take, Enabled, HalfBinds, HalfTaken, ExitReported, StreamsComplete,
         Hasty, ProcessInvariant;
    var front, last := steps[..|steps| - 1], steps[|steps| - 1];
    var sys, end := After(cfg, Start(cfg, thrown), front), After(cfg, Start(cfg, thrown), steps);
    RunsCarry(false, cfg, thrown, front);
    RunsCarry(false, cfg, thrown, steps);
    SignalsAreDated(cfg, sys);
    SignalsAreDated(cfg, end);
    OnlyCleanupFinishes(cfg, sys, last);
    StageNeedsChoice(cfg, sys, last);
    FinishingReports(cfg, sys, last);
    RunsSeeFaults(cfg, thrown, steps);
    ResultIsAcceptedIff(cfg, thrown, steps);
    assert end.r.task.startedAt.Some? ==> end.r.task.identity.Some? by { SeenIsOrdered(end); }
    FaultlessIff(end.r, end.r.stage.result, last.Collect?, cfg.termGrace);
  }

  lemma SeenIsOrdered(sys: System)
    requires OneStart(sys)
    ensures sys.r.task.startedAt.Some? ==> sys.r.task.identity.Some?
  {
  }
}
