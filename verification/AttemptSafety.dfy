/** What holds in every run of an attempt: an orderly shutdown never meets a live workload,
    the two sides never disagree about the protocol, and one terminal cause is chosen once. */
module AttemptSafety {
  import opened Text
  import opened AttemptRunner
  import opened AttemptCleanup
  import opened AttemptSystem

  // Shutdown.

  /** The workload will not run any more. */
  predicate WorkloadOver(s: Supervisor) { s.workload.NeverStarted? || s.workload.Ended? }

  predicate IsOverMessage(m: Message) { m.Exited? || m.Failed? }

  ghost predicate ShutdownInvariant(sys: System) {
    && (sys.s.launchReceived || Launch in sys.down ==> sys.r.link.launchSent)
    && (!sys.s.workload.NoWorkload? ==> sys.s.launchReceived)
    && (sys.r.link.launchSent ==> !sys.r.link.protocol.AwaitingReady? && !sys.r.link.protocol.SupervisorReady?)
    && (sys.r.link.protocol.WorkloadTerminal? ==> WorkloadOver(sys.s))
    && (forall i :: 0 <= i < |sys.up| && IsOverMessage(sys.up[i].message) ==> WorkloadOver(sys.s))
    && (Shutdown in sys.down || sys.s.leaving ==> sys.r.stop.requested)
    && (sys.r.stop.requested ==> sys.r.terminal.Some? && (!sys.r.link.launchSent || WorkloadOver(sys.s)))
    && (!sys.r.stage.Waiting? ==> sys.r.terminal.Some?)
    && !sys.liveShutdown
  }

  lemma ShutdownStarts(cfg: Config, thrown: Option<Code>)
    ensures ShutdownInvariant(Start(cfg, thrown))
  {
  }

  /** What the shutdown argument needs of the runner does not move. */
  predicate KeepsProtocol(r: Runner, r': Runner) {
    && r'.link.launchSent == r.link.launchSent && r'.link.protocol == r.link.protocol && r'.stage == r.stage
    && r'.stop.requested == r.stop.requested && (r.terminal.Some? ==> r'.terminal == r.terminal)
  }

  /** A cleanup step asks for shutdown only when the workload is settled. */
  predicate CleansUp(r: Runner, r': Runner) {
    && r'.link == r.link && r'.task == r.task && r'.child == r.child && r'.terminal == r.terminal
    && r'.retrying == r.retrying && r'.identityError == r.identityError
    && (r.stop.requested ==> r'.stop.requested)
    && (r'.stop.requested ==> r.stop.requested || WorkloadSettled(r.link.protocol))
    && !r'.stage.Waiting?
  }

  lemma BeginCleans(cfg: Config, r: Runner, listing: Listing, world: World, channel: Channel, at: Time)
    ensures CleansUp(r, Begin(cfg, r, listing, world, channel, at))
  {
    hide SignalTarget, HasResidue, ProbeGroup;
  }

  lemma DrainCleans(cfg: Config, r: Runner, first: Listing, last: Listing, final: Listing, now: Time, world: World,
                    channel: Channel, at: Time)
    requires r.stage.Draining?
    ensures CleansUp(r, Drain(cfg, r, first, last, final, now, world, channel, at))
  {
    hide SignalTarget, HasResidue, ProbeGroup;
  }

  lemma ConcludeCleans(cfg: Config, r: Runner, world: World, at: Time)
    requires !r.stage.Waiting?
    ensures CleansUp(r, Conclude(cfg, r, world, at))
    ensures Conclude(cfg, r, world, at).stop.requested == r.stop.requested
  {
    hide SignalTarget, BuildResult;
  }

  lemma SettleCleans(cfg: Config, r: Runner, first: Listing, last: Listing, final: Listing, now: Time, world: World,
                     at: Time)
    requires r.stage.Settling?
    ensures CleansUp(r, Settle(cfg, r, first, last, final, now, world, at))
    ensures Settle(cfg, r, first, last, final, now, world, at).stop.requested == r.stop.requested
  {
    hide SignalTarget, ProbeGroup, Conclude;
    var probed := Probed(r, first);
    ConcludeCleans(cfg, Probed(probed, final), world, at);
    ConcludeCleans(cfg, Probed(Probed(probed, last), final), world, at);
  }

  lemma CloseCleans(cfg: Config, r: Runner, at: Time)
    requires !r.stage.Waiting?
    ensures CleansUp(r, Close(cfg, r, at)) && Close(cfg, r, at).stop.requested == r.stop.requested
  {
    hide BuildResult;
  }

  /** Every cleanup step of a run. */
  lemma CleanupStep(cfg: Config, sys: System, step: Step)
    requires Enabled(cfg, sys, step) && IsCleanup(step)
    ensures CleansUp(sys.r, Take(cfg, sys, step).r)
    ensures Take(cfg, sys, step).s == sys.s && Take(cfg, sys, step).up == sys.up
    ensures sys.now <= Take(cfg, sys, step).now
    ensures Take(cfg, sys, step).clean == sys.clean && Take(cfg, sys, step).liveShutdown == sys.liveShutdown
    ensures Take(cfg, sys, step).down == sys.down
         || (Take(cfg, sys, step).down == sys.down + [Shutdown] && Take(cfg, sys, step).r.stop.requested)
  {
    hide Begin, Drain, Settle, Close, BuildResult, ProbeGroup;
    match step
    case BeginCleanup(first, world, channel) => BeginCleans(cfg, sys.r, first, world, channel, sys.now);
    case DrainTurn(first, last, final, world, channel, time) =>
      DrainCleans(cfg, sys.r, first, last, final, sys.now, world, channel, time);
    case SettleTurn(first, last, final, world, time) =>
      SettleCleans(cfg, sys.r, first, last, final, sys.now, world, time);
    case Reprobe(first) =>
      CloseCleans(cfg, Probed(sys.r, first), sys.now);
    case Collect =>
  }

  predicate IsCleanup(step: Step) {
    step.BeginCleanup? || step.DrainTurn? || step.SettleTurn? || step.Reprobe? || step.Collect?
  }

  predicate IsRunnerEvent(step: Step) {
    step.Spawned? || step.SpawnFailed? || step.LaunchSendFailed? || step.SupervisorExited? || step.Abort?
    || step.Deadline? || step.ShutdownSettles? || step.StreamEnds? || step.StreamFails?
  }

  lemma DeadlineKeeps(cfg: Config, r: Runner, now: Time, read: Read, again: bool)
    ensures KeepsProtocol(r, OnDeadline(cfg, r, now, now, read, again))
  {
  }

  lemma SupervisorExitKeeps(cfg: Config, r: Runner, status: Status, at: Time)
    ensures KeepsProtocol(r, OnSupervisorExit(cfg, r, status, at))
  {
  }

  lemma RunnerEventKeeps(cfg: Config, sys: System, step: Step)
    requires Enabled(cfg, sys, step) && IsRunnerEvent(step)
    ensures Take(cfg, sys, step) == sys.(r := Take(cfg, sys, step).r)
    ensures KeepsProtocol(sys.r, Take(cfg, sys, step).r)
  {
    hide Enabled, OnDeadline, OnSupervisorExit, OnBoot, OnCommand, OnChildSpawned, OnChildError, Send, SendFatal, OnDeliver, Cleaning,
         Begin, Drain, Settle, Close, Finish, Probed;
    match step
    case Deadline(read) => DeadlineKeeps(cfg, sys.r, sys.now, read, sys.r.retrying);
    case SupervisorExited(status) => SupervisorExitKeeps(cfg, sys.r, status, sys.now);
    case Spawned(_) =>
    case SpawnFailed(_) =>
    case LaunchSendFailed(_) =>
    case Abort =>
    case ShutdownSettles(_) =>
    case StreamEnds(_) =>
    case StreamFails(_, _) =>
  }

  lemma ShutdownAfterCleanup(sys: System, sys': System)
    requires ShutdownInvariant(sys) && CleansUp(sys.r, sys'.r) && sys.r.terminal.Some?
    requires sys'.s == sys.s && sys'.up == sys.up && sys'.liveShutdown == sys.liveShutdown
    requires sys'.down == sys.down || (sys'.down == sys.down + [Shutdown] && sys'.r.stop.requested)
    ensures ShutdownInvariant(sys')
  {
  }

  lemma ShutdownAfterEvent(sys: System, r: Runner)
    requires ShutdownInvariant(sys) && KeepsProtocol(sys.r, r)
    ensures ShutdownInvariant(sys.(r := r))
  {
  }

  /** What one message may do to the protocol. */
  predicate Advances(r: Runner, r': Runner, m: Message) {
    && (r.terminal.Some? ==> r'.terminal == r.terminal) && r'.stop == r.stop && r'.stage == r.stage
    && (r'.link.launchSent != r.link.launchSent ==>
          r'.link.launchSent && r.terminal.None? && r'.link.protocol.LaunchSent?)
    && (|| r'.link.protocol == r.link.protocol
        || (r.link.protocol.AwaitingReady? && r'.link.protocol.SupervisorReady? && r'.link.launchSent == r.link.launchSent)
        || (r.link.protocol.AwaitingReady? && r'.link.protocol.LaunchSent? && r'.link.launchSent)
        || (r.link.protocol.LaunchSent? && r'.link.protocol.WorkloadStarted?)
        || ((r.link.protocol.LaunchSent? || r.link.protocol.WorkloadStarted?) && r'.link.protocol.WorkloadTerminal?
            && IsOverMessage(m)))
    && (r'.link.protocol == r.link.protocol ==> r'.link.launchSent == r.link.launchSent)
  }

  lemma ReadyAdvances(cfg: Config, r: Runner, m: Message, stamp: Time, at: Time, read: Read, sendThrew: Option<Code>)
    requires m.Ready?
    ensures Advances(r, OnReady(cfg, r, m, stamp, at, read, sendThrew), m)
  {
    assert !read.Found? ==> !Matches(Some(Identity(m.pid, m.pid, m.pid, Some(m.ticks), true)), Observed(read));
    hide Matches, LeadsItsGroup, AffinityDiffers, SendLaunch;
    if read.Found? {
      var ready := NoteRead(r, read).(child := r.child.(identity := Some(read.identity)),
                                      link := r.link.(protocol := SupervisorReady));
      LaunchAdvances(cfg, ready, stamp, at, sendThrew);
    }
  }

  lemma LaunchAdvances(cfg: Config, ready: Runner, stamp: Time, at: Time, sendThrew: Option<Code>)
    ensures var r' := SendLaunch(cfg, ready, stamp, at, sendThrew);
      && (ready.terminal.Some? ==> r'.terminal == ready.terminal) && r'.stop == ready.stop && r'.stage == ready.stage
      && (r'.link == ready.link
          || (ready.terminal.None? && r'.link == ready.link.(launchSent := true, protocol := LaunchSent)))
  {
  }

  lemma StartedAdvances(cfg: Config, r: Runner, m: Message, stamp: Time, at: Time, read: Read)
    requires m.Started?
    ensures Advances(r, OnStarted(cfg, r, m, stamp, at, read), m)
  {
    hide Matches, AffinityDiffers;
  }

  lemma ExitedAdvances(cfg: Config, r: Runner, m: Message, stamp: Time, at: Time)
    requires m.Exited?
    ensures Advances(r, OnExited(cfg, r, m, stamp, at), m)
  {
  }

  lemma FailedAdvances(cfg: Config, r: Runner, m: Message, stamp: Time, at: Time)
    requires m.Failed?
    ensures Advances(r, OnFailed(cfg, r, m, stamp, at), m)
  {
  }

  lemma OverAdvances(cfg: Config, r: Runner, m: Message, stamp: Time, at: Time)
    ensures m.Exited? ==> Advances(r, OnExited(cfg, r, m, stamp, at), m)
    ensures m.Failed? ==> Advances(r, OnFailed(cfg, r, m, stamp, at), m)
    ensures m.Fatal? ==> Advances(r, OnFatal(r, m, at), m)
  {
    if m.Exited? { ExitedAdvances(cfg, r, m, stamp, at); }
    if m.Failed? { FailedAdvances(cfg, r, m, stamp, at); }
    hide OnExited, OnFailed;
  }

  /** A delivered message sends the launch at most once, and only before a terminal choice. */
  lemma MessageAdvances(cfg: Config, r: Runner, sm: Stamped, at: Time, read: Read, sendThrew: Option<Code>)
    ensures Advances(r, OnMessage(cfg, r, sm, at, at, read, sendThrew), sm.message)
  {
    hide OnReady, OnStarted, OnExited, OnFailed, OnFatal;
    var timed := r.(link := r.link.(lastStamp := Some(sm.stamp)));
    OverAdvances(cfg, timed, sm.message, sm.stamp, at);
    match sm.message
    case Ready(_, _, _) => ReadyAdvances(cfg, timed, sm.message, sm.stamp, at, read, sendThrew);
    case Started(_, _, _) => StartedAdvances(cfg, timed, sm.message, sm.stamp, at, read);
    case _ =>
  }

  lemma ShutdownAfterDelivery(cfg: Config, sys: System, read: Read, sendThrew: Option<Code>)
    requires ShutdownInvariant(sys) && sys.up != []
    ensures ShutdownInvariant(OnDeliver(cfg, sys, read, sendThrew))
  {
    MessageAdvances(cfg, sys.r, sys.up[0], sys.now, read, sendThrew);
    hide OnMessage, CheckFails;
    assert forall i :: 0 <= i < |sys.up[1..]| ==> sys.up[1..][i] == sys.up[i + 1];
  }

  lemma ShutdownAfterCommand(sys: System, outcome: LaunchOutcome)
    requires ShutdownInvariant(sys) && sys.down != []
    ensures ShutdownInvariant(OnCommand(sys, outcome))
  {
    assert forall c :: c in sys.down[1..] ==> c in sys.down;
  }

  lemma ShutdownAfterChild(cfg: Config, sys: System, step: Step)
    requires ShutdownInvariant(sys) && !sys.s.workload.NoWorkload?
    ensures step.ChildSpawned? && sys.s.workload.Spawning? ==> ShutdownInvariant(OnChildSpawned(cfg, sys, step))
    ensures step.ChildError? && !sys.s.workload.NeverStarted? ==> ShutdownInvariant(OnChildError(sys, step.code))
    ensures step.ChildExited? && sys.s.workload.Running? ==>
              ShutdownInvariant(Send(sys.(s := sys.s.(workload := Ended)), Exited(step.status)))
  {
    hide AffinityDiffers;
  }

  lemma ShutdownAfterSupervisor(cfg: Config, sys: System, step: Step)
    requires ShutdownInvariant(sys) && Enabled(cfg, sys, step)
    requires !IsCleanup(step) && !IsRunnerEvent(step) && !step.Deliver?
    ensures ShutdownInvariant(Take(cfg, sys, step))
  {
    hide ShutdownInvariant, OnCommand, OnChildSpawned, OnChildError, Send, OnBoot, SendFatal;
    if step.Receive? { ShutdownAfterCommand(sys, step.outcome); }
    if step.ChildSpawned? || step.ChildError? || step.ChildExited? { ShutdownAfterChild(cfg, sys, step); }
    if step.Boot? { ShutdownAfterBoot(cfg, sys, step); }
    if step.Collapse? { ShutdownAfterCollapse(sys, step.code); }
    if step.Tick? || step.Die? { ShutdownAfterQuietStep(sys, Take(cfg, sys, step)); }
  }

  lemma ShutdownAfterBoot(cfg: Config, sys: System, step: Step)
    requires ShutdownInvariant(sys) && step.Boot?
    ensures ShutdownInvariant(OnBoot(cfg, sys, step))
  {
    hide AffinityDiffers;
  }

  lemma ShutdownAfterCollapse(sys: System, code: Code)
    requires ShutdownInvariant(sys)
    ensures ShutdownInvariant(SendFatal(sys, code))
  {
  }

  lemma ShutdownAfterQuietStep(sys: System, sys': System)
    requires ShutdownInvariant(sys)
    requires sys' == sys.(now := sys'.now, s := sys.s.(life := sys'.s.life))
    ensures ShutdownInvariant(sys')
  {
  }

  lemma ShutdownStep(cfg: Config, sys: System, step: Step)
    requires ShutdownInvariant(sys) && Enabled(cfg, sys, step)
    ensures ShutdownInvariant(Take(cfg, sys, step))
  {
    hide ShutdownInvariant, Enabled, KeepsProtocol, CleansUp;
    if IsCleanup(step) {
      CleanupStep(cfg, sys, step);
      CleaningNeedsChoice(cfg, sys, step);
      ShutdownAfterCleanup(sys, Take(cfg, sys, step));
    } else if IsRunnerEvent(step) {
      RunnerEventKeeps(cfg, sys, step);
      ShutdownAfterEvent(sys, Take(cfg, sys, step).r);
    } else if step.Deliver? {
      DeliveryIsTaken(cfg, sys, step);
      ShutdownAfterDelivery(cfg, sys, step.read, step.sendThrew);
    } else {
      ShutdownAfterSupervisor(cfg, sys, step);
    }
  }

  lemma CleaningNeedsChoice(cfg: Config, sys: System, step: Step)
    requires ShutdownInvariant(sys) && Enabled(cfg, sys, step) && IsCleanup(step)
    ensures sys.r.terminal.Some?
  {
  }

  lemma DeliveryIsTaken(cfg: Config, sys: System, step: Step)
    requires Enabled(cfg, sys, step) && step.Deliver?
    ensures sys.up != [] && Take(cfg, sys, step) == OnDeliver(cfg, sys, step.read, step.sendThrew)
  {
  }

  /** In every run, the runner never asks a supervisor with a live workload to shut down. */
  lemma {:induction false} ShutdownNeverMeetsALiveWorkload(cfg: Config, thrown: Option<Code>, steps: seq<Step>)
    requires IsRun(cfg, Start(cfg, thrown), steps)
    ensures ShutdownInvariant(After(cfg, Start(cfg, thrown), steps))
    ensures !After(cfg, Start(cfg, thrown), steps).liveShutdown
    decreases |steps|
  {
    if steps == [] {
      ShutdownStarts(cfg, thrown);
    } else {
      var front := steps[..|steps| - 1];
      ShutdownNeverMeetsALiveWorkload(cfg, thrown, front);
      ShutdownStep(cfg, After(cfg, Start(cfg, thrown), front), steps[|steps| - 1]);
    }
  }
}
