/** Absent a supervisor fatal, an affinity difference or a failed identity check, the runner
    meets no message its protocol state does not expect. */
module AttemptAgreement {
  import opened Text
  import opened AttemptRunner
  import opened AttemptCleanup
  import opened AttemptSystem
  import opened AttemptSafety

  /** The kinds of message in flight are the ones the runner is waiting for. */
  ghost predicate InStep(sys: System) {
    var up, w := sys.up, sys.s.workload;
    match sys.r.link.protocol
    case AwaitingReady =>
      && w.NoWorkload? && !sys.s.launchReceived && Launch !in sys.down
      && (sys.s.life.Starting? ==> up == []) && |up| <= 1 && (|up| == 1 ==> up[0].message.Ready?)
    case SupervisorReady =>
      !sys.s.life.Starting? && up == [] && w.NoWorkload? && !sys.s.launchReceived && Launch !in sys.down
    case LaunchSent =>
      && !sys.s.life.Starting? && |up| <= 2
      && (sys.s.launchReceived ==> Launch !in sys.down)
      && (if |up| == 0 then w.NoWorkload? || w.Spawning?
          else if |up| == 1 then (up[0].message.Failed? && w.NeverStarted?) || (up[0].message.Started? && w.Running?)
          else up[0].message.Started? && up[1].message.Exited? && w.Ended?)
    case WorkloadStarted =>
      && !sys.s.life.Starting? && sys.s.launchReceived && Launch !in sys.down && |up| <= 1
      && (if |up| == 0 then w.Running? else up[0].message.Exited? && w.Ended?)
    case WorkloadTerminal =>
      !sys.s.life.Starting? && sys.s.launchReceived && Launch !in sys.down && up == [] && (w.NeverStarted? || w.Ended?)
  }

  /** Messages carry supervisor data that its own checks admit, in clock order. */
  ghost predicate WellStamped(cfg: Config, sys: System) {
    && (forall i :: 0 <= i < |sys.up| ==> cfg.start <= sys.up[i].stamp <= sys.now)
    && (forall i, j :: 0 <= i < j < |sys.up| ==> sys.up[i].stamp <= sys.up[j].stamp)
    && (sys.r.link.lastStamp.Some? ==>
          sys.r.link.lastStamp.value <= sys.now
          && forall i :: 0 <= i < |sys.up| ==> sys.r.link.lastStamp.value <= sys.up[i].stamp)
    && cfg.start <= sys.now
  }

  predicate Admissible(cfg: Config, m: Message) {
    match m
    case Ready(pid, _, cpus) => pid == cfg.pid && !AffinityDiffers(cfg, cpus)
    case Started(pid, _, cpus) => pid > 1 && !AffinityDiffers(cfg, cpus)
    case Exited(status) => ValidStatus(status)
    case _ => true
  }

  /** One launch at most is ever on its way. */
  predicate OneLaunch(down: seq<Command>) {
    forall i, j :: 0 <= i < j < |down| ==> !(down[i].Launch? && down[j].Launch?)
  }

  ghost predicate Orderly(cfg: Config, sys: System) {
    && InStep(sys) && !sys.r.link.broken && sys.r.link.fatal.None? && OneLaunch(sys.down)
    && (sys.s.leaving ==> WorkloadOver(sys.s) || sys.s.workload.NoWorkload?)
    && forall i :: 0 <= i < |sys.up| ==> Admissible(cfg, sys.up[i].message)
  }

  ghost predicate Agreement(cfg: Config, sys: System) {
    WellStamped(cfg, sys) && (sys.clean ==> Orderly(cfg, sys))
  }

  lemma AgreementStarts(cfg: Config, thrown: Option<Code>)
    ensures Agreement(cfg, Start(cfg, thrown))
  {
  }

  // The supervisor's steps.

  /** At most one message was sent, stamped now. */
  ghost predicate SendsOne(sys: System, sys': System) {
    && sys'.r == sys.r && sys'.now == sys.now
    && (sys'.up == sys.up || exists m: Message :: sys'.up == sys.up + [Stamped(m, sys.now)])
  }

  lemma CommandSendsOne(sys: System, outcome: LaunchOutcome)
    requires sys.down != []
    ensures SendsOne(sys, OnCommand(sys, outcome))
  {
  }

  lemma ChildSendsOne(cfg: Config, sys: System, step: Step)
    ensures step.Boot? ==> SendsOne(sys, OnBoot(cfg, sys, step))
    ensures step.ChildSpawned? ==> SendsOne(sys, OnChildSpawned(cfg, sys, step))
    ensures step.ChildError? ==> SendsOne(sys, OnChildError(sys, step.code))
  {
    hide AffinityDiffers;
  }

  lemma SupervisorSendsOne(cfg: Config, sys: System, step: Step)
    requires Enabled(cfg, sys, step)
    requires step.Boot? || step.Receive? || step.ChildSpawned? || step.ChildError? || step.ChildExited?
      || step.Collapse? || step.Die?
    ensures SendsOne(sys, Take(cfg, sys, step))
  {
    if step.Receive? { CommandSendsOne(sys, step.outcome); }
    ChildSendsOne(cfg, sys, step);
    hide Enabled, OnCommand, OnBoot, OnChildSpawned, OnChildError;
    assert step.Die? || step.ChildExited? || step.Collapse? ==> SendsOne(sys, Take(cfg, sys, step));
  }

  lemma SupervisorKeepsStamps(cfg: Config, sys: System, step: Step)
    requires WellStamped(cfg, sys) && Enabled(cfg, sys, step)
    requires step.Boot? || step.Receive? || step.ChildSpawned? || step.ChildError? || step.ChildExited?
      || step.Collapse? || step.Die?
    ensures WellStamped(cfg, Take(cfg, sys, step))
  {
    SupervisorSendsOne(cfg, sys, step);
    hide Take, Enabled;
  }

  lemma OrderlyAfterLaunch(cfg: Config, sys: System, outcome: LaunchOutcome)
    requires Orderly(cfg, sys) && ShutdownInvariant(sys) && sys.down != [] && sys.down[0].Launch? && sys.clean
    ensures OnCommand(sys, outcome).clean ==> Orderly(cfg, OnCommand(sys, outcome))
  {
    hide AffinityDiffers;
    var rest := sys.down[1..];
    assert forall i :: 0 <= i < |rest| ==> rest[i] == sys.down[i + 1];
    assert Launch !in rest;
  }

  lemma OrderlyAfterShutdown(cfg: Config, sys: System, outcome: LaunchOutcome)
    requires Orderly(cfg, sys) && ShutdownInvariant(sys) && sys.down != [] && sys.down[0].Shutdown? && sys.clean
    ensures OnCommand(sys, outcome).clean ==> Orderly(cfg, OnCommand(sys, outcome))
  {
    hide AffinityDiffers, Admissible;
    var rest := sys.down[1..];
    assert forall i :: 0 <= i < |rest| ==> rest[i] == sys.down[i + 1];
    assert Launch in rest <==> Launch in sys.down;
  }

  lemma OrderlyAfterSpawn(cfg: Config, sys: System, step: Step)
    requires Orderly(cfg, sys) && sys.s.workload.Spawning? && step.ChildSpawned? && step.pid > 1
    ensures OnChildSpawned(cfg, sys, step).clean ==> Orderly(cfg, OnChildSpawned(cfg, sys, step))
  {
    hide AffinityDiffers;
  }

  lemma OrderlyAfterError(cfg: Config, sys: System, code: Code)
    requires Orderly(cfg, sys) && !sys.s.workload.NoWorkload? && !sys.s.workload.NeverStarted?
    ensures OnChildError(sys, code).clean ==> Orderly(cfg, OnChildError(sys, code))
  {
    hide AffinityDiffers;
  }

  lemma OrderlyAfterExit(cfg: Config, sys: System, status: Status)
    requires Orderly(cfg, sys) && sys.s.workload.Running? && ValidStatus(status)
    ensures Orderly(cfg, Send(sys.(s := sys.s.(workload := Ended)), Exited(status)))
  {
    hide AffinityDiffers;
  }

  lemma OrderlyAfterBoot(cfg: Config, sys: System, step: Step)
    requires Orderly(cfg, sys) && step.Boot? && sys.s.life.Starting? && sys.clean
    ensures OnBoot(cfg, sys, step).clean ==> Orderly(cfg, OnBoot(cfg, sys, step))
  {
    hide AffinityDiffers;
  }

  lemma OrderlyAfterDeath(cfg: Config, sys: System)
    requires Orderly(cfg, sys)
    ensures Orderly(cfg, sys.(s := sys.s.(life := Gone)))
  {
    hide AffinityDiffers, Admissible;
  }

  lemma AgreementAfterSupervisor(cfg: Config, sys: System, step: Step)
    requires Agreement(cfg, sys) && ShutdownInvariant(sys) && Enabled(cfg, sys, step)
    requires step.Boot? || step.Receive? || step.ChildSpawned? || step.ChildError? || step.ChildExited?
      || step.Collapse? || step.Die?
    ensures Agreement(cfg, Take(cfg, sys, step))
  {
    SupervisorKeepsStamps(cfg, sys, step);
    CleanOnlyFalls(cfg, sys, step);
    hide Orderly, WellStamped, ShutdownInvariant, OnCommand, OnChildSpawned, OnChildError, OnBoot, Send;
    if sys.clean {
      if step.Boot? { OrderlyAfterBoot(cfg, sys, step); }
      if step.Receive? {
        if sys.down[0].Launch? { OrderlyAfterLaunch(cfg, sys, step.outcome); }
        if sys.down[0].Shutdown? { OrderlyAfterShutdown(cfg, sys, step.outcome); }
      }
      if step.ChildSpawned? { OrderlyAfterSpawn(cfg, sys, step); }
      if step.ChildError? { OrderlyAfterError(cfg, sys, step.code); }
      if step.ChildExited? { OrderlyAfterExit(cfg, sys, step.status); }
      if step.Die? { OrderlyAfterDeath(cfg, sys); }
    }
  }

  lemma CleanOnlyFalls(cfg: Config, sys: System, step: Step)
    requires Enabled(cfg, sys, step)
    requires step.Boot? || step.Receive? || step.ChildSpawned? || step.ChildError? || step.ChildExited?
      || step.Collapse? || step.Die?
    ensures Take(cfg, sys, step).clean ==> sys.clean && !step.Collapse?
  {
    hide AffinityDiffers;
  }

  // The runner's steps.

  lemma AgreementAfterRunner(cfg: Config, sys: System, sys': System)
    requires Agreement(cfg, sys) && sys'.r.link == sys.r.link && sys'.s == sys.s && sys'.up == sys.up
    requires sys.now <= sys'.now && (sys'.clean ==> sys.clean)
    requires sys'.down == sys.down || sys'.down == sys.down + [Shutdown]
    ensures Agreement(cfg, sys')
  {
    hide AffinityDiffers, Admissible;
    assert Launch in sys'.down <==> Launch in sys.down;
  }

  lemma OrderlyAfterReady(cfg: Config, sys: System, r: Runner, sends: bool)
    requires Orderly(cfg, sys) && sys.up != [] && sys.up[0].message.Ready?
    requires !r.link.broken && r.link.fatal.None?
    requires sends ==> r.link.protocol.LaunchSent?
    requires r.link.protocol.LaunchSent? || r.link.protocol.SupervisorReady?
    ensures Orderly(cfg, sys.(up := sys.up[1..], r := r, down := sys.down + (if sends then [Launch] else [])))
  {
    hide AffinityDiffers, Admissible;
    assert Launch !in sys.down;
  }

  lemma OrderlyAfterStarted(cfg: Config, sys: System, r: Runner)
    requires Orderly(cfg, sys) && sys.up != [] && sys.up[0].message.Started?
    requires r.link == sys.r.link.(lastStamp := r.link.lastStamp, protocol := WorkloadStarted)
    requires ShutdownInvariant(sys)
    ensures Orderly(cfg, sys.(up := sys.up[1..], r := r))
  {
    hide AffinityDiffers, Admissible;
  }

  lemma OrderlyAfterOver(cfg: Config, sys: System, r: Runner)
    requires Orderly(cfg, sys) && sys.up != [] && (sys.up[0].message.Exited? || sys.up[0].message.Failed?)
    requires r.link == sys.r.link.(lastStamp := r.link.lastStamp, protocol := WorkloadTerminal)
    requires ShutdownInvariant(sys)
    ensures Orderly(cfg, sys.(up := sys.up[1..], r := r))
  {
    hide AffinityDiffers, Admissible;
  }

  /** What the runner does with each expected message whose identity check passes. */
  lemma ExpectedMessage(cfg: Config, sys: System, read: Read, sendThrew: Option<Code>)
    requires Agreement(cfg, sys) && sys.clean && sys.up != [] && !CheckFails(cfg, sys.up[0].message, read)
    requires MessagePid(sys.up[0].message).Some? ==> ReadOf(read, MessagePid(sys.up[0].message).value)
    ensures var m, link := sys.up[0].message, OnMessage(cfg, sys.r, sys.up[0], sys.now, sys.now, read, sendThrew).link;
      && link.lastStamp == Some(sys.up[0].stamp) && !link.broken && link.fatal.None?
      && (m.Ready? ==> link.protocol.SupervisorReady? || link.protocol.LaunchSent?)
      && (m.Ready? ==> (link.launchSent && !sys.r.link.launchSent ==> link.protocol.LaunchSent?))
      && (m.Started? ==> link == sys.r.link.(lastStamp := link.lastStamp, protocol := WorkloadStarted))
      && (m.Exited? || m.Failed? ==> link == sys.r.link.(lastStamp := link.lastStamp, protocol := WorkloadTerminal))
      && !m.Fatal?
  {
    hide AffinityDiffers;
  }

  lemma AgreementAfterDelivery(cfg: Config, sys: System, read: Read, sendThrew: Option<Code>)
    requires Agreement(cfg, sys) && ShutdownInvariant(sys) && Enabled(cfg, sys, Deliver(read, sendThrew))
    ensures Agreement(cfg, OnDeliver(cfg, sys, read, sendThrew))
  {
    DeliveryKeepsStamps(cfg, sys, read, sendThrew);
    var m, r := sys.up[0].message, OnMessage(cfg, sys.r, sys.up[0], sys.now, sys.now, read, sendThrew);
    if sys.clean && !CheckFails(cfg, m, read) {
      ExpectedMessage(cfg, sys, read, sendThrew);
      hide Orderly, WellStamped, ShutdownInvariant, CheckFails, OnMessage;
      if m.Ready? { OrderlyAfterReady(cfg, sys, r, r.link.launchSent && !sys.r.link.launchSent && sendThrew.None?); }
      if m.Started? { OrderlyAfterStarted(cfg, sys, r); }
      if m.Exited? || m.Failed? { OrderlyAfterOver(cfg, sys, r); }
    }
  }

  lemma LastStampIsOldOrNew(cfg: Config, r: Runner, sm: Stamped, at: Time, read: Read, sendThrew: Option<Code>)
    ensures var last := OnMessage(cfg, r, sm, at, at, read, sendThrew).link.lastStamp;
      last == r.link.lastStamp || last == Some(sm.stamp)
  {
    hide Matches, LeadsItsGroup, AffinityDiffers;
  }

  lemma DeliveryKeepsStamps(cfg: Config, sys: System, read: Read, sendThrew: Option<Code>)
    requires WellStamped(cfg, sys) && sys.up != []
    ensures WellStamped(cfg, OnDeliver(cfg, sys, read, sendThrew))
  {
    LastStampIsOldOrNew(cfg, sys.r, sys.up[0], sys.now, read, sendThrew);
    hide OnMessage, CheckFails;
    assert forall i :: 0 <= i < |sys.up[1..]| ==> sys.up[1..][i] == sys.up[i + 1];
  }

  lemma RunnerEventKeepsLink(cfg: Config, sys: System, step: Step)
    requires Enabled(cfg, sys, step) && IsRunnerEvent(step)
    ensures Take(cfg, sys, step) == sys.(r := Take(cfg, sys, step).r)
    ensures Take(cfg, sys, step).r.link == sys.r.link
  {
    RunnerEventKeeps(cfg, sys, step);
    hide Enabled, KeepsProtocol;
    if step.Deadline? { DeadlineKeepsLink(cfg, sys.r, sys.now, step.read, sys.r.retrying); }
  }

  lemma DeadlineKeepsLink(cfg: Config, r: Runner, now: Time, read: Read, again: bool)
    ensures OnDeadline(cfg, r, now, now, read, again).link == r.link
  {
  }

  lemma AgreementStep(cfg: Config, sys: System, step: Step)
    requires Agreement(cfg, sys) && ShutdownInvariant(sys) && Enabled(cfg, sys, step)
    ensures Agreement(cfg, Take(cfg, sys, step))
  {
    hide Agreement, ShutdownInvariant, KeepsProtocol;
    if IsCleanup(step) {
      CleanupStep(cfg, sys, step);
      hide Enabled, Take;
      AgreementAfterRunner(cfg, sys, Take(cfg, sys, step));
    } else if IsRunnerEvent(step) {
      RunnerEventKeepsLink(cfg, sys, step);
      hide Enabled, Take;
      AgreementAfterRunner(cfg, sys, Take(cfg, sys, step));
    } else if step.Deliver? {
      DeliveryIsTaken(cfg, sys, step);
      hide Enabled, Take;
      AgreementAfterDelivery(cfg, sys, step.read, step.sendThrew);
    } else if step.Tick? {
      AgreementAfterRunner(cfg, sys, Take(cfg, sys, step));
    } else {
      hide Enabled, Take;
      AgreementAfterSupervisor(cfg, sys, step);
    }
  }

  /** In every run without a supervisor fatal, an affinity difference or a failed identity
      check, no protocol error is raised. */
  lemma {:induction false} NoProtocolError(cfg: Config, thrown: Option<Code>, steps: seq<Step>)
    requires IsRun(cfg, Start(cfg, thrown), steps)
    ensures Agreement(cfg, After(cfg, Start(cfg, thrown), steps))
    ensures After(cfg, Start(cfg, thrown), steps).clean ==> !After(cfg, Start(cfg, thrown), steps).r.link.broken
    decreases |steps|
  {
    hide Take, Enabled, ShutdownInvariant, WellStamped;
    if steps == [] {
      AgreementStarts(cfg, thrown);
    } else {
      var front := steps[..|steps| - 1];
      NoProtocolError(cfg, thrown, front);
      ShutdownNeverMeetsALiveWorkload(cfg, thrown, front);
      AgreementStep(cfg, After(cfg, Start(cfg, thrown), front), steps[|steps| - 1]);
    }
  }
}
