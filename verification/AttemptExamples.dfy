/** For each assumption of AttemptResults a run that breaks it, meets the other three, and ends
    with a result the acceptor refuses. */
module AttemptExamples {
  import opened Text
  import opened AttemptRunner
  import opened AttemptCleanup
  import opened AttemptSystem
  import opened AttemptTerminal
  import opened AttemptSafety
  import opened AttemptEvidence
  import opened AttemptResults

  const CFG := Config(7, 0, 100, None, 10, 5)

  const QUIET_WORLD := World(Missing, NoSuchProcess, pid => Missing, pid => NoSuchProcess)

  const LEADER := Identity(7, 7, 7, Some(1), true)

  // Runs that break one assumption and meet the other three.

  predicate MeetsAllBut(x: Assumption, cfg: Config, sys: System, step: Step)
    requires Enabled(cfg, sys, step)
  {
    forall y :: y != x ==> Meets(y, cfg, sys, step)
  }

  /** Every step meets every assumption but x. */
  predicate MeetsOthers(x: Assumption, cfg: Config, sys: System, steps: seq<Step>)
    requires IsRun(cfg, sys, steps)
    decreases |steps|
  {
    steps == [] ||
    (MeetsOthers(x, cfg, sys, steps[..|steps| - 1])
     && MeetsAllBut(x, cfg, After(cfg, sys, steps[..|steps| - 1]), steps[|steps| - 1]))
  }

  /** Some step does not meet x. */
  predicate Breaks(x: Assumption, cfg: Config, sys: System, steps: seq<Step>)
    requires IsRun(cfg, sys, steps)
    decreases |steps|
  {
    steps != [] &&
    (Breaks(x, cfg, sys, steps[..|steps| - 1])
     || !Meets(x, cfg, After(cfg, sys, steps[..|steps| - 1]), steps[|steps| - 1]))
  }

  predicate IsRunBreaking(x: Assumption, cfg: Config, steps: seq<Step>) {
    IsRun(cfg, Start(cfg, None), steps) && MeetsOthers(x, cfg, Start(cfg, None), steps)
    && Breaks(x, cfg, Start(cfg, None), steps)
  }

  /** Some run that breaks x and nothing else ends with a result the acceptor refuses. */
  ghost predicate IsRefusedBreaking(x: Assumption, cfg: Config) {
    exists steps :: IsRunBreaking(x, cfg, steps)
                    && After(cfg, Start(cfg, None), steps).r.stage.Finished?
                    && !Acceptable(After(cfg, Start(cfg, None), steps).r.stage.result, cfg.termGrace)
  }

  /** Some run that meets the others ends in this state, having broken x if broken is set. */
  ghost predicate Reachable(x: Assumption, broken: bool, cfg: Config, sys: System) {
    exists steps :: IsRun(cfg, Start(cfg, None), steps) && MeetsOthers(x, cfg, Start(cfg, None), steps)
                    && (broken ==> Breaks(x, cfg, Start(cfg, None), steps))
                    && After(cfg, Start(cfg, None), steps) == sys
  }

  lemma StartIsReachable(x: Assumption, cfg: Config)
    ensures Reachable(x, false, cfg, Start(cfg, None))
  {
    assert IsRun(cfg, Start(cfg, None), []);
  }

  /** One way to meet every assumption but x. */
  predicate MeetsTheOthers(x: Assumption, cfg: Config, sys: System, step: Step)
    requires Enabled(cfg, sys, step)
  {
    && (step.Deliver? ==> x.StableTicks? || TicksAreStable(cfg, sys, step))
    && (step.SupervisorExited? ==> x.IdentifiedExit? || sys.r.child.identity.Some?)
    && (step.StreamEnds? ==> x.SilentStreams? || !sys.r.streams.destroyed)
    && Unhurried(x, Take(cfg, sys, step).r)
  }

  lemma OthersAreMet(x: Assumption, cfg: Config, sys: System, step: Step)
    requires Enabled(cfg, sys, step) && MeetsTheOthers(x, cfg, sys, step)
    ensures MeetsAllBut(x, cfg, sys, step)
  {
    hide Take, TicksAreStable;
    forall y | y != x ensures Meets(y, cfg, sys, step) {
      match y {
        case StableTicks => if !step.Deliver? { OnlyDeliveryReads(cfg, sys, step); }
        case IdentifiedExit =>
        case SilentStreams =>
        case PatientKill =>
      }
    }
  }

  lemma OnlyDeliveryReads(cfg: Config, sys: System, step: Step)
    requires !step.Deliver?
    ensures TicksAreStable(cfg, sys, step)
  {
  }

  lemma NextIsReachable(x: Assumption, broken: bool, cfg: Config, sys: System, step: Step, after: bool)
    requires Reachable(x, broken, cfg, sys) && Enabled(cfg, sys, step)
    requires MeetsTheOthers(x, cfg, sys, step) && (after ==> broken || !Meets(x, cfg, sys, step))
    ensures Reachable(x, after, cfg, Take(cfg, sys, step))
  {
    hide Enabled, Take, Meets, MeetsTheOthers, MeetsAllBut, MeetsOthers, Breaks;
    OthersAreMet(x, cfg, sys, step);
    var steps :| IsRun(cfg, Start(cfg, None), steps) && MeetsOthers(x, cfg, Start(cfg, None), steps)
                 && (broken ==> Breaks(x, cfg, Start(cfg, None), steps))
                 && After(cfg, Start(cfg, None), steps) == sys;
    RunExtends(x, cfg, steps, step);
    assert IsRun(cfg, Start(cfg, None), steps + [step]);
  }

  lemma RunExtends(x: Assumption, cfg: Config, steps: seq<Step>, step: Step)
    requires IsRun(cfg, Start(cfg, None), steps) && Enabled(cfg, After(cfg, Start(cfg, None), steps), step)
    ensures var s, more := Start(cfg, None), steps + [step];
      && IsRun(cfg, s, more) && After(cfg, s, more) == Take(cfg, After(cfg, s, steps), step)
      && MeetsOthers(x, cfg, s, more) == (MeetsOthers(x, cfg, s, steps) && MeetsAllBut(x, cfg, After(cfg, s, steps), step))
      && Breaks(x, cfg, s, more) == (Breaks(x, cfg, s, steps) || !Meets(x, cfg, After(cfg, s, steps), step))
  {
    hide Enabled, Take, Meets, MeetsAllBut, Start;
    var more := steps + [step];
    assert more[..|more| - 1] == steps;
  }

  /** No TERM wait ended early, where that matters. */
  predicate Unhurried(x: Assumption, r: Runner) { x.PatientKill? || !r.signals.drainedEarly }

  // Single steps.

  lemma SpawnedStep(x: Assumption, broken: bool, cfg: Config, sys: System, read: Read)
    requires Reachable(x, broken, cfg, sys) && Unhurried(x, sys.r)
    requires sys.r.child.present && !sys.r.child.spawned && ReadOf(read, cfg.pid)
    ensures Reachable(x, broken, cfg, sys.(r := OnSpawn(cfg, sys.r, read)))
  {
    hide Reachable;
    NextIsReachable(x, broken, cfg, sys, Spawned(read), broken);
  }

  lemma AbortStep(x: Assumption, broken: bool, cfg: Config, sys: System)
    requires Reachable(x, broken, cfg, sys) && Unhurried(x, sys.r) && !sys.r.stage.Finished?
    ensures Reachable(x, broken, cfg, sys.(r := ChooseCancel(sys.r, sys.now)))
  {
    hide Reachable;
    NextIsReachable(x, broken, cfg, sys, Abort, broken);
  }

  lemma DieAndExitStep(x: Assumption, broken: bool, cfg: Config, sys: System, status: Status)
    requires Reachable(x, broken, cfg, sys) && Unhurried(x, sys.r)
    requires sys.r.child.present && sys.r.child.status.None? && ValidStatus(status)
    requires sys.r.child.identity.Some? || x.IdentifiedExit?
    ensures Reachable(x, broken || sys.r.child.identity.None?, cfg,
                      sys.(s := sys.s.(life := Gone), r := OnSupervisorExit(cfg, sys.r, status, sys.now)))
  {
    hide Reachable;
    NextIsReachable(x, broken, cfg, sys, Die, broken);
    NextIsReachable(x, broken, cfg, sys.(s := sys.s.(life := Gone)), SupervisorExited(status),
                    broken || sys.r.child.identity.None?);
  }

  lemma TickStep(x: Assumption, broken: bool, cfg: Config, sys: System, time: Time)
    requires Reachable(x, broken, cfg, sys) && Unhurried(x, sys.r) && sys.now <= time
    ensures Reachable(x, broken, cfg, sys.(now := time))
  {
    hide Reachable;
    NextIsReachable(x, broken, cfg, sys, Tick(time), broken);
  }

  lemma StreamsEndStep(x: Assumption, broken: bool, cfg: Config, sys: System)
    requires Reachable(x, broken, cfg, sys) && Unhurried(x, sys.r) && sys.r.child.present
    requires !sys.r.streams.destroyed || x.SilentStreams?
    ensures Reachable(x, broken || sys.r.streams.destroyed, cfg, BothEnded(sys))
  {
    hide Reachable;
    var after := broken || sys.r.streams.destroyed;
    var ended := sys.(r := sys.r.(streams := sys.r.streams.(out := sys.r.streams.out.(ended := true))));
    OneEnds(sys);
    assert !sys.r.streams.destroyed || !DestroyedIsSilent(sys, StreamEnds(true));
    hide OnStream;
    NextIsReachable(x, broken, cfg, sys, StreamEnds(true), after);
    NextIsReachable(x, after, cfg, ended, StreamEnds(false), after);
  }

  lemma OneEnds(sys: System)
    ensures OnStream(sys.r, true, (x: Stream) => x.(ended := true))
         == sys.r.(streams := sys.r.streams.(out := sys.r.streams.out.(ended := true)))
    ensures OnStream(sys.r, false, (x: Stream) => x.(ended := true))
         == sys.r.(streams := sys.r.streams.(err := sys.r.streams.err.(ended := true)))
  {
  }

  function BothEnded(sys: System): System {
    sys.(r := sys.r.(streams := Streams(sys.r.streams.out.(ended := true), sys.r.streams.err.(ended := true),
                                        sys.r.streams.destroyed)))
  }

  lemma BeginHoldsStill(cfg: Config, r: Runner, listing: Listing, world: World, channel: Channel, at: Time)
    ensures Begin(cfg, r, listing, world, channel, at).signals.drainedEarly == r.signals.drainedEarly
  {
    hide SignalTarget, HasResidue, ProbeGroup;
  }

  lemma SettleHoldsStill(cfg: Config, r: Runner, first: Listing, last: Listing, final: Listing, now: Time,
                         world: World, at: Time)
    requires r.stage.Settling?
    ensures Settle(cfg, r, first, last, final, now, world, at).signals.drainedEarly == r.signals.drainedEarly
  {
    hide SignalTarget, ProbeGroup, BuildResult;
  }

  lemma BeginStep(x: Assumption, broken: bool, cfg: Config, sys: System, listing: Listing)
    requires Reachable(x, broken, cfg, sys) && Unhurried(x, sys.r) && sys.r.stage.Waiting? && sys.r.terminal.Some?
    ensures Reachable(x, broken, cfg, sys.(r := Begin(cfg, sys.r, listing, QUIET_WORLD, Closed, sys.now)))
  {
    BeginHoldsStill(cfg, sys.r, listing, QUIET_WORLD, Closed, sys.now);
    hide Reachable, Begin;
    assert sys.down + [] == sys.down;
    NextIsReachable(x, broken, cfg, sys, BeginCleanup(listing, QUIET_WORLD, Closed), broken);
  }

  /** The group is empty at once, and the next listing fails. */
  lemma DrainStep(cfg: Config, sys: System, final: Listing)
    requires Reachable(PatientKill, false, cfg, sys) && sys.r.stage.Draining?
    ensures var r := Drain(cfg, sys.r, Listed([]), Listed([]), final, sys.now, QUIET_WORLD, Closed, sys.now);
      Reachable(PatientKill, !NoEarlyKill(cfg, r), cfg, sys.(r := r))
  {
    hide Reachable, Drain;
    assert sys.down + [] == sys.down;
    var step := DrainTurn(Listed([]), Listed([]), final, QUIET_WORLD, Closed, sys.now);
    NextIsReachable(PatientKill, false, cfg, sys, step, !NoEarlyKill(cfg, Take(cfg, sys, step).r));
  }

  lemma SettleStep(x: Assumption, broken: bool, cfg: Config, sys: System)
    requires Reachable(x, broken, cfg, sys) && Unhurried(x, sys.r) && sys.r.stage.Settling?
    ensures Reachable(x, broken, cfg, sys.(r := Settle(cfg, sys.r, Listed([]), Listed([]), Listed([]), sys.now,
                                                       QUIET_WORLD, sys.now)))
  {
    SettleHoldsStill(cfg, sys.r, Listed([]), Listed([]), Listed([]), sys.now, QUIET_WORLD, sys.now);
    hide Reachable, Settle;
    assert sys.down + [] == sys.down;
    NextIsReachable(x, broken, cfg, sys, SettleTurn(Listed([]), Listed([]), Listed([]), QUIET_WORLD, sys.now), broken);
  }

  lemma CollectStep(x: Assumption, broken: bool, cfg: Config, sys: System)
    requires Reachable(x, broken, cfg, sys) && Unhurried(x, sys.r) && sys.r.stage.Destroying?
    ensures Reachable(x, broken, cfg, sys.(r := Finish(cfg, sys.r, sys.r.stage.drained, false, sys.now)))
  {
    assert Finish(cfg, sys.r, sys.r.stage.drained, false, sys.now).signals == sys.r.signals by { hide BuildResult; }
    hide Reachable, Finish;
    assert sys.down + [] == sys.down;
    NextIsReachable(x, broken, cfg, sys, Collect, broken);
  }

  lemma RefusedRun(x: Assumption, cfg: Config, sys: System)
    requires Reachable(x, true, cfg, sys) && sys.r.stage.Finished? && !Acceptable(sys.r.stage.result, cfg.termGrace)
    ensures IsRefusedBreaking(x, cfg)
  {
    hide Acceptable;
    var steps :| IsRun(cfg, Start(cfg, None), steps) && MeetsOthers(x, cfg, Start(cfg, None), steps)
                 && Breaks(x, cfg, Start(cfg, None), steps) && After(cfg, Start(cfg, None), steps) == sys;
    assert IsRunBreaking(x, cfg, steps);
  }

  /** A supervisor that died unseen: its exit status comes without an identity. */
  lemma UnseenSupervisorIsRefused()
    ensures IsRefusedBreaking(IdentifiedExit, CFG)
  {
    var s0 := Start(CFG, None);
    StartIsReachable(IdentifiedExit, CFG);
    hide Reachable, Acceptable, FailureReason, CleanupComplete, IsRefusedBreaking;
    SpawnedStep(IdentifiedExit, false, CFG, s0, Missing);
    var s1 := s0.(r := OnSpawn(CFG, s0.r, Missing));
    DieAndExitStep(IdentifiedExit, false, CFG, s1, Status(Some(1), None));
    var s2 := s1.(s := s1.s.(life := Gone), r := OnSupervisorExit(CFG, s1.r, Status(Some(1), None), s1.now));
    BeginStep(IdentifiedExit, true, CFG, s2, Listed([]));
    var s3 := s2.(r := Begin(CFG, s2.r, Listed([]), QUIET_WORLD, Closed, s2.now));
    assert s3.r.stage == Settling(5);
    StreamsEndStep(IdentifiedExit, true, CFG, s3);
    var s4 := BothEnded(s3);
    UnseenEnds(s4);
  }

  lemma UnseenEnds(sys: System)
    requires Reachable(IdentifiedExit, true, CFG, sys) && !sys.r.signals.drainedEarly
    requires sys.r.stage.Settling? && sys.r.terminal.Some? && sys.r.group.id.Some? && !sys.r.stop.requested
    requires sys.r.child.present && sys.r.child.status.Some? && sys.r.child.identity.None?
    requires sys.r.streams.out.Complete() && sys.r.streams.err.Complete()
    ensures IsRefusedBreaking(IdentifiedExit, CFG)
  {
    hide Reachable, IsRefusedBreaking, Acceptable, Settle;
    SettleStep(IdentifiedExit, true, CFG, sys);
    QuietSettles(CFG, sys.r, sys.now);
    var last := sys.(r := Settle(CFG, sys.r, Listed([]), Listed([]), Listed([]), sys.now, QUIET_WORLD, sys.now));
    NoSupervisorIsRefused(last.r.stage.result);
    RefusedRun(IdentifiedExit, CFG, last);
  }

  lemma NoSupervisorIsRefused(r: Result)
    requires r.supervisor.None? && r.cleanup.supervisorStatus.Some?
    ensures forall grace :: !Acceptable(r, grace)
  {
  }

  /** A stream that reports its end after it was destroyed. */
  lemma LateEndIsRefused()
    ensures IsRefusedBreaking(SilentStreams, CFG)
  {
    var s0 := Start(CFG, None);
    StartIsReachable(SilentStreams, CFG);
    hide Reachable, Acceptable, FailureReason, CleanupComplete, IsRefusedBreaking;
    SpawnedStep(SilentStreams, false, CFG, s0, Found(LEADER));
    var s1 := s0.(r := OnSpawn(CFG, s0.r, Found(LEADER)));
    AbortStep(SilentStreams, false, CFG, s1);
    var s2 := s1.(r := ChooseCancel(s1.r, s1.now));
    DieAndExitStep(SilentStreams, false, CFG, s2, Status(Some(1), None));
    var s3 := s2.(s := s2.s.(life := Gone), r := OnSupervisorExit(CFG, s2.r, Status(Some(1), None), s2.now));
    BeginStep(SilentStreams, false, CFG, s3, Listed([]));
    var s4 := s3.(r := Begin(CFG, s3.r, Listed([]), QUIET_WORLD, Closed, s3.now));
    assert s4.r.stage == Settling(5);
    TickStep(SilentStreams, false, CFG, s4, 5);
    var s5 := s4.(now := 5);
    SettleStep(SilentStreams, false, CFG, s5);
    var s6 := s5.(r := Settle(CFG, s5.r, Listed([]), Listed([]), Listed([]), s5.now, QUIET_WORLD, s5.now));
    assert s6.r.stage.Destroying?;
    StreamsEndStep(SilentStreams, false, CFG, s6);
    var s7 := BothEnded(s6);
    CollectStep(SilentStreams, true, CFG, s7);
    var s8 := s7.(r := Finish(CFG, s7.r, s7.r.stage.drained, false, s7.now));
    DisagreeingStreamsAreRefused(s8.r.stage.result);
    RefusedRun(SilentStreams, CFG, s8);
  }

  lemma DisagreeingStreamsAreRefused(r: Result)
    requires r.out.Complete() && r.err.Complete() && !r.cleanup.outputDrained
    ensures forall grace :: !Acceptable(r, grace)
  {
  }

  /** A group that drained at once after TERM and could not be listed a moment later. */
  lemma EarlyKillIsRefused()
    ensures IsRefusedBreaking(PatientKill, CFG)
  {
    var s0 := Start(CFG, None);
    StartIsReachable(PatientKill, CFG);
    hide Reachable, Acceptable, FailureReason, CleanupComplete, IsRefusedBreaking;
    SpawnedStep(PatientKill, false, CFG, s0, Found(LEADER));
    var s1 := s0.(r := OnSpawn(CFG, s0.r, Found(LEADER)));
    AbortStep(PatientKill, false, CFG, s1);
    var s2 := s1.(r := ChooseCancel(s1.r, s1.now));
    BeginStep(PatientKill, false, CFG, s2, ListingFailed("EIO"));
    var s3 := s2.(r := Begin(CFG, s2.r, ListingFailed("EIO"), QUIET_WORLD, Closed, s2.now));
    assert s3.r.stage == Draining(10) && s3.r.signals.term.at == Some(0);
    EarlyDrain(s3);
  }

  /** KILL follows TERM immediately. */
  lemma EarlyDrain(sys: System)
    requires Reachable(PatientKill, false, CFG, sys) && sys.now == 0 && sys.r.stage.Draining? && sys.r.terminal.Some?
    requires sys.r.group.id == Some(7) && sys.r.child.present && sys.r.child.status.None?
    requires !sys.r.stop.requested && sys.r.child.identity.Some? && sys.r.link.protocol.AwaitingReady?
    requires sys.r.signals.term.attempted && sys.r.signals.term.at == Some(0) && !sys.r.signals.kill.attempted
    requires sys.r.streams.out.error.None? && sys.r.streams.err.error.None? && !sys.r.streams.destroyed
    ensures IsRefusedBreaking(PatientKill, CFG)
  {
    hide Reachable, IsRefusedBreaking, Acceptable;
    DrainStep(CFG, sys, ListingFailed("EIO"));
    var last := Drain(CFG, sys.r, Listed([]), Listed([]), ListingFailed("EIO"), sys.now, QUIET_WORLD, Closed, sys.now);
    assert last.stage == Settling(5) && last.signals.kill.attempted && last.signals.kill.at == Some(0);
    EarlyEnds(sys.(r := last));
  }

  lemma EarlyEnds(sys: System)
    requires Reachable(PatientKill, true, CFG, sys)
    requires sys.r.stage.Settling? && sys.r.terminal.Some? && sys.r.group.id.Some?
    requires sys.r.child.present && sys.r.child.status.None? && !sys.r.stop.requested && sys.r.child.identity.Some?
    requires sys.r.streams.out.error.None? && sys.r.streams.err.error.None? && !sys.r.streams.destroyed
    requires sys.r.signals.term.attempted && sys.r.signals.term.at == Some(0)
    requires sys.r.signals.kill.attempted && sys.r.signals.kill.at == Some(0)
    ensures IsRefusedBreaking(PatientKill, CFG)
  {
    hide Reachable, IsRefusedBreaking, Acceptable;
    var last := EndsQuietly(PatientKill, sys);
    EarlyKillBreaksGrace(last.r.stage.result, CFG.termGrace);
    RefusedRun(PatientKill, CFG, last);
  }

  lemma EarlyKillBreaksGrace(r: Result, grace: nat)
    requires r.cleanup.term.attempted && r.cleanup.kill.attempted
    requires r.cleanup.term.at.Some? && r.cleanup.kill.at.Some?
    requires r.cleanup.kill.at.value - r.cleanup.term.at.value < grace
    ensures !Acceptable(r, grace)
  {
  }

  lemma BootStep(x: Assumption, broken: bool, cfg: Config, sys: System, ticks: nat, cpus: string)
    requires Reachable(x, broken, cfg, sys) && Unhurried(x, sys.r) && sys.s.life.Starting?
    ensures Reachable(x, broken, cfg, OnBoot(cfg, sys, Boot(true, ticks, cpus)))
  {
    SupervisorKeepsRunner(cfg, sys, Boot(true, ticks, cpus));
    hide Reachable, OnBoot;
    NextIsReachable(x, broken, cfg, sys, Boot(true, ticks, cpus), broken);
  }

  lemma LaunchStep(x: Assumption, broken: bool, cfg: Config, sys: System)
    requires Reachable(x, broken, cfg, sys) && Unhurried(x, sys.r) && sys.s.life.Serving? && sys.down != []
    ensures Reachable(x, broken, cfg, OnCommand(sys, Accepted))
  {
    SupervisorKeepsRunner(cfg, sys, Receive(Accepted));
    hide Reachable, OnCommand;
    NextIsReachable(x, broken, cfg, sys, Receive(Accepted), broken);
  }

  lemma ChildStep(x: Assumption, broken: bool, cfg: Config, sys: System, step: Step)
    requires Reachable(x, broken, cfg, sys) && step.ChildSpawned? && step.pid > 1
    requires sys.s.life.Serving? && Unhurried(x, sys.r) && sys.s.workload.Spawning?
    ensures Reachable(x, broken, cfg, OnChildSpawned(cfg, sys, step))
  {
    SupervisorKeepsRunner(cfg, sys, step);
    hide Reachable, OnChildSpawned;
    NextIsReachable(x, broken, cfg, sys, step, broken);
  }

  lemma DeliverStep(cfg: Config, sys: System, read: Read)
    requires Reachable(StableTicks, false, cfg, sys) && !sys.r.signals.drainedEarly && sys.up != []
    requires MessagePid(sys.up[0].message).Some? ==> ReadOf(read, MessagePid(sys.up[0].message).value)
    ensures Reachable(StableTicks, !TicksAreStable(cfg, sys, Deliver(read, None)), cfg, OnDeliver(cfg, sys, read, None))
  {
    DeliveryKeepsSignals(cfg, sys, read);
    hide Reachable, OnDeliver, TicksAreStable;
    NextIsReachable(StableTicks, false, cfg, sys, Deliver(read, None),
                    !TicksAreStable(cfg, sys, Deliver(read, None)));
  }

  lemma DeliveryKeepsSignals(cfg: Config, sys: System, read: Read)
    requires sys.up != []
    ensures OnDeliver(cfg, sys, read, None).r.signals == sys.r.signals
  {
    hide Matches, AffinityDiffers, ValidStatus, CheckFails;
  }

  function ReadyToStart(): System {
    var s0 := Start(CFG, None);
    var s1 := s0.(r := OnSpawn(CFG, s0.r, Found(LEADER)));
    OnBoot(CFG, s1, Boot(true, 1, "0"))
  }

  lemma LaunchIsReachable()
    ensures ReadyToStart().up == [Stamped(Ready(7, 1, "0"), 0)]
    ensures var sent := OnDeliver(CFG, ReadyToStart(), Found(LEADER), None);
      && Reachable(StableTicks, false, CFG, sent) && sent.down == [Launch] && sent.up == [] && sent.s.life.Serving?
      && sent.s == Supervisor(Serving, false, NoWorkload, false, false) && sent.now == 0
      && sent.r == sent.r.(terminal := None, link := Link(LaunchSent, Some(0), true, false, None),
                           child := Child(true, true, None, Some(LEADER), None, false),
                           task := Task(None, None, None), stop := Stop(false, false, None, false),
                           signals := Signals(NO_ACTION, NO_ACTION, false),
                           streams := Streams(Stream(false, None), Stream(false, None), false), stage := Waiting)
  {
    var s0 := Start(CFG, None);
    StartIsReachable(StableTicks, CFG);
    hide Reachable;
    SpawnedStep(StableTicks, false, CFG, s0, Found(LEADER));
    BootStep(StableTicks, false, CFG, s0.(r := OnSpawn(CFG, s0.r, Found(LEADER))), 1, "0");
    DeliverStep(CFG, ReadyToStart(), Found(LEADER));
  }

  /** A workload that answers with other start ticks than its supervisor read. */
  lemma ChangedTicksAreRefused()
    ensures IsRefusedBreaking(StableTicks, CFG)
  {
    LaunchIsReachable();
    var s0 := OnDeliver(CFG, ReadyToStart(), Found(LEADER), None);
    hide Reachable, Acceptable, FailureReason, CleanupComplete, OnDeliver, ReadyToStart, IsRefusedBreaking;
    LaunchStep(StableTicks, false, CFG, s0);
    var s1 := OnCommand(s0, Accepted);
    var child := ChildSpawned(9, Some(1), true, Some("0"));
    ChildStep(StableTicks, false, CFG, s1, child);
    var s2 := OnChildSpawned(CFG, s1, child);
    assert s2.up == [Stamped(Started(9, Some(1), "0"), 0)];
    var other := Found(Identity(9, 7, 7, Some(2), true));
    HalfBoundWorkload(s2, other);
    DeliverStep(CFG, s2, other);
    var s3 := OnDeliver(CFG, s2, other, None);
    HalfBoundEnds(s3);
  }

  lemma HalfBoundEnds(sys: System)
    requires Reachable(StableTicks, true, CFG, sys) && sys.r.stage.Waiting? && !sys.r.signals.drainedEarly
    requires sys.r.terminal.Some? && sys.r.link.protocol.LaunchSent?
    requires sys.r.task.startedAt.None? && sys.r.task.identity.Some?
    requires sys.r.stop == Stop(false, false, None, false)
    requires sys.r.child == Child(true, true, None, Some(LEADER), None, false)
    requires sys.r.streams == Streams(Stream(false, None), Stream(false, None), false)
    ensures IsRefusedBreaking(StableTicks, CFG)
  {
    hide Reachable, IsRefusedBreaking;
    BeginStep(StableTicks, true, CFG, sys, Listed([]));
    BeginHoldsStill(CFG, sys.r, Listed([]), QUIET_WORLD, Closed, sys.now);
    FinishHalfBound(sys.(r := Begin(CFG, sys.r, Listed([]), QUIET_WORLD, Closed, sys.now)));
  }

  lemma HalfBoundWorkload(sys: System, other: Read)
    requires sys.now == 0 && sys.up == [Stamped(Started(9, Some(1), "0"), 0)]
    requires other == Found(Identity(9, 7, 7, Some(2), true))
    requires sys.r.terminal.None? && sys.r.link == Link(LaunchSent, Some(0), true, false, None)
    requires sys.r.task == Task(None, None, None)
    ensures var r := OnDeliver(CFG, sys, other, None).r;
      && r.terminal.Some? && r.task.startedAt.None? && r.task.identity.Some? && r.link.protocol.LaunchSent?
      && r.stop == sys.r.stop && r.child == sys.r.child && r.streams == sys.r.streams && r.stage == sys.r.stage
      && r.signals == sys.r.signals
    ensures !TicksAreStable(CFG, sys, Deliver(other, None))
  {
  }

  /** An empty group, ended streams and a reported exit let the cleanup end at once. */
  lemma QuietSettles(cfg: Config, r: Runner, now: Time)
    requires r.stage.Settling? && r.terminal.Some? && r.group.id.Some? && r.child.present && r.child.status.Some?
    requires !r.stop.requested && r.streams.out.Complete() && r.streams.err.Complete()
    ensures var last := Settle(cfg, r, Listed([]), Listed([]), Listed([]), now, QUIET_WORLD, now);
      last.stage.Finished? && last.stage.result.workload == r.task.identity
      && last.stage.result.boundary.started == r.task.startedAt
      && last.stage.result.supervisor == r.child.identity
      && last.stage.result.cleanup.supervisorStatus == r.child.status
      && last.stage.result.cleanup.term == r.signals.term && last.stage.result.cleanup.kill == r.signals.kill
  {
    hide FailureReason, CleanupComplete, SendKill;
    assert Quiet(Probed(r, Listed([])));
  }

  /** The supervisor is killed, its streams end, and the cleanup finishes. */
  lemma EndsQuietly(x: Assumption, sys: System) returns (last: System)
    requires Reachable(x, true, CFG, sys) && Unhurried(x, sys.r)
    requires sys.r.child.identity.Some? && !sys.r.streams.destroyed
    requires sys.r.stage.Settling? && sys.r.terminal.Some? && sys.r.group.id.Some?
    requires sys.r.child.present && sys.r.child.status.None? && !sys.r.stop.requested
    requires sys.r.streams.out.error.None? && sys.r.streams.err.error.None?
    ensures Reachable(x, true, CFG, last) && last.r.stage.Finished?
    ensures var result := last.r.stage.result;
      && result.workload == sys.r.task.identity && result.boundary.started == sys.r.task.startedAt
      && result.cleanup.term == sys.r.signals.term && result.cleanup.kill == sys.r.signals.kill
  {
    hide Reachable, OnSupervisorExit;
    DieAndExitStep(x, true, CFG, sys, Status(None, Some(SigKill)));
    SupervisorDies(CFG, sys.r, sys.now);
    last := EndsAfterExit(x, sys.(s := sys.s.(life := Gone),
                                  r := OnSupervisorExit(CFG, sys.r, Status(None, Some(SigKill)), sys.now)));
  }

  lemma SupervisorDies(cfg: Config, r: Runner, now: Time)
    requires r.terminal.Some? && r.child.present && r.child.status.None?
    ensures var after := OnSupervisorExit(cfg, r, Status(None, Some(SigKill)), now);
      && after.terminal.Some? && after.child.present && after.child.status.Some?
      && after.stage == r.stage && after.group == r.group && after.stop == r.stop && after.streams == r.streams
      && after.task == r.task && after.signals == r.signals
  {
  }

  lemma EndsAfterExit(x: Assumption, sys: System) returns (last: System)
    requires Reachable(x, true, CFG, sys) && Unhurried(x, sys.r) && !sys.r.streams.destroyed
    requires sys.r.stage.Settling? && sys.r.terminal.Some? && sys.r.group.id.Some?
    requires sys.r.child.present && sys.r.child.status.Some? && !sys.r.stop.requested
    requires sys.r.streams.out.error.None? && sys.r.streams.err.error.None?
    ensures Reachable(x, true, CFG, last) && last.r.stage.Finished?
    ensures var result := last.r.stage.result;
      && result.workload == sys.r.task.identity && result.boundary.started == sys.r.task.startedAt
      && result.cleanup.term == sys.r.signals.term && result.cleanup.kill == sys.r.signals.kill
  {
    hide Reachable, Settle;
    StreamsEndStep(x, true, CFG, sys);
    var ended := BothEnded(sys);
    SettleStep(x, true, CFG, ended);
    QuietSettles(CFG, ended.r, ended.now);
    last := ended.(r := Settle(CFG, ended.r, Listed([]), Listed([]), Listed([]), ended.now, QUIET_WORLD, ended.now));
  }

  lemma FinishHalfBound(sys: System)
    requires Reachable(StableTicks, true, CFG, sys) && !sys.r.signals.drainedEarly
    requires sys.r.stage.Settling? && sys.r.terminal.Some? && sys.r.group.id.Some?
    requires sys.r.child.present && sys.r.child.status.None? && !sys.r.stop.requested
    requires sys.r.child.identity.Some? && !sys.r.streams.destroyed
    requires sys.r.task.startedAt.None? && sys.r.task.identity.Some?
    requires sys.r.streams.out.error.None? && sys.r.streams.err.error.None?
    ensures IsRefusedBreaking(StableTicks, CFG)
  {
    hide Reachable, IsRefusedBreaking, Acceptable;
    var last := EndsQuietly(StableTicks, sys);
    HalfBoundIsRefused(last.r.stage.result);
    RefusedRun(StableTicks, CFG, last);
  }

  lemma HalfBoundIsRefused(r: Result)
    requires r.workload.Some? && r.boundary.started.None?
    ensures forall grace :: !Acceptable(r, grace)
  {
  }
}
