/** The runner and its supervisor (attempt-supervisor.mjs) over the two FIFO directions of
    their IPC channel, under one monotonic clock. */
module AttemptSystem {
  import opened Text
  import opened AttemptRunner
  import opened AttemptCleanup

  datatype Command = Launch | Shutdown

  datatype Life = Starting | Serving | Gone

  /** The child as the supervisor's flags see it: spawn pending, never started, live, over. */
  datatype Workload = NoWorkload | Spawning | NeverStarted | Running | Ended

  datatype Supervisor = Supervisor(life: Life, launchReceived: bool, workload: Workload, leaving: bool,
                                   emergency: bool)

  /** clean: so far no supervisor fatal, affinity difference or failed identity check.
      liveShutdown: SHUTDOWN_WITH_LIVE_WORKLOAD was raised. */
  datatype System = System(now: Time, r: Runner, s: Supervisor, up: seq<Stamped>, down: seq<Command>,
                           clean: bool, liveShutdown: bool)

  function Start(cfg: Config, thrown: Option<Code>): System {
    System(cfg.start, Initial(thrown, cfg.start),
           Supervisor(if thrown.Some? then Gone else Starting, false, NoWorkload, false, false), [], [], true, false)
  }

  datatype LaunchOutcome = Refused(code: Code) | Accepted

  datatype Step =
    | Tick(time: Time)
    // in the supervisor
    | Boot(ok: bool, ticks: nat, cpus: string)
    | Receive(outcome: LaunchOutcome)
    | ChildSpawned(pid: int, bound: Option<nat>, inGroup: bool, allowed: Option<string>)
    | ChildError(code: Code)
    | ChildExited(status: Status)
    | Collapse(code: Code)
    | Die
    // events in the runner
    | Spawned(read: Read)
    | SpawnFailed(code: Code)
    | Deliver(read: Read, sendThrew: Option<Code>)
    | LaunchSendFailed(code: Code)
    | SupervisorExited(status: Status)
    | Abort
    | Deadline(read: Read)
    | ShutdownSettles(error: Option<Code>)
    | StreamEnds(isOut: bool)
    | StreamFails(isOut: bool, code: Code)
    // the cleanup procedure
    | BeginCleanup(first: Listing, world: World, channel: Channel)
    | DrainTurn(first: Listing, last: Listing, final: Listing, world: World, channel: Channel, time: Time)
    | SettleTurn(first: Listing, last: Listing, final: Listing, world: World, time: Time)
    | Reprobe(first: Listing)
    | Collect

  // The supervisor's side.

  /** Messages sent after the supervisor disconnected are lost. */
  function Send(sys: System, m: Message): System {
    if sys.s.leaving then sys else sys.(up := sys.up + [Stamped(m, sys.now)])
  }

  function SendFatal(sys: System, code: Code): System {
    Send(sys, Fatal(code)).(clean := false, s := sys.s.(emergency := true))
  }

  function OnBoot(cfg: Config, sys: System, step: Step): System
    requires step.Boot?
  {
    if !step.ok then sys.(s := sys.s.(life := Gone))
    else
      Send(sys.(s := sys.s.(life := Serving)), Ready(cfg.pid, step.ticks, step.cpus))
        .(clean := sys.clean && !AffinityDiffers(cfg, step.cpus))
  }

  function OnCommand(sys: System, outcome: LaunchOutcome): System
    requires sys.down != []
  {
    var taken := sys.(down := sys.down[1..]);
    match sys.down[0]
    case Launch =>
      if sys.s.launchReceived then SendFatal(taken, "INVALID_LAUNCH_MESSAGE")
      else
        var launching := taken.(s := sys.s.(launchReceived := true));
        (match outcome
         case Refused(code) => Send(launching.(s := launching.s.(workload := NeverStarted)), Failed(code))
         case Accepted => launching.(s := launching.s.(workload := Spawning)))
    case Shutdown =>
      if sys.s.leaving then taken
      else if sys.s.workload.Running? then SendFatal(taken, "SHUTDOWN_WITH_LIVE_WORKLOAD").(liveShutdown := true)
      else taken.(s := sys.s.(leaving := true))
  }

  function OnChildSpawned(cfg: Config, sys: System, step: Step): System
    requires step.ChildSpawned?
  {
    var running := sys.(s := sys.s.(workload := Running));
    if !step.inGroup then SendFatal(running, "WORKLOAD_GROUP_MISMATCH")
    else if step.allowed.None? || AffinityDiffers(cfg, step.allowed.value)
    then SendFatal(running, "WORKLOAD_AFFINITY_MISMATCH")
    else Send(running, Started(step.pid, step.bound, step.allowed.value))
  }

  function OnChildError(sys: System, code: Code): System {
    if sys.s.workload.Spawning? then Send(sys.(s := sys.s.(workload := NeverStarted)), Failed(code))
    else Send(sys, Fatal(code)).(clean := false)
  }

  // The runner's side.

  /** The identity check of a ready or started message failed. */
  predicate CheckFails(cfg: Config, m: Message, read: Read) {
    match m
    case Ready(pid, ticks, _) =>
      !Matches(Some(Identity(pid, pid, pid, Some(ticks), true)), Observed(read)) || !read.identity.live
      || !LeadsItsGroup(read.identity)
    case Started(pid, bound, _) =>
      && read.Found?
      && (read.identity.group != cfg.pid || read.identity.session != cfg.pid
          || (bound.Some? && read.identity.ticks != bound))
    case _ => false
  }

  function OnDeliver(cfg: Config, sys: System, read: Read, sendThrew: Option<Code>): System
    requires sys.up != []
  {
    var m := sys.up[0];
    var r := OnMessage(cfg, sys.r, m, sys.now, sys.now, read, sendThrew);
    var sends := r.link.launchSent && !sys.r.link.launchSent && sendThrew.None?;
    sys.(up := sys.up[1..], r := r, down := sys.down + (if sends then [Launch] else []),
         clean := sys.clean && !CheckFails(cfg, m.message, read))
  }

  function OnStream(r: Runner, isOut: bool, change: Stream -> Stream): Runner {
    r.(streams := if isOut then r.streams.(out := change(r.streams.out)) else r.streams.(err := change(r.streams.err)))
  }

  /** A cleanup step: its new runner state, the time it took, the shutdown it sent. */
  function Cleaning(sys: System, r: Runner, at: Time, channel: Channel): System {
    var sends := r.stop.requested && !sys.r.stop.requested && channel.Open?;
    sys.(r := r, now := at, down := sys.down + (if sends then [Shutdown] else []))
  }

  /** What the operating system and Node allow to happen. */
  predicate Enabled(cfg: Config, sys: System, step: Step) {
    match step
    case Tick(time) => sys.now <= time
    case Boot(_, _, _) => sys.s.life.Starting?
    case Receive(_) => sys.s.life.Serving? && sys.down != []
    case ChildSpawned(pid, _, _, _) => sys.s.life.Serving? && sys.s.workload.Spawning? && pid > 1
    case ChildError(_) => sys.s.life.Serving? && !sys.s.workload.NoWorkload? && !sys.s.workload.NeverStarted?
    case ChildExited(status) => sys.s.life.Serving? && sys.s.workload.Running? && ValidStatus(status)
    case Collapse(_) => sys.s.life.Serving?
    case Die => sys.r.child.present
    case Spawned(read) => sys.r.child.present && !sys.r.child.spawned && ReadOf(read, cfg.pid)
    case SpawnFailed(_) => sys.r.child.present && sys.r.child.spawnError.None?
    case Deliver(read, _) => sys.up != [] && (MessagePid(sys.up[0].message).Some? ==>
                               ReadOf(read, MessagePid(sys.up[0].message).value))
    case LaunchSendFailed(_) => sys.r.link.launchSent
    case SupervisorExited(status) =>
      sys.r.child.present && sys.s.life.Gone? && sys.r.child.status.None? && ValidStatus(status)
    case Abort => !sys.r.stage.Finished?
    case Deadline(read) => sys.r.task.identity.Some? ==> ReadOf(read, sys.r.task.identity.value.pid)
    case ShutdownSettles(_) => sys.r.stop.requested && !sys.r.stop.settled
    case StreamEnds(_) => sys.r.child.present
    case StreamFails(_, _) => sys.r.child.present
    case BeginCleanup(_, _, _) => sys.r.stage.Waiting? && sys.r.terminal.Some?
    case DrainTurn(_, _, _, _, _, time) => sys.r.stage.Draining? && sys.now <= time
    case SettleTurn(_, _, _, _, time) => sys.r.stage.Settling? && sys.now <= time
    case Reprobe(_) => sys.r.stage.Reprobing?
    case Collect => sys.r.stage.Destroying?
  }

  function MessagePid(m: Message): Option<int> {
    match m
    case Ready(pid, _, _) => Some(pid)
    case Started(pid, _, _) => Some(pid)
    case _ => None
  }

  /** Reading a process answers for that process. */
  predicate ReadOf(read: Read, pid: int) {
    read.Found? ==> read.identity.pid == pid && read.identity.ticks.Some?
  }

  function Take(cfg: Config, sys: System, step: Step): System
    requires Enabled(cfg, sys, step)
  {
    match step
    case Tick(time) => sys.(now := time)
    case Boot(_, _, _) => OnBoot(cfg, sys, step)
    case Receive(outcome) => OnCommand(sys, outcome)
    case ChildSpawned(_, _, _, _) => OnChildSpawned(cfg, sys, step)
    case ChildError(code) => OnChildError(sys, code)
    case ChildExited(status) => Send(sys.(s := sys.s.(workload := Ended)), Exited(status))
    case Collapse(code) => SendFatal(sys, code)
    case Die => sys.(s := sys.s.(life := Gone))
    case Spawned(read) => sys.(r := OnSpawn(cfg, sys.r, read))
    case SpawnFailed(code) => sys.(r := OnSpawnError(sys.r, code, sys.now))
    case Deliver(read, sendThrew) => OnDeliver(cfg, sys, read, sendThrew)
    case LaunchSendFailed(code) => sys.(r := ChooseLaunchError(sys.r, code, sys.now))
    case SupervisorExited(status) => sys.(r := OnSupervisorExit(cfg, sys.r, status, sys.now))
    case Abort => sys.(r := ChooseCancel(sys.r, sys.now))
    case Deadline(read) => sys.(r := OnDeadline(cfg, sys.r, sys.now, sys.now, read, sys.r.retrying))
    case ShutdownSettles(error) => sys.(r := sys.r.(stop := sys.r.stop.(settled := true, error := error)))
    case StreamEnds(isOut) => sys.(r := OnStream(sys.r, isOut, (x: Stream) => x.(ended := true)))
    case StreamFails(isOut, code) => sys.(r := OnStream(sys.r, isOut, (x: Stream) => x.(error := Some(code))))
    case BeginCleanup(first, world, channel) =>
      Cleaning(sys, Begin(cfg, sys.r, first, world, channel, sys.now), sys.now, channel)
    case DrainTurn(first, last, final, world, channel, time) =>
      Cleaning(sys, Drain(cfg, sys.r, first, last, final, sys.now, world, channel, time), time, channel)
    case SettleTurn(first, last, final, world, time) =>
      Cleaning(sys, Settle(cfg, sys.r, first, last, final, sys.now, world, time), time, Closed)
    case Reprobe(first) => Cleaning(sys, Close(cfg, Probed(sys.r, first), sys.now), sys.now, Closed)
    case Collect => Cleaning(sys, Finish(cfg, sys.r, sys.r.stage.drained, false, sys.now), sys.now, Closed)
  }

  /** A run: every step is possible where it happens. */
  predicate IsRun(cfg: Config, sys: System, steps: seq<Step>)
    decreases |steps|, 0
  {
    steps == [] ||
    (IsRun(cfg, sys, steps[..|steps| - 1]) && Enabled(cfg, After(cfg, sys, steps[..|steps| - 1]), steps[|steps| - 1]))
  }

  function After(cfg: Config, sys: System, steps: seq<Step>): System
    requires IsRun(cfg, sys, steps)
    decreases |steps|, 1
  {
    if steps == [] then sys
    else Take(cfg, After(cfg, sys, steps[..|steps| - 1]), steps[|steps| - 1])
  }
}
