/** One workload attempt as the runner sees it (createRunner in attempt-runner.mjs): the
    state its event handlers share, and what each handler does to it. Clock readings and
    process inspections are parameters. */
module AttemptRunner {
  import opened Text

  type Time = int
  type Code = string

  datatype Signal = SigTerm | SigKill | OtherSignal(name: string)

  datatype Status = Status(exitCode: Option<int>, signal: Option<Signal>)

  const NO_STATUS := Status(None, None)

  /** validExitStatus: exactly one of an exit code and a signal. */
  predicate ValidStatus(s: Status) {
    && (s.exitCode.Some? ==> 0 <= s.exitCode.value <= 255)
    && s.exitCode.Some? != s.signal.Some?
  }

  datatype Identity = Identity(pid: int, group: int, session: int, ticks: Option<nat>, live: bool)

  datatype Read = Found(identity: Identity) | Missing | ReadFailed(code: Code)

  function Observed(read: Read): Option<Identity> {
    if read.Found? then Some(read.identity) else None
  }

  /** identityMatches. */
  predicate Matches(expected: Option<Identity>, actual: Option<Identity>) {
    && expected.Some? && actual.Some?
    && expected.value.pid == actual.value.pid && expected.value.ticks == actual.value.ticks
    && expected.value.group == actual.value.group && expected.value.session == actual.value.session
  }

  predicate LeadsItsGroup(i: Identity) { i.group == i.pid && i.session == i.pid }

  // Messages of the supervisor.

  datatype Message = Ready(pid: int, ticks: nat, cpus: string)
    | Started(pid: int, bound: Option<nat>, cpus: string)
    | Exited(status: Status)
    | Failed(code: Code)
    | Fatal(code: Code)

  datatype Stamped = Stamped(message: Message, stamp: Time)

  datatype Config = Config(pid: int, start: Time, deadline: Time, affinity: Option<string>, termGrace: nat,
                           killGrace: nat)

  predicate ValidConfig(cfg: Config) { cfg.pid > 1 && cfg.start <= cfg.deadline }

  // The terminal choice.

  datatype Cause = NaturalExit | ObservationWindow | ExternalCancel | LaunchFailure | TerminalRace

  datatype Choice = Choice(cause: Cause, reason: string, status: Status, launchError: Option<Code>, chosen: Time)

  datatype Protocol = AwaitingReady | SupervisorReady | LaunchSent | WorkloadStarted | WorkloadTerminal

  datatype Exit = Exit(status: Status, stamp: Time)

  datatype Stream = Stream(ended: bool, error: Option<Code>)
  {
    predicate Complete() { ended && error.None? }
  }

  datatype Mode = ProcessGroup | IdentityBoundMembers

  datatype Action = Action(attempted: bool, delivered: bool, mode: Option<Mode>, error: Option<Code>,
                           at: Option<Time>)

  const NO_ACTION := Action(false, false, None, None, None)

  datatype Probe = Probe(known: bool, members: seq<Identity>)

  /** Where the cleanup procedure is suspended. */
  datatype Stage = Waiting | Draining(until: Time) | Settling(until: Time) | Reprobing
    | Destroying(drained: bool) | Finished(result: Result)

  datatype Boundary = Boundary(start: Time, started: Option<Time>, chosen: Time, finished: Time)

  datatype Cleanup = Cleanup(cause: Cause, term: Action, kill: Action, shutdownRequested: bool, groupDrained: bool,
                             outputDrained: bool, failure: Option<Code>, postTerminal: Option<Status>,
                             supervisorStatus: Option<Status>)

  datatype Result = Result(boundary: Boundary, supervisor: Option<Identity>, workload: Option<Identity>,
                           status: Status, reason: string, cleanupComplete: bool, launchError: Option<Code>,
                           cleanup: Cleanup, out: Stream, err: Stream)

  /** The channel to the supervisor. */
  datatype Link = Link(protocol: Protocol, lastStamp: Option<Time>, launchSent: bool, broken: bool,
                       fatal: Option<Code>)

  /** The supervisor process. */
  datatype Child = Child(present: bool, spawned: bool, spawnError: Option<Code>, identity: Option<Identity>,
                         status: Option<Status>, unexpectedExit: bool)

  /** The workload. */
  datatype Task = Task(identity: Option<Identity>, startedAt: Option<Time>, exit: Option<Exit>)

  datatype Stop = Stop(requested: bool, settled: bool, error: Option<Code>, killExpected: bool)

  datatype Group = Group(id: Option<int>, probe: Probe, error: Option<Code>)

  /** drainedEarly: the wait after TERM ended before its deadline. */
  datatype Signals = Signals(term: Action, kill: Action, drainedEarly: bool)

  datatype Streams = Streams(out: Stream, err: Stream, destroyed: bool)

  datatype Runner = Runner(
    terminal: Option<Choice>, retrying: bool, identityError: Option<Code>,
    link: Link, child: Child, task: Task, stop: Stop, group: Group, signals: Signals, streams: Streams,
    stage: Stage)

  /** spawnProcess returned a child, or threw. */
  function Initial(thrown: Option<Code>, at: Time): Runner {
    var r := Runner(None, false, None, Link(AwaitingReady, None, false, false, None),
                    Child(thrown.None?, false, thrown, None, None, false), Task(None, None, None),
                    Stop(false, false, None, false), Group(None, Probe(true, []), None),
                    Signals(NO_ACTION, NO_ACTION, false), Streams(Stream(false, None), Stream(false, None), false),
                    Waiting);
    if thrown.Some? then ChooseLaunchError(r, thrown.value, at) else r
  }

  /** createTerminalChoice: only the first candidate counts. */
  function Choose(r: Runner, c: Choice): Runner {
    if r.terminal.Some? then r else r.(terminal := Some(c))
  }

  function ChooseLaunchError(r: Runner, code: Code, at: Time): Runner {
    Choose(r, Choice(LaunchFailure, "launch-error", NO_STATUS, Some(code), at))
  }

  function ChooseTerminalRace(r: Runner, at: Time): Runner {
    Choose(r, Choice(TerminalRace, "terminal-race-unresolved", NO_STATUS, None, at))
  }

  function ChooseNatural(r: Runner, status: Status, at: Time): Runner {
    Choose(r, Choice(NaturalExit, "natural-exit", status, None, at))
  }

  function ChooseCancel(r: Runner, at: Time): Runner {
    Choose(r, Choice(ExternalCancel, "external-cancel", NO_STATUS, None, at))
  }

  function Violation(r: Runner, at: Time): Runner {
    var broken := r.(link := r.link.(broken := true));
    if r.task.identity.None? then ChooseLaunchError(broken, "SUPERVISOR_PROTOCOL_ERROR", at)
    else ChooseTerminalRace(broken, at)
  }

  /** safeReadIdentity keeps the first error. */
  function NoteRead(r: Runner, read: Read): Runner {
    if read.ReadFailed? && r.identityError.None? then r.(identityError := Some(read.code)) else r
  }

  // Handlers of supervisor messages.

  predicate AffinityDiffers(cfg: Config, cpus: string) { cfg.affinity.Some? && cfg.affinity.value != cpus }

  /** sendThrew is the error of supervisor.send, if it threw. */
  function SendLaunch(cfg: Config, ready: Runner, stamp: Time, at: Time, sendThrew: Option<Code>): Runner {
    if ready.terminal.Some? || stamp > cfg.deadline || at >= cfg.deadline
    then ChooseLaunchError(ready, "LAUNCH_TIMEOUT", at)
    else
      var sent := ready.(link := ready.link.(launchSent := true, protocol := LaunchSent));
      if sendThrew.Some? then ChooseLaunchError(sent, sendThrew.value, at) else sent
  }

  function OnReady(cfg: Config, r: Runner, m: Message, stamp: Time, at: Time, read: Read, sendThrew: Option<Code>)
    : Runner
    requires m.Ready?
  {
    if !r.link.protocol.AwaitingReady? || m.pid != cfg.pid || AffinityDiffers(cfg, m.cpus) then Violation(r, at)
    else
      var noted := NoteRead(r, read);
      var claimed := Identity(m.pid, m.pid, m.pid, Some(m.ticks), true);
      if !Matches(Some(claimed), Observed(read)) || !read.identity.live || !LeadsItsGroup(read.identity)
      then ChooseLaunchError(noted, "SUPERVISOR_IDENTITY_ERROR", at)
      else
        var ready := noted.(child := r.child.(identity := Some(read.identity)),
                            link := r.link.(protocol := SupervisorReady));
        SendLaunch(cfg, ready, stamp, at, sendThrew)
  }

  function OnStarted(cfg: Config, r: Runner, m: Message, stamp: Time, at: Time, read: Read): Runner
    requires m.Started?
  {
    if !r.link.protocol.LaunchSent? || m.pid <= 1 || AffinityDiffers(cfg, m.cpus) then Violation(r, at)
    else
      var noted := NoteRead(r, read);
      var actual := Observed(read);
      if actual.Some? && (actual.value.group != cfg.pid || actual.value.session != cfg.pid)
      then ChooseLaunchError(noted, "WORKLOAD_IDENTITY_ERROR", at)
      else
        var ticks := if m.bound.Some? then m.bound else if actual.Some? then actual.value.ticks else None;
        var named := Identity(m.pid, cfg.pid, cfg.pid, ticks, actual.Some? && actual.value.live);
        var held := noted.(task := r.task.(identity := Some(named)));
        if m.bound.Some? && actual.Some? && !Matches(Some(named), actual)
        then ChooseLaunchError(held, "WORKLOAD_IDENTITY_ERROR", at)
        else
          var started := held.(task := held.task.(startedAt := Some(stamp)),
                              link := r.link.(protocol := WorkloadStarted));
          if stamp > cfg.deadline then ChooseTerminalRace(started, at) else started
  }

  function OnExited(cfg: Config, r: Runner, m: Message, stamp: Time, at: Time): Runner
    requires m.Exited?
  {
    if !r.link.protocol.WorkloadStarted? || !ValidStatus(m.status) then Violation(r, at)
    else
      var exited := r.(task := r.task.(exit := Some(Exit(m.status, stamp))),
                       link := r.link.(protocol := WorkloadTerminal));
      if stamp <= cfg.deadline then ChooseNatural(exited, m.status, at) else ChooseTerminalRace(exited, at)
  }

  function OnFailed(cfg: Config, r: Runner, m: Message, stamp: Time, at: Time): Runner
    requires m.Failed?
  {
    if !r.link.protocol.LaunchSent? then Violation(r, at)
    else ChooseLaunchError(r.(link := r.link.(protocol := WorkloadTerminal)),
                           if stamp <= cfg.deadline then m.code else "LAUNCH_TIMEOUT", at)
  }

  function OnFatal(r: Runner, m: Message, at: Time): Runner
    requires m.Fatal?
  {
    if r.link.fatal.Some? then Violation(r, at)
    else
      var noted := r.(link := r.link.(fatal := Some(m.code)));
      if r.task.identity.None? then ChooseLaunchError(noted, m.code, at) else ChooseTerminalRace(noted, at)
  }

  /** received is the clock at arrival, at any later reading. */
  function OnMessage(cfg: Config, r: Runner, sm: Stamped, received: Time, at: Time, read: Read,
                     sendThrew: Option<Code>): Runner
  {
    if sm.stamp > received || (r.link.lastStamp.Some? && sm.stamp < r.link.lastStamp.value) then Violation(r, at)
    else
      var timed := r.(link := r.link.(lastStamp := Some(sm.stamp)));
      match sm.message
      case Ready(_, _, _) => OnReady(cfg, timed, sm.message, sm.stamp, at, read, sendThrew)
      case Started(_, _, _) => OnStarted(cfg, timed, sm.message, sm.stamp, at, read)
      case Exited(_) => OnExited(cfg, timed, sm.message, sm.stamp, at)
      case Failed(_) => OnFailed(cfg, timed, sm.message, sm.stamp, at)
      case Fatal(_) => OnFatal(timed, sm.message, at)
  }

  // Other events.

  function OnSpawn(cfg: Config, r: Runner, read: Read): Runner {
    var leads := read.Found? && read.identity.group == cfg.pid && read.identity.session == cfg.pid;
    NoteRead(r, read).(child := r.child.(spawned := true,
                                         identity := if leads then Some(read.identity) else r.child.identity))
  }

  function OnSpawnError(r: Runner, code: Code, at: Time): Runner {
    ChooseLaunchError(r.(child := r.child.(spawnError := Some(code))), code, at)
  }

  function OnSupervisorExit(cfg: Config, r: Runner, status: Status, at: Time): Runner {
    var expected := r.stop.requested || r.stop.killExpected;
    var noted := r.(child := r.child.(status := Some(status), unexpectedExit := r.child.unexpectedExit || !expected));
    var exit := r.task.exit;
    if exit.Some? && exit.value.stamp <= cfg.deadline then ChooseNatural(noted, exit.value.status, at)
    else if r.task.identity.None? then ChooseLaunchError(noted, "SUPERVISOR_EXIT", at)
    else ChooseTerminalRace(noted, at)
  }

  datatype Candidate = NaturalCandidate(status: Status) | LaunchTimeout | WindowElapsed | RacePending

  /** selectAttemptDeadlineCandidate. */
  function SelectDeadlineCandidate(exit: Option<Exit>, deadline: Time, launchSent: bool, workload: Option<Identity>,
                                   current: Option<Identity>): Candidate
  {
    match exit
    case Some(e) => if e.stamp <= deadline then NaturalCandidate(e.status) else RacePending
    case None =>
      if !launchSent || workload.None? then LaunchTimeout
      else if Matches(workload, current) && current.value.live then WindowElapsed
      else RacePending
  }

  /** handleDeadline; a pending race is inspected once more after the event queue ran. */
  function OnDeadline(cfg: Config, r: Runner, now: Time, at: Time, read: Read, again: bool): Runner {
    if r.terminal.Some? then r.(retrying := false)
    else if !again && now < cfg.deadline then r
    else
      var inspects := r.task.identity.Some? && r.task.identity.value.ticks.Some?;
      var noted := if inspects then NoteRead(r, read) else r;
      match SelectDeadlineCandidate(r.task.exit, cfg.deadline, r.link.launchSent, r.task.identity,
                                    if inspects then Observed(read) else None)
      case NaturalCandidate(status) => ChooseNatural(noted.(retrying := false), status, at)
      case LaunchTimeout => ChooseLaunchError(noted.(retrying := false), "LAUNCH_TIMEOUT", at)
      case WindowElapsed =>
        Choose(noted.(retrying := false),
               Choice(ObservationWindow, "observation-window-elapsed", NO_STATUS, None, at))
      case RacePending =>
        if again then ChooseTerminalRace(noted.(retrying := false), at) else noted.(retrying := true)
  }
}
