/** The cleanup after the terminal choice: probing the process group, TERM, KILL or an
    orderly shutdown, and the result (signalCleanupTarget, supervisorCompletionValid and the
    second half of runAttempt in attempt-runner.mjs). */
module AttemptCleanup {
  import opened Text
  import opened AttemptRunner

  /** What process.kill did. */
  datatype KillOutcome = Delivered | NoSuchProcess | KillFailed(code: Code)

  /** The processes a signal meets: identity reads and kill results, by pid. */
  datatype World = World(anchor: Read, groupKill: KillOutcome, members: int -> Read, memberKill: int -> KillOutcome)

  function FirstError(error: Option<Code>, code: Code): Option<Code> {
    if error.Some? then error else Some(code)
  }

  function SignalMember(action: Action, world: World, member: Identity): Action {
    match world.members(member.pid)
    case ReadFailed(code) => action.(error := FirstError(action.error, code))
    case read =>
      if !Matches(Some(member), Observed(read)) || !read.identity.live
      then action.(error := FirstError(action.error, "MEMBER_IDENTITY_CHANGED"))
      else
        match world.memberKill(member.pid)
        case Delivered => action.(delivered := true)
        case NoSuchProcess => action
        case KillFailed(code) => action.(error := FirstError(action.error, code))
  }

  function SignalMembers(action: Action, world: World, members: seq<Identity>): Action
    decreases |members|
  {
    if members == [] then action
    else SignalMember(SignalMembers(action, world, members[..|members| - 1]), world, members[|members| - 1])
  }

  function SignalTarget(supervisor: Option<Identity>, probe: Probe, world: World, at: Time): Action {
    var action := Action(true, false, None, None, Some(at));
    if supervisor.None? then action.(error := Some("SUPERVISOR_IDENTITY_MISSING"))
    else if world.anchor.ReadFailed? then action.(error := Some(world.anchor.code))
    else if Matches(supervisor, Observed(world.anchor)) && world.anchor.identity.live then
      match world.groupKill
      case Delivered => action.(mode := Some(ProcessGroup), delivered := true)
      case NoSuchProcess => action.(mode := Some(ProcessGroup))
      case KillFailed(code) => action.(mode := Some(ProcessGroup), error := Some(code))
    else if !probe.known then action.(error := Some("GROUP_STATE_UNKNOWN"))
    else if exists i :: 0 <= i < |probe.members| && probe.members[i].session != supervisor.value.session
    then action.(error := Some("GROUP_IDENTITY_CHANGED"))
    else SignalMembers(action.(mode := Some(IdentityBoundMembers)), world, probe.members)
  }

  /** The members a signal may reach once the group leader is gone: exactly those that are
      still the processes the probe saw. */
  predicate StillThere(world: World, member: Identity) {
    Matches(Some(member), Observed(world.members(member.pid))) && world.members(member.pid).identity.live
  }

  method SignalCleanupTarget(supervisor: Option<Identity>, probe: Probe, world: World, at: Time)
    returns (action: Action, ghost signalled: seq<Identity>)
    ensures action == SignalTarget(supervisor, probe, world, at)
    ensures forall m :: m in signalled ==> m in probe.members && StillThere(world, m)
    ensures action.mode == Some(IdentityBoundMembers) ==>
              forall m :: m in probe.members && StillThere(world, m) ==> m in signalled
    ensures action.mode != Some(IdentityBoundMembers) ==> signalled == []
    ensures action.mode == Some(IdentityBoundMembers) && action.error.None? ==> signalled == probe.members
  {
    action := Action(true, false, None, None, Some(at));
    signalled := [];
    if supervisor.None? { return action.(error := Some("SUPERVISOR_IDENTITY_MISSING")), []; }
    if world.anchor.ReadFailed? { return action.(error := Some(world.anchor.code)), []; }
    if Matches(supervisor, Observed(world.anchor)) && world.anchor.identity.live {
      action := action.(mode := Some(ProcessGroup));
      match world.groupKill {
        case Delivered => action := action.(delivered := true);
        case NoSuchProcess =>
        case KillFailed(code) => action := action.(error := Some(code));
      }
      return action, [];
    }
    if !probe.known { return action.(error := Some("GROUP_STATE_UNKNOWN")), []; }
    if exists i :: 0 <= i < |probe.members| && probe.members[i].session != supervisor.value.session {
      return action.(error := Some("GROUP_IDENTITY_CHANGED")), [];
    }
    action := action.(mode := Some(IdentityBoundMembers));
    ghost var first := action;
    for k := 0 to |probe.members|
      invariant action == SignalMembers(first, world, probe.members[..k])
      invariant action.mode == Some(IdentityBoundMembers)
      invariant forall m :: m in signalled <==> m in probe.members[..k] && StillThere(world, m)
      invariant action.error.None? ==> signalled == probe.members[..k]
    {
      var member := probe.members[k];
      assert probe.members[..k + 1] == probe.members[..k] + [member];
      var read := world.members(member.pid);
      if read.ReadFailed? {
        action := action.(error := FirstError(action.error, read.code));
      } else if !Matches(Some(member), Observed(read)) || !read.identity.live {
        action := action.(error := FirstError(action.error, "MEMBER_IDENTITY_CHANGED"));
      } else {
        signalled := signalled + [member];
        match world.memberKill(member.pid) {
          case Delivered => action := action.(delivered := true);
          case NoSuchProcess =>
          case KillFailed(code) => action := action.(error := FirstError(action.error, code));
        }
      }
    }
    assert probe.members[..|probe.members|] == probe.members;
  }

  // Probing the group.

  datatype Listing = Listed(members: seq<Identity>) | ListingFailed(code: Code)

  predicate ValidMember(m: Identity, group: int) {
    m.pid > 1 && m.live && m.group == group && m.session > 1 && m.ticks.Some?
  }

  function NoteGroupError(g: Group, code: Code): Group {
    g.(error := FirstError(g.error, code), probe := Probe(false, []))
  }

  /** groupProbe; the group is unknown for ever when cleanup began before the supervisor's
      spawn was reported. */
  function ProbeGroup(child: Child, g: Group, listing: Listing): Group {
    if g.id.None? then
      if !child.present || (!child.spawned && child.spawnError.Some?) then g.(probe := Probe(true, []))
      else NoteGroupError(g, "SUPERVISOR_IDENTITY_MISSING")
    else
      match listing
      case ListingFailed(code) => NoteGroupError(g, code)
      case Listed(members) =>
        if forall i :: 0 <= i < |members| ==> ValidMember(members[i], g.id.value)
        then g.(probe := Probe(true, members)) else NoteGroupError(g, "GROUP_PROBE_INVALID")
  }

  /** A member other than the supervisor is left. */
  predicate HasResidue(cfg: Config, probe: Probe) {
    exists i :: 0 <= i < |probe.members| && probe.members[i].pid != cfg.pid
  }

  predicate WorkloadSettled(protocol: Protocol) {
    protocol.AwaitingReady? || protocol.SupervisorReady? || protocol.WorkloadTerminal?
  }

  predicate StreamsComplete(r: Runner) {
    r.child.present ==> r.streams.out.Complete() && r.streams.err.Complete()
  }

  predicate CompletionObserved(c: Child) {
    !c.present || c.status.Some? || (!c.spawned && c.spawnError.Some?)
  }

  // Shutdown and signals.

  /** The IPC channel at the moment of a send: open, closed, or throwing. */
  datatype Channel = Open | Closed | Throws(code: Code)

  function RequestShutdown(child: Child, stop: Stop, channel: Channel): Stop {
    if !child.present || child.status.Some? || stop.requested then stop
    else
      match channel
      case Open => stop.(requested := true)
      case Closed => stop.(requested := true, settled := true, error := Some("SHUTDOWN_CHANNEL_CLOSED"))
      case Throws(code) => stop.(requested := true, settled := true, error := Some(code))
  }

  function SendKill(r: Runner, world: World, at: Time): Runner {
    r.(stop := r.stop.(killExpected := true),
       signals := r.signals.(kill := SignalTarget(r.child.identity, r.group.probe, world, at)))
  }

  predicate Drained(cfg: Config, r: Runner) {
    r.group.probe.known && !HasResidue(cfg, r.group.probe) && WorkloadSettled(r.link.protocol)
  }

  /** KILL what is left, or ask an idle supervisor to leave. */
  function Decide(cfg: Config, r: Runner, world: World, channel: Channel, at: Time): Runner {
    var next := r.(stage := Settling(at + cfg.killGrace));
    if Drained(cfg, r) then next.(stop := RequestShutdown(r.child, r.stop, channel)) else SendKill(next, world, at)
  }

  function Probed(r: Runner, listing: Listing): Runner {
    r.(group := ProbeGroup(r.child, r.group, listing))
  }

  function Begin(cfg: Config, r: Runner, listing: Listing, world: World, channel: Channel, at: Time): Runner {
    var id := if r.child.identity.Some? then Some(r.child.identity.value.group)
              else if r.child.spawned then Some(cfg.pid) else None;
    var probed := Probed(r.(group := r.group.(id := id)), listing);
    if !probed.group.probe.known || HasResidue(cfg, probed.group.probe)
    then probed.(signals := r.signals.(term := SignalTarget(r.child.identity, probed.group.probe, world, at)),
                 stage := Draining(at + cfg.termGrace))
    else Decide(cfg, probed, world, channel, at)
  }

  /** One turn of the TERM wait: it ends when the group drained or the time is over, and
      then the group is probed once more. */
  function Drain(cfg: Config, r: Runner, first: Listing, last: Listing, final: Listing, now: Time, world: World,
                 channel: Channel, at: Time): Runner
    requires r.stage.Draining?
  {
    var probed := Probed(r, first);
    if Drained(cfg, probed) then
      Decide(cfg, Probed(probed.(signals := r.signals.(drainedEarly := true)), final), world, channel, at)
    else if now >= r.stage.until then Decide(cfg, Probed(Probed(probed, last), final), world, channel, at)
    else probed
  }

  predicate Quiet(r: Runner) {
    && r.group.probe.known && r.group.probe.members == [] && StreamsComplete(r) && CompletionObserved(r.child)
    && (r.stop.requested ==> r.stop.settled)
  }

  /** One turn of the final wait. */
  function Settle(cfg: Config, r: Runner, first: Listing, last: Listing, final: Listing, now: Time, world: World,
                  at: Time): Runner
    requires r.stage.Settling?
  {
    var probed := Probed(r, first);
    if Quiet(probed) then Conclude(cfg, Probed(probed, final), world, at)
    else if now >= r.stage.until then Conclude(cfg, Probed(Probed(probed, last), final), world, at)
    else probed
  }

  function Conclude(cfg: Config, r: Runner, world: World, at: Time): Runner {
    if (!r.group.probe.known || r.group.probe.members != []) && !r.signals.kill.attempted
    then SendKill(r, world, at).(stage := Reprobing)
    else if !CompletionObserved(r.child) || (r.stop.requested && !r.stop.settled) then r.(stage := Reprobing)
    else Close(cfg, r, at)
  }

  function Close(cfg: Config, r: Runner, at: Time): Runner {
    var drained := r.group.probe.known && r.group.probe.members == [];
    if StreamsComplete(r) then Finish(cfg, r, drained, true, at)
    else r.(streams := r.streams.(destroyed := true), stage := Destroying(drained))
  }

  // The result.

  predicate SupervisorCompletionValid(child: Child, stop: Stop, kill: Action) {
    if !child.present then child.spawnError.Some?
    else if !child.spawned && child.spawnError.Some? && child.identity.None? then true
    else if child.status.None? then false
    else if kill.attempted && kill.delivered then child.status == Some(Status(None, Some(SigKill)))
    else stop.requested && stop.settled && stop.error.None? && child.status == Some(Status(Some(0), None))
  }

  predicate CleanupComplete(r: Runner, drained: bool, outputDrained: bool) {
    && drained && outputDrained && r.group.error.None? && r.identityError.None?
    && r.signals.term.error.None? && r.signals.kill.error.None? && r.stop.error.None?
    && !r.link.broken && r.link.fatal.None?
    && !r.child.unexpectedExit && SupervisorCompletionValid(r.child, r.stop, r.signals.kill)
  }

  function FailureReason(r: Runner, drained: bool, outputDrained: bool): Option<Code> {
    if r.link.broken then Some("SUPERVISOR_PROTOCOL_ERROR")
    else if r.link.fatal.Some? then r.link.fatal
    else if r.identityError.Some? then r.identityError
    else if r.group.error.Some? then r.group.error
    else if r.signals.term.error.Some? then r.signals.term.error
    else if r.signals.kill.error.Some? then r.signals.kill.error
    else if r.stop.error.Some? then r.stop.error
    else if r.child.unexpectedExit then Some("SUPERVISOR_UNEXPECTED_EXIT")
    else if !drained then Some("GROUP_NOT_DRAINED")
    else if !outputDrained then Some("OUTPUT_NOT_DRAINED")
    else if !SupervisorCompletionValid(r.child, r.stop, r.signals.kill) then Some("SUPERVISOR_COMPLETION_INVALID")
    else None
  }

  function BuildResult(cfg: Config, r: Runner, choice: Choice, drained: bool, outputDrained: bool, at: Time): Result {
    var post := if choice.cause.NaturalExit? || r.task.exit.None? then None else Some(r.task.exit.value.status);
    var cleanup := Cleanup(choice.cause, r.signals.term, r.signals.kill, r.stop.requested, drained, outputDrained,
                           FailureReason(r, drained, outputDrained), post, r.child.status);
    var empty := Stream(true, None);
    Result(Boundary(cfg.start, r.task.startedAt, choice.chosen, at), r.child.identity, r.task.identity,
           choice.status, choice.reason, CleanupComplete(r, drained, outputDrained), choice.launchError, cleanup,
           if r.child.present then r.streams.out else empty, if r.child.present then r.streams.err else empty)
  }

  function Finish(cfg: Config, r: Runner, drained: bool, outputDrained: bool, at: Time): Runner {
    match r.terminal
    case None => r
    case Some(choice) => r.(stage := Finished(BuildResult(cfg, r, choice, drained, outputDrained, at)))
  }
}
