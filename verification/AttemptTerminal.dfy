/** The terminal choice of an attempt: written once, and what each cause guarantees. */
module AttemptTerminal {
  import opened Text
  import opened AttemptRunner
  import opened AttemptCleanup
  import opened AttemptSystem
  import opened AttemptSafety

  /** The choice as an object shared by every handler (createTerminalChoice). */
  class TerminalChoice {
    var value: Option<Choice>

    constructor ()
      ensures value == None
    {
      value := None;
    }

    method Choose(candidate: Choice) returns (accepted: bool)
      modifies this
      ensures accepted == old(value).None?
      ensures value == if accepted then Some(candidate) else old(value)
    {
      if value.Some? { return false; }
      value := Some(candidate);
      return true;
    }
  }

  function ReasonOf(cause: Cause): string {
    match cause
    case NaturalExit => "natural-exit"
    case ObservationWindow => "observation-window-elapsed"
    case ExternalCancel => "external-cancel"
    case LaunchFailure => "launch-error"
    case TerminalRace => "terminal-race-unresolved"
  }

  /** What a recorded cause says about the attempt. */
  ghost predicate Justified(cfg: Config, r: Runner, c: Choice) {
    && c.reason == ReasonOf(c.cause)
    && (c.cause.NaturalExit? ==>
          && r.task.exit.Some? && r.task.exit.value.stamp <= cfg.deadline && c.status == r.task.exit.value.status
          && c.launchError.None?)
    && (!c.cause.NaturalExit? ==> c.status == NO_STATUS)
    && (c.cause.LaunchFailure? <==> c.launchError.Some?)
    && (c.cause.ObservationWindow? ==> cfg.deadline <= c.chosen)
  }

  ghost predicate ChoiceInvariant(cfg: Config, sys: System) {
    var r := sys.r;
    && cfg.start <= sys.now
    && (r.terminal.Some? ==> Justified(cfg, r, r.terminal.value) && cfg.start <= r.terminal.value.chosen <= sys.now)
    && (r.task.exit.Some? ==>
          r.terminal.Some? && r.link.protocol.WorkloadTerminal? && ValidStatus(r.task.exit.value.status))
    && (r.retrying ==> cfg.deadline <= sys.now)
  }

  lemma ChoiceStarts(cfg: Config, thrown: Option<Code>)
    ensures ChoiceInvariant(cfg, Start(cfg, thrown))
  {
  }

  lemma ChoiceAfterDeadline(cfg: Config, sys: System, read: Read)
    requires ChoiceInvariant(cfg, sys)
    ensures ChoiceInvariant(cfg, sys.(r := OnDeadline(cfg, sys.r, sys.now, sys.now, read, sys.r.retrying)))
  {
    hide Matches;
  }

  lemma ChoiceAfterExit(cfg: Config, sys: System, status: Status)
    requires ChoiceInvariant(cfg, sys)
    ensures ChoiceInvariant(cfg, sys.(r := OnSupervisorExit(cfg, sys.r, status, sys.now)))
  {
  }

  lemma ChoiceAfterEvent(cfg: Config, sys: System, step: Step)
    requires ChoiceInvariant(cfg, sys) && Enabled(cfg, sys, step) && IsRunnerEvent(step)
    ensures ChoiceInvariant(cfg, Take(cfg, sys, step))
  {
    hide Enabled, OnDeadline, OnSupervisorExit, OnSpawn, OnSpawnError, ChooseLaunchError, ChooseCancel, ChoiceInvariant,
         OnBoot, OnCommand, OnChildSpawned, OnChildError, Send, SendFatal, OnDeliver, Cleaning, Begin, Drain, Settle,
         Close, Finish, Probed;
    match step
    case Deadline(read) => ChoiceAfterDeadline(cfg, sys, read);
    case SupervisorExited(status) => ChoiceAfterExit(cfg, sys, status);
    case Spawned(read) => ChoiceAfterSpawn(cfg, sys, read);
    case SpawnFailed(code) => ChoiceAfterSpawnError(cfg, sys, code);
    case LaunchSendFailed(code) => ChoiceAfterLaunchError(cfg, sys, code);
    case Abort => ChoiceAfterCancel(cfg, sys);
    case ShutdownSettles(_) => ChoiceIsKept(cfg, sys, Take(cfg, sys, step));
    case StreamEnds(_) => ChoiceIsKept(cfg, sys, Take(cfg, sys, step));
    case StreamFails(_, _) => ChoiceIsKept(cfg, sys, Take(cfg, sys, step));
  }

  lemma ChoiceAfterSpawn(cfg: Config, sys: System, read: Read)
    requires ChoiceInvariant(cfg, sys)
    ensures ChoiceInvariant(cfg, sys.(r := OnSpawn(cfg, sys.r, read)))
  {
    hide ReasonOf, ValidStatus;
  }

  lemma ChoiceAfterSpawnError(cfg: Config, sys: System, code: Code)
    requires ChoiceInvariant(cfg, sys)
    ensures ChoiceInvariant(cfg, sys.(r := OnSpawnError(sys.r, code, sys.now)))
  {
    assert ReasonOf(LaunchFailure) == "launch-error" by { Reasons(); }
    hide ReasonOf, ValidStatus;
  }

  lemma ChoiceAfterLaunchError(cfg: Config, sys: System, code: Code)
    requires ChoiceInvariant(cfg, sys)
    ensures ChoiceInvariant(cfg, sys.(r := ChooseLaunchError(sys.r, code, sys.now)))
  {
    assert ReasonOf(LaunchFailure) == "launch-error" by { Reasons(); }
    hide ReasonOf, ValidStatus;
  }

  lemma ChoiceAfterCancel(cfg: Config, sys: System)
    requires ChoiceInvariant(cfg, sys)
    ensures ChoiceInvariant(cfg, sys.(r := ChooseCancel(sys.r, sys.now)))
  {
    assert ReasonOf(ExternalCancel) == "external-cancel" by { Reasons(); }
    hide ReasonOf, ValidStatus;
  }

  lemma Reasons()
    ensures ReasonOf(LaunchFailure) == "launch-error" && ReasonOf(ExternalCancel) == "external-cancel"
    ensures ReasonOf(NaturalExit) == "natural-exit" && ReasonOf(TerminalRace) == "terminal-race-unresolved"
  {
  }

  /** A message handler keeps the justification of an earlier choice or justifies its own. */
  ghost predicate KeepsChoice(cfg: Config, r: Runner, r': Runner, now: Time) {
    && r'.retrying == r.retrying
    && (r.terminal.Some? ==> r'.terminal == r.terminal)
    && (r.task.exit.Some? ==> r'.task.exit == r.task.exit && r'.link.protocol.WorkloadTerminal?)
    && (r'.task.exit.Some? ==>
          r'.terminal.Some? && r'.link.protocol.WorkloadTerminal? && ValidStatus(r'.task.exit.value.status))
    && (r.terminal.None? && r'.terminal.Some? ==>
          && Justified(cfg, r', r'.terminal.value) && r'.terminal.value.chosen == now
          && !r'.terminal.value.cause.ObservationWindow?)
  }

  lemma ReadyKeepsChoice(cfg: Config, r: Runner, m: Message, stamp: Time, at: Time, read: Read, sendThrew: Option<Code>)
    requires m.Ready? && KeepsChoice(cfg, r, r, at)
    ensures KeepsChoice(cfg, r, OnReady(cfg, r, m, stamp, at, read, sendThrew), at)
  {
    assert !read.Found? ==> !Matches(Some(Identity(m.pid, m.pid, m.pid, Some(m.ticks), true)), Observed(read));
    hide Matches, LeadsItsGroup, AffinityDiffers, ValidStatus, SendLaunch;
    if read.Found? && r.link.protocol.AwaitingReady? {
      LaunchKeepsChoice(cfg, NoteRead(r, read).(child := r.child.(identity := Some(read.identity)),
                                                link := r.link.(protocol := SupervisorReady)), stamp, at, sendThrew);
    }
  }

  lemma LaunchKeepsChoice(cfg: Config, ready: Runner, stamp: Time, at: Time, sendThrew: Option<Code>)
    requires ready.task.exit.None?
    ensures KeepsChoice(cfg, ready, SendLaunch(cfg, ready, stamp, at, sendThrew), at)
  {
    hide ValidStatus;
  }

  lemma StartedKeepsChoice(cfg: Config, r: Runner, m: Message, stamp: Time, at: Time, read: Read)
    requires m.Started? && KeepsChoice(cfg, r, r, at)
    ensures KeepsChoice(cfg, r, OnStarted(cfg, r, m, stamp, at, read), at)
  {
    hide Matches, AffinityDiffers, ValidStatus;
  }

  lemma OverKeepsChoice(cfg: Config, r: Runner, m: Message, stamp: Time, at: Time)
    requires KeepsChoice(cfg, r, r, at)
    ensures m.Exited? ==> KeepsChoice(cfg, r, OnExited(cfg, r, m, stamp, at), at)
    ensures m.Failed? ==> KeepsChoice(cfg, r, OnFailed(cfg, r, m, stamp, at), at)
    ensures m.Fatal? ==> KeepsChoice(cfg, r, OnFatal(r, m, at), at)
  {
    hide ValidStatus;
  }

  lemma MessageKeepsChoice(cfg: Config, r: Runner, sm: Stamped, at: Time, read: Read, sendThrew: Option<Code>)
    requires KeepsChoice(cfg, r, r, at)
    ensures KeepsChoice(cfg, r, OnMessage(cfg, r, sm, at, at, read, sendThrew), at)
  {
    hide OnReady, OnStarted, OnExited, OnFailed, OnFatal, ValidStatus;
    var timed := r.(link := r.link.(lastStamp := Some(sm.stamp)));
    assert KeepsChoice(cfg, timed, timed, at);
    OverKeepsChoice(cfg, timed, sm.message, sm.stamp, at);
    match sm.message
    case Ready(_, _, _) => ReadyKeepsChoice(cfg, timed, sm.message, sm.stamp, at, read, sendThrew);
    case Started(_, _, _) => StartedKeepsChoice(cfg, timed, sm.message, sm.stamp, at, read);
    case _ =>
  }

  lemma ChoiceAfterDelivery(cfg: Config, sys: System, read: Read, sendThrew: Option<Code>)
    requires ChoiceInvariant(cfg, sys) && sys.up != []
    ensures ChoiceInvariant(cfg, OnDeliver(cfg, sys, read, sendThrew))
  {
    hide OnMessage, CheckFails, ReasonOf, ValidStatus;
    MessageKeepsChoice(cfg, sys.r, sys.up[0], sys.now, read, sendThrew);
  }

  lemma SupervisorKeepsRunner(cfg: Config, sys: System, step: Step)
    requires Enabled(cfg, sys, step) && !IsCleanup(step) && !IsRunnerEvent(step) && !step.Deliver?
    ensures Take(cfg, sys, step).r == sys.r && sys.now <= Take(cfg, sys, step).now
  {
    hide AffinityDiffers;
    if step.Receive? { CommandKeepsRunner(sys, step.outcome); }
    hide OnCommand;
  }

  lemma CommandKeepsRunner(sys: System, outcome: LaunchOutcome)
    requires sys.down != []
    ensures OnCommand(sys, outcome).r == sys.r && OnCommand(sys, outcome).now == sys.now
  {
  }

  lemma ChoiceIsKept(cfg: Config, sys: System, sys': System)
    requires ChoiceInvariant(cfg, sys) && sys.now <= sys'.now
    requires sys'.r.task == sys.r.task && sys'.r.link == sys.r.link && sys'.r.terminal == sys.r.terminal
    requires sys'.r.retrying == sys.r.retrying
    ensures ChoiceInvariant(cfg, sys')
  {
    hide ReasonOf, ValidStatus;
  }

  lemma ChoiceStep(cfg: Config, sys: System, step: Step)
    requires ChoiceInvariant(cfg, sys) && Enabled(cfg, sys, step)
    ensures ChoiceInvariant(cfg, Take(cfg, sys, step))
  {
    hide ChoiceInvariant, KeepsChoice;
    if IsCleanup(step) {
      CleanupStep(cfg, sys, step);
      hide Take, Enabled;
      ChoiceIsKept(cfg, sys, Take(cfg, sys, step));
    } else if IsRunnerEvent(step) {
      hide Take, Enabled;
      ChoiceAfterEvent(cfg, sys, step);
    } else if step.Deliver? {
      DeliveryIsTaken(cfg, sys, step);
      hide Take, Enabled;
      ChoiceAfterDelivery(cfg, sys, step.read, step.sendThrew);
    } else {
      SupervisorKeepsRunner(cfg, sys, step);
      hide Take, Enabled;
      ChoiceIsKept(cfg, sys, Take(cfg, sys, step));
    }
  }

  /** In every run the recorded cause is justified. */
  lemma {:induction false} EveryCauseIsJustified(cfg: Config, thrown: Option<Code>, steps: seq<Step>)
    requires IsRun(cfg, Start(cfg, thrown), steps)
    ensures ChoiceInvariant(cfg, After(cfg, Start(cfg, thrown), steps))
    decreases |steps|
  {
    hide Take, Enabled;
    if steps == [] {
      ChoiceStarts(cfg, thrown);
    } else {
      var front := steps[..|steps| - 1];
      EveryCauseIsJustified(cfg, thrown, front);
      ChoiceStep(cfg, After(cfg, Start(cfg, thrown), front), steps[|steps| - 1]);
    }
  }

  /** Once chosen, the terminal cause never changes. */
  lemma ChoiceIsFinal(cfg: Config, sys: System, step: Step)
    requires Enabled(cfg, sys, step) && sys.r.terminal.Some?
    ensures Take(cfg, sys, step).r.terminal == sys.r.terminal
  {
    hide Advances;
    if IsCleanup(step) {
      CleanupStep(cfg, sys, step);
    } else if IsRunnerEvent(step) {
      RunnerEventKeeps(cfg, sys, step);
      hide Take, Enabled;
    } else if step.Deliver? {
      DeliveryIsTaken(cfg, sys, step);
      hide Take, Enabled;
      DeliveryKeepsChoice(cfg, sys, step.read, step.sendThrew);
    } else {
      SupervisorKeepsRunner(cfg, sys, step);
    }
  }

  lemma DeliveryKeepsChoice(cfg: Config, sys: System, read: Read, sendThrew: Option<Code>)
    requires sys.up != [] && sys.r.terminal.Some?
    ensures OnDeliver(cfg, sys, read, sendThrew).r.terminal == sys.r.terminal
  {
    hide OnMessage, CheckFails;
    MessageAdvances(cfg, sys.r, sys.up[0], sys.now, read, sendThrew);
  }

  /** The observation window ends an attempt only by its deadline timer, once the deadline
      has passed, before any exit was processed, and on a live reading of the very workload
      that was bound at its start. */
  lemma WindowEndsOnALiveWorkload(cfg: Config, sys: System, step: Step)
    requires ChoiceInvariant(cfg, sys) && Enabled(cfg, sys, step) && sys.r.terminal.None?
    requires Take(cfg, sys, step).r.terminal.Some? && Take(cfg, sys, step).r.terminal.value.cause.ObservationWindow?
    ensures step.Deadline? && cfg.deadline <= sys.now && sys.r.task.exit.None?
    ensures step.read.Found? && step.read.identity.live && Matches(sys.r.task.identity, Some(step.read.identity))
  {
    hide ChoiceInvariant;
    if IsCleanup(step) {
      CleanupStep(cfg, sys, step);
    } else if step.Deliver? {
      DeliveryIsTaken(cfg, sys, step);
      DeliveryChoosesNoWindow(cfg, sys, step.read, step.sendThrew);
    } else if !IsRunnerEvent(step) {
      SupervisorKeepsRunner(cfg, sys, step);
    } else if step.Deadline? {
      DeadlineWindow(cfg, sys, step.read);
    }
  }

  lemma DeadlineWindow(cfg: Config, sys: System, read: Read)
    requires ChoiceInvariant(cfg, sys) && sys.r.terminal.None?
    ensures var c := OnDeadline(cfg, sys.r, sys.now, sys.now, read, sys.r.retrying).terminal;
      c.Some? && c.value.cause.ObservationWindow? ==>
        && cfg.deadline <= sys.now && sys.r.task.exit.None?
        && read.Found? && read.identity.live && Matches(sys.r.task.identity, Some(read.identity))
  {
    hide ReasonOf, ValidStatus;
  }

  lemma DeliveryChoosesNoWindow(cfg: Config, sys: System, read: Read, sendThrew: Option<Code>)
    requires ChoiceInvariant(cfg, sys) && sys.up != [] && sys.r.terminal.None?
    ensures var c := OnDeliver(cfg, sys, read, sendThrew).r.terminal; c.Some? ==> !c.value.cause.ObservationWindow?
  {
    hide OnMessage, CheckFails, ReasonOf, ValidStatus;
    MessageKeepsChoice(cfg, sys.r, sys.up[0], sys.now, read, sendThrew);
  }
}
