/** The acceptor for attempt results (attempt-evidence.mjs), written without reference to how
    the runner computes them. */
module AttemptEvidence {
  import opened Text
  import opened AttemptRunner

  predicate AcceptsBoundary(b: Boundary) {
    && b.start <= b.chosen <= b.finished
    && (b.started.Some? ==> b.start <= b.started.value <= b.finished)
  }

  predicate AcceptsSupervisor(i: Option<Identity>) {
    i.Some? ==> i.value.pid > 1 && LeadsItsGroup(i.value) && i.value.ticks.Some?
  }

  predicate AcceptsProcess(r: Result) {
    && AcceptsSupervisor(r.supervisor) && (r.workload.Some? ==> r.workload.value.pid > 1)
    && r.boundary.started.None? == r.workload.None?
  }

  predicate AcceptsAction(a: Action, b: Boundary) {
    if !a.attempted then !a.delivered && a.mode.None? && a.error.None? && a.at.None?
    else (a.delivered ==> a.mode.Some?) && a.at.Some? && b.chosen <= a.at.value <= b.finished
  }

  predicate AcceptsGrace(term: Action, kill: Action, grace: nat) {
    term.attempted && kill.attempted && term.at.Some? && kill.at.Some? ==> kill.at.value - term.at.value >= grace
  }

  predicate AcceptsStatus(s: Option<Status>) { s.Some? ==> ValidStatus(s.value) }

  function ReasonForCause(c: Cause): string {
    match c
    case NaturalExit => "natural-exit"
    case ObservationWindow => "observation-window-elapsed"
    case ExternalCancel => "external-cancel"
    case LaunchFailure => "launch-error"
    case TerminalRace => "terminal-race-unresolved"
  }

  predicate AcceptsRawStatus(r: Result) {
    match r.cleanup.cause
    case NaturalExit => ValidStatus(r.status) && r.launchError.None? && r.cleanup.postTerminal.None?
    case LaunchFailure => r.status == NO_STATUS && r.launchError.Some?
    case _ => r.status == NO_STATUS && r.launchError.None?
  }

  predicate AcceptsCompletion(r: Result) {
    r.cleanupComplete && r.supervisor.Some? ==>
      && r.cleanup.supervisorStatus.Some?
      && if r.cleanup.kill.delivered then r.cleanup.supervisorStatus == Some(Status(None, Some(SigKill)))
         else r.cleanup.shutdownRequested && r.cleanup.supervisorStatus == Some(Status(Some(0), None))
  }

  predicate AcceptsCleanup(r: Result, grace: nat) {
    var c := r.cleanup;
    && AcceptsAction(c.term, r.boundary) && AcceptsAction(c.kill, r.boundary) && AcceptsGrace(c.term, c.kill, grace)
    && AcceptsStatus(c.postTerminal) && AcceptsStatus(c.supervisorStatus)
    && (r.supervisor.Some? || c.supervisorStatus.None?)
    && (if r.cleanupComplete then c.groupDrained && c.outputDrained && c.failure.None? else c.failure.Some?)
    && r.reason == ReasonForCause(c.cause) && AcceptsRawStatus(r) && AcceptsCompletion(r)
  }

  predicate AcceptsStreams(r: Result) {
    r.cleanup.outputDrained == (r.out.Complete() && r.err.Complete())
  }

  /** parseAttemptEvidence, without the workload binding and the stream contents. */
  predicate Acceptable(r: Result, grace: nat) {
    AcceptsBoundary(r.boundary) && AcceptsProcess(r) && AcceptsCleanup(r, grace) && AcceptsStreams(r)
  }
}
