/** redo_transaction_execute as it runs: loops over the bundle that can be killed before
    any step. No check inside an accepted run ever fails, and what the run leaves is the
    first steps of the program. */
module RedoRun {
  import opened Text
  import opened RedoPlan
  import opened Artifacts
  import opened RunConfig
  import opened RunMetadata
  import opened RedoMarker
  import opened BundleTree
  import opened RedoSteps
  import opened RedoRecovery
  import opened RedoAuthorization

  datatype Outcome = Refused | Died | Stopped | Completed

  // Where in the program each loop is.

  /** The position of the j-th parent directory of the i-th record. */
  function ParentPosition(t: Transaction, i: nat, j: nat): nat
    requires i <= |t.records|
  {
    2 + |PrepareSteps(t, t.records[..i])| + j
  }

  lemma ParentPositionGrows(t: Transaction, i: nat)
    requires i < |t.records|
    ensures ParentPosition(t, i + 1, 0) == ParentPosition(t, i, |TargetParents(t, t.records[i])|)
  {
    hide TargetParents;
    assert t.records[..i + 1][..i] == t.records[..i];
  }

  lemma {:induction false} PrepareStepAt(t: Transaction, n: nat, i: nat, j: nat)
    requires i < n <= |t.records| && j < |TargetParents(t, t.records[i])|
    ensures |PrepareSteps(t, t.records[..i])| + j < |PrepareSteps(t, t.records[..n])|
    ensures PrepareSteps(t, t.records[..n])[|PrepareSteps(t, t.records[..i])| + j] ==
            MakeDirectory(TargetParents(t, t.records[i])[j])
  {
    hide TargetParents;
    assert t.records[..n][..n - 1] == t.records[..n - 1];
    if i + 1 < n { PrepareStepAt(t, n - 1, i, j); }
  }

  lemma ParentStepAt(t: Transaction, i: nat, j: nat)
    requires i < |t.records| && j < |TargetParents(t, t.records[i])|
    ensures ParentPosition(t, i, j) < |OpeningSteps(t)| <= |Program(t)|
    ensures Program(t)[ParentPosition(t, i, j)] == MakeDirectory(TargetParents(t, t.records[i])[j])
  {
    assert t.records[..|t.records|] == t.records;
    PrepareStepAt(t, |t.records|, i, j);
    hide PrepareSteps, TargetParents, InvalidateSteps, ArchiveSteps;
  }

  lemma OpeningLength(t: Transaction)
    ensures ParentPosition(t, 0, 0) == 2 && ParentPosition(t, |t.records|, 0) == |OpeningSteps(t)|
    ensures |Program(t)| == |OpeningSteps(t)| + |t.phases| + |t.records| + 2
    ensures |OpeningSteps(t)| >= 2
    ensures Program(t)[0] == MakeDirectory(SUPERSEDED) && Program(t)[1] == MakeDirectory(Stash(t))
    ensures Program(t)[|Program(t)| - 2] == PublishMeta && Program(t)[|Program(t)| - 1] == Remove(PENDING)
  {
    assert t.records[..|t.records|] == t.records;
    hide PrepareSteps, TargetParents;
  }

  lemma MarkerStepAt(t: Transaction, i: nat)
    requires i < |t.phases|
    ensures |OpeningSteps(t)| + i < |Program(t)|
    ensures Program(t)[|OpeningSteps(t)| + i] == Remove(MarkerOf(t.phases[i]))
  {
    hide OpeningSteps, MarkerOf;
    assert InvalidateSteps(t.phases)[i] == Remove(MarkerOf(t.phases[i]));
  }

  lemma ArchiveStepPosition(t: Transaction, i: nat)
    requires i < |t.records|
    ensures |OpeningSteps(t)| + |t.phases| + i < |Program(t)|
    ensures Program(t)[|OpeningSteps(t)| + |t.phases| + i] == Archive(t.records[i].path, Target(t, t.records[i]))
  {
    hide OpeningSteps, Target;
    assert ArchiveSteps(t, t.records)[i] == Archive(t.records[i].path, Target(t, t.records[i]));
  }

  // Every check of an accepted run holds in whatever state it reaches.

  ghost predicate Started(job: Job, start: Tree) {
    WellFormed(job) && Recoverable(job.txn, start) && Interrupted(job.txn, start, start)
  }

  lemma ChecksHold(job: Job, start: Tree, k: nat, r: Record)
    requires Started(job, start) && k <= |Program(job.txn)| && r in job.txn.records
    ensures SourceParentIsSafe(Killed(job, k, start), r.path)
    ensures PairIsRecoverable(job.txn, Killed(job, k, start), r)
    ensures ArchiveIsClear(job.txn, Killed(job, k, start))
  {
    hide Program, Killed, Valid, Target, TargetParents, Touched, Preserved;
    KilledIsInterrupted(job, start, k);
    InterruptedIsRecoverable(job.txn, start, Killed(job, k, start));
  }

  lemma RootsAreClear(job: Job, start: Tree, k: nat)
    requires Started(job, start) && k <= |Program(job.txn)|
    ensures AbsentOrDirectory(Killed(job, k, start), SUPERSEDED)
    ensures AbsentOrDirectory(Killed(job, k, start), Stash(job.txn))
  {
    hide Program, Killed, Valid, Target, TargetParents, Touched, Preserved;
    KilledIsInterrupted(job, start, k);
    InterruptedIsRecoverable(job.txn, start, Killed(job, k, start));
  }

  lemma ParentIsArchiveDirectory(t: Transaction, r: Record, j: nat)
    requires r in t.records && j < |TargetParents(t, r)|
    ensures IsArchiveDirectory(t, TargetParents(t, r)[j])
  {
    var relative := [Bucket(r)] + r.path;
    assert Target(t, r) == Stash(t) + relative;
    assert Stash(t) + relative[..j + 1] == Target(t, r)[..3 + j + 1];
  }

  lemma ParentStaysMade(job: Job, start: Tree, k: nat, i: nat, j: nat)
    requires Started(job, start) && |OpeningSteps(job.txn)| <= k <= |Program(job.txn)|
    requires i < |job.txn.records| && j < |TargetParents(job.txn, job.txn.records[i])|
    ensures IsDirectory(Killed(job, k, start), TargetParents(job.txn, job.txn.records[i])[j])
  {
    var t := job.txn;
    ParentStepAt(t, i, j);
    ParentIsArchiveDirectory(t, t.records[i], j);
    ProgramIsCompatible(t);
    ChecksHold(job, start, k, t.records[i]);
    hide Program, Valid, Target, TargetParents, OpeningSteps, Run, PairwiseCompatible, IsArchiveDirectory;
    PrefixIsSettled(job, Program(t), k, ParentPosition(t, i, j), start);
  }

  /** How far a part of the execution got: to its end, or as far as its budget lasted. */
  ghost predicate Reached(job: Job, start: Tree, tree: Tree, first: nat, end: nat, budget: nat, left: nat, alive: bool)
    requires Total(job.globals) && first <= end <= |Program(job.txn)|
  {
    if budget < end - first then !alive && tree == Killed(job, first + budget, start)
    else alive && left == budget - (end - first) && tree == Killed(job, end, start)
  }

  class Bundle {
    var tree: Tree

    constructor (tree: Tree)
      ensures this.tree == tree
    {
      this.tree := tree;
    }

    method MakeDirectoryAt(job: Job, p: Path) returns (ok: bool)
      requires Total(job.globals)
      modifies this
      ensures ok == AbsentOrDirectory(old(tree), p)
      ensures tree == if ok then Apply(job, MakeDirectory(p), old(tree)) else old(tree)
    {
      if p in tree {
        ok := tree[p].Directory?;
      } else {
        tree := tree[p := Directory];
        ok := true;
      }
    }

    /** The archive root, the stash and the parents of every target, each pair checked. */
    method PrepareArchive(job: Job, budget: nat) returns (ok: bool, alive: bool, left: nat)
      requires Started(job, tree)
      modifies this
      ensures |OpeningSteps(job.txn)| <= |Program(job.txn)|
      ensures ok && Reached(job, old(tree), tree, 0, |OpeningSteps(job.txn)|, budget, left, alive)
    {
      hide Started, Program, Killed, OpeningSteps, Apply, TargetParents, SourceParentIsSafe, PairIsRecoverable,
           PrepareSteps, ArchiveIsClear;
      var t := job.txn;
      ghost var start := tree;
      left := budget;
      assert Total(job.globals) by { StartedParts(job, start); }
      OpeningLength(t);
      NoKill(job, start);
      if left == 0 { return true, false, 0; }
      RootsAreClear(job, start, 0);
      NextKill(job, 0, start);
      ok := MakeDirectoryAt(job, SUPERSEDED);
      left := left - 1;
      if !ok { return false, true, left; }
      if left == 0 { return true, false, 0; }
      RootsAreClear(job, start, 1);
      NextKill(job, 1, start);
      ok := MakeDirectoryAt(job, Stash(t));
      left := left - 1;
      if !ok { return false, true, left; }
      for i := 0 to |t.records|
        invariant ok && left == budget - ParentPosition(t, i, 0)
        invariant ParentPosition(t, i, 0) <= |OpeningSteps(t)|
        invariant tree == Killed(job, ParentPosition(t, i, 0), start)
      {
        ChecksHold(job, start, ParentPosition(t, i, 0), t.records[i]);
        if !SourceParentIsSafe(tree, t.records[i].path) { return false, true, left; }
        ok, alive, left := PrepareParents(job, start, i, left);
        if !ok || !alive { return ok, alive, left; }
        ParentPositionGrows(t, i);
        ChecksHold(job, start, ParentPosition(t, i + 1, 0), t.records[i]);
        if !PairIsRecoverable(t, tree, t.records[i]) { return false, true, left; }
      }
      return true, true, left;
    }

    /** redo_ensure_destination_parent for one record. */
    method PrepareParents(job: Job, ghost start: Tree, i: nat, budget: nat) returns (ok: bool, alive: bool, left: nat)
      requires Total(job.globals) && Started(job, start) && i < |job.txn.records|
      requires ParentPosition(job.txn, i, 0) <= |Program(job.txn)|
      requires tree == Killed(job, ParentPosition(job.txn, i, 0), start)
      modifies this
      ensures ParentPosition(job.txn, i, 0) <= ParentPosition(job.txn, i + 1, 0) <= |OpeningSteps(job.txn)|
      ensures |OpeningSteps(job.txn)| <= |Program(job.txn)|
      ensures ok && Reached(job, start, tree, ParentPosition(job.txn, i, 0), ParentPosition(job.txn, i + 1, 0),
                            budget, left, alive)
    {
      hide Started, Program, Killed, OpeningSteps, Apply, TargetParents, ArchiveIsClear, IsArchiveDirectory,
           PrepareSteps;
      var t := job.txn;
      ParentPositionGrows(t, i);
      OpeningLength(t);
      PositionIsInside(t, i + 1);
      var dirs := TargetParents(t, t.records[i]);
      left := budget;
      for j := 0 to |dirs|
        invariant left == budget - j && j <= budget
        invariant tree == Killed(job, ParentPosition(t, i, j), start)
      {
        if left == 0 { return true, false, 0; }
        var k := ParentPosition(t, i, j);
        ParentStepAt(t, i, j);
        NextKill(job, k, start);
        DirectoryIsClear(job, start, k, i, j);
        ok := MakeDirectoryAt(job, dirs[j]);
        left := left - 1;
        if !ok { return false, true, left; }
      }
      return true, true, left;
    }

    /** Remove the phase markers of the transaction. */
    method InvalidatePhases(job: Job, ghost start: Tree, budget: nat) returns (alive: bool, left: nat)
      requires Total(job.globals) && |OpeningSteps(job.txn)| <= |Program(job.txn)|
      requires tree == Killed(job, |OpeningSteps(job.txn)|, start)
      modifies this
      ensures |OpeningSteps(job.txn)| + |job.txn.phases| <= |Program(job.txn)|
      ensures Reached(job, start, tree, |OpeningSteps(job.txn)|, |OpeningSteps(job.txn)| + |job.txn.phases|,
                      budget, left, alive)
    {
      hide Program, Killed, OpeningSteps, MarkerOf;
      var t := job.txn;
      OpeningLength(t);
      left := budget;
      for i := 0 to |t.phases|
        invariant left == budget - i && i <= budget
        invariant tree == Killed(job, |OpeningSteps(t)| + i, start)
      {
        if left == 0 { return false, 0; }
        MarkerStepAt(t, i);
        NextKill(job, |OpeningSteps(t)| + i, start);
        tree := tree - {MarkerOf(t.phases[i])};
        left := left - 1;
      }
      return true, left;
    }

    /** The parents of a target, made before the first move, are found in place. */
    method RecheckParents(job: Job, dirs: seq<Path>) returns (ok: bool)
      requires Total(job.globals) && forall j :: 0 <= j < |dirs| ==> IsDirectory(tree, dirs[j])
      modifies this
      ensures ok && tree == old(tree)
    {
      ok := true;
      for j := 0 to |dirs|
        invariant ok && tree == old(tree)
      {
        ok := MakeDirectoryAt(job, dirs[j]);
        if !ok { return; }
      }
    }

    /** Move every record that is still at its source. */
    method ArchiveRecords(job: Job, ghost start: Tree, budget: nat) returns (ok: bool, alive: bool, left: nat)
      requires Started(job, start) && |OpeningSteps(job.txn)| + |job.txn.phases| <= |Program(job.txn)|
      requires tree == Killed(job, |OpeningSteps(job.txn)| + |job.txn.phases|, start)
      modifies this
      ensures |OpeningSteps(job.txn)| + |job.txn.phases| + |job.txn.records| <= |Program(job.txn)|
      ensures ok && Reached(job, start, tree, |OpeningSteps(job.txn)| + |job.txn.phases|,
                            |OpeningSteps(job.txn)| + |job.txn.phases| + |job.txn.records|, budget, left, alive)
    {
      hide Started, Program, Killed, OpeningSteps, Target, TargetParents, ArchiveIsClear, SourceParentIsSafe, Move;
      var t := job.txn;
      var first := |OpeningSteps(t)| + |t.phases|;
      assert Total(job.globals) by { StartedParts(job, start); }
      OpeningLength(t);
      left := budget;
      for i := 0 to |t.records|
        invariant left == budget - i && i <= budget
        invariant tree == Killed(job, first + i, start)
      {
        if left == 0 { return true, false, 0; }
        var r := t.records[i];
        var sourceExists, targetExists := r.path in tree, Target(t, r) in tree;
        ChecksHold(job, start, first + i, r);
        ArchiveStepPosition(t, i);
        NextKill(job, first + i, start);
        if sourceExists && !targetExists {
          forall j | 0 <= j < |TargetParents(t, r)| ensures IsDirectory(tree, TargetParents(t, r)[j]) {
            ParentStaysMade(job, start, first + i, i, j);
          }
          ok := RecheckParents(job, TargetParents(t, r));
          if !ok { return false, true, left; }
          tree := Move(tree, r.path, Target(t, r));
        } else if !sourceExists && targetExists {
        } else if !PairIsRecoverable(t, tree, r) {
          return false, true, left;
        }
        left := left - 1;
      }
      return true, true, left;
    }

    /** Publish the metadata and drop the marker. */
    method Finish(job: Job, ghost start: Tree, budget: nat) returns (alive: bool, left: nat)
      requires Total(job.globals) && |Program(job.txn)| >= 2
      requires tree == Killed(job, |Program(job.txn)| - 2, start) && META in tree && tree[META].File?
      modifies this
      ensures Reached(job, start, tree, |Program(job.txn)| - 2, |Program(job.txn)|, budget, left, alive)
    {
      hide Program, Killed, Rewrite, CompletedValue;
      OpeningLength(job.txn);
      if budget == 0 { return false, 0; }
      NextKill(job, |Program(job.txn)| - 2, start);
      var lines := RewriteMetaAtomic(tree[META].lines, NewConfig(job.txn, job.globals),
                                     CompletedValue(tree, job.Schema2()));
      tree := tree[META := File(lines)];
      if budget == 1 { return false, 0; }
      NextKill(job, |Program(job.txn)| - 1, start);
      tree := tree - {PENDING};
      return true, budget - 2;
    }

    /** An accepted execution, killed after budget steps or finished: no check fails. */
    method ExecuteAccepted(job: Job, budget: nat) returns (outcome: Outcome)
      requires WellFormed(job) && Started(job, tree) && META in tree && tree[META].File?
      modifies this
      ensures outcome == if budget < |Program(job.txn)| then Stopped else Completed
      ensures tree == Killed(job, if budget < |Program(job.txn)| then budget else |Program(job.txn)|, old(tree))
    {
      hide Started, Program, Killed, OpeningSteps, Reached, Valid;
      var t := job.txn;
      ghost var start := tree;
      OpeningLength(t);
      var ok, alive, left := PrepareArchive(job, budget);
      ReachedParts(job, start, tree, 0, |OpeningSteps(t)|, budget, left, alive);
      if !ok { return Died; }
      if !alive { return Stopped; }
      ghost var was := left;
      alive, left := InvalidatePhases(job, start, left);
      ReachedParts(job, start, tree, |OpeningSteps(t)|, |OpeningSteps(t)| + |t.phases|, was, left, alive);
      if !alive { return Stopped; }
      was := left;
      ok, alive, left := ArchiveRecords(job, start, left);
      ReachedParts(job, start, tree, |OpeningSteps(t)| + |t.phases|, |Program(t)| - 2, was, left, alive);
      if !ok { return Died; }
      if !alive { return Stopped; }
      MetaIsThere(job, start);
      was := left;
      alive, left := Finish(job, start, left);
      ReachedParts(job, start, tree, |Program(t)| - 2, |Program(t)|, was, left, alive);
      return if alive then Completed else Stopped;
    }

    /** One process: read the marker, check, execute until done or killed after budget
        steps. The decision and the resulting bundle are exactly the model's. */
    method Execute(globals: Config, readers: Readers, budget: nat) returns (outcome: Outcome)
      requires Total(globals) && Rooted(tree) && META in tree && tree[META].File?
      modifies this
      ensures outcome != Died && (outcome == Refused ==> tree == old(tree))
      ensures outcome != Refused ==> MarkedFor(old(tree)).Some?
      ensures MarkedFor(old(tree)).Some? ==>
                var job := Job(MarkedFor(old(tree)).value, globals);
                var n := |Program(job.txn)|;
                && (outcome == Refused <==> !Accepts(job, readers, old(tree)))
                && (outcome != Refused ==>
                      && outcome == (if budget < n then Stopped else Completed)
                      && tree == Killed(job, if budget < n then budget else n, old(tree)))
    {
      hide Started, Program, Killed, ParseMarker, Authorized, Recoverable, Rooted, WellFormed;
      if PENDING !in tree || !tree[PENDING].File? { return Refused; }
      var parsed := ValidateMarker(tree[PENDING].lines);
      if parsed.None? { return Refused; }
      var job := Job(parsed.value, globals);
      if !Authorized(job, readers, tree) || !Recoverable(job.txn, tree) { return Refused; }
      AcceptedStarts(job, tree);
      outcome := ExecuteAccepted(job, budget);
    }
  }

  /** The transaction of a readable pending marker. */
  function MarkedFor(tree: Tree): Option<Transaction> {
    if PENDING in tree && tree[PENDING].File? then ParseMarker(tree[PENDING].lines) else None
  }

  lemma ReachedParts(job: Job, start: Tree, tree: Tree, first: nat, end: nat, budget: nat, left: nat, alive: bool)
    requires Total(job.globals) && first <= end <= |Program(job.txn)|
    ensures Reached(job, start, tree, first, end, budget, left, alive) ==>
              && (alive <==> budget >= end - first)
              && (alive ==> left == budget - (end - first) && tree == Killed(job, end, start))
              && (!alive ==> tree == Killed(job, first + budget, start))
  {
    hide Program, Killed;
  }

  lemma AcceptedStarts(job: Job, start: Tree)
    requires Total(job.globals) && Rooted(start) && Recoverable(job.txn, start)
    requires PENDING in start && start[PENDING].File? && ParseMarker(start[PENDING].lines) == Some(job.txn)
    ensures Started(job, start) && WellFormed(job)
  {
    hide ParseMarker, Recoverable, Rooted, Interrupted, Valid;
    MarkerAcceptedIff(start[PENDING].lines, job.txn);
    ValidParts(job.txn);
    RecoverableStarts(job.txn, start);
  }

  lemma MetaIsThere(job: Job, start: Tree)
    requires WellFormed(job) && META in start && start[META].File?
    ensures |Program(job.txn)| >= 2
    ensures At(Killed(job, |Program(job.txn)| - 2, start), META) == At(start, META)
  {
    hide Program, Killed, EvidenceSteps, Valid;
    ProgramLength(job.txn);
    FilesUntilPublication(job, start, |EvidenceSteps(job.txn)|, META);
  }

  lemma StartedParts(job: Job, start: Tree)
    requires Started(job, start)
    ensures Total(job.globals)
  {
    hide Valid, Recoverable, Interrupted;
  }

  lemma PositionIsInside(t: Transaction, i: nat)
    requires i <= |t.records|
    ensures ParentPosition(t, i, 0) <= |OpeningSteps(t)|
  {
    hide TargetParents;
    assert t.records[..|t.records|] == t.records;
    PrepareStepsGrow(t, i, |t.records|);
  }

  lemma {:induction false} PrepareStepsGrow(t: Transaction, i: nat, n: nat)
    requires i <= n <= |t.records|
    ensures |PrepareSteps(t, t.records[..i])| <= |PrepareSteps(t, t.records[..n])|
  {
    hide TargetParents;
    if i < n {
      assert t.records[..n][..n - 1] == t.records[..n - 1];
      PrepareStepsGrow(t, i, n - 1);
    }
  }

  lemma DirectoryIsClear(job: Job, start: Tree, k: nat, i: nat, j: nat)
    requires Started(job, start) && k <= |Program(job.txn)|
    requires i < |job.txn.records| && j < |TargetParents(job.txn, job.txn.records[i])|
    ensures Total(job.globals)
    ensures AbsentOrDirectory(Killed(job, k, start), TargetParents(job.txn, job.txn.records[i])[j])
  {
    ChecksHold(job, start, k, job.txn.records[i]);
    hide Program, Killed, TargetParents, IsArchiveDirectory, Recoverable, Interrupted, Valid;
    ParentIsArchiveDirectory(job.txn, job.txn.records[i], j);
  }
}
