/** What main does to a bundle before it recovers a pending redo, and two concrete bundles
    whose interrupted redo is refused. */
module RedoEntry {
  import opened Text
  import opened RedoPlan
  import opened Artifacts
  import opened RunConfig
  import opened RunMetadata
  import opened RedoMarker
  import opened BundleTree
  import opened RedoSteps
  import opened RedoRecovery
  import opened RedoAuthorization
  import opened RedoTheorems

  /** The directories main makes before recovery. */
  const PREPARED: set<Path> :=
    {["results"], ["logs"], ["state"], ["env"], ["freq"], ["gdb"], ["logs", "individual"]}

  function WithDirectories(tree: Tree): Tree {
    map p | p in tree.Keys + PREPARED :: if p in tree then tree[p] else Directory
  }

  lemma PreparationKeeps(tree: Tree, p: Path)
    ensures p !in PREPARED || p in tree ==> At(WithDirectories(tree), p) == At(tree, p)
    ensures p in PREPARED ==> p in WithDirectories(tree)
  {
  }

  lemma JournalPathsAreNotPrepared(p: Path)
    requires SUPERSEDED <= p || p == ["manifest.txt"]
    ensures p !in PREPARED
  {
    assert "superseded"[0] == 's' && "individual"[0] == 'i' && "manifest.txt"[0] == 'm';
    assert SUPERSEDED <= p ==> |p| >= 2 && p[1] == "superseded";
  }

  lemma ParentIsInside(t: Transaction, r: Record, i: nat)
    requires i < |[Stash(t)] + TargetParents(t, r)|
    ensures SUPERSEDED <= ([Stash(t)] + TargetParents(t, r))[i]
  {
  }

  lemma {:induction false} SafetyIsLocal(tree: Tree, tree': Tree, dirs: seq<Path>)
    requires forall i :: 0 <= i < |dirs| ==> At(tree, dirs[i]) == At(tree', dirs[i])
    ensures ParentsAreSafe(tree, dirs) == ParentsAreSafe(tree', dirs)
  {
    if dirs != [] {
      assert At(tree, dirs[0]) == At(tree', dirs[0]);
      SafetyIsLocal(tree, tree', dirs[1..]);
    }
  }

  lemma PreparedPair(t: Transaction, tree: Tree, r: Record)
    requires PairIsRecoverable(t, tree, r)
    ensures PairIsRecoverable(t, WithDirectories(tree), r) <==> (r.path in PREPARED ==> r.path in tree)
  {
    hide Target, WithDirectories;
    assert SUPERSEDED <= Target(t, r) by { TargetIsInside(t, r); }
    JournalPathsAreNotPrepared(Target(t, r));
    JournalPathsAreNotPrepared(["manifest.txt"]);
    PreparationKeeps(tree, Target(t, r));
    PreparationKeeps(tree, r.path);
    assert At(WithDirectories(tree), Target(t, r)) == At(tree, Target(t, r));
  }

  lemma TargetIsInside(t: Transaction, r: Record)
    ensures SUPERSEDED <= Target(t, r)
  {
  }

  lemma PreparationKeepsParents(t: Transaction, tree: Tree, r: Record)
    requires SourceParentIsSafe(tree, r.path) && ParentsAreSafe(tree, [Stash(t)] + TargetParents(t, r))
    ensures SourceParentIsSafe(WithDirectories(tree), r.path)
    ensures ParentsAreSafe(WithDirectories(tree), [Stash(t)] + TargetParents(t, r))
  {
    hide Stash, TargetParents, WithDirectories;
    forall n | 0 < n < |r.path| ensures IsDirectory(WithDirectories(tree), r.path[..n]) {
      PreparationKeeps(tree, r.path[..n]);
      assert IsDirectory(tree, r.path[..n]);
    }
    var dirs := [Stash(t)] + TargetParents(t, r);
    forall i | 0 <= i < |dirs| ensures At(tree, dirs[i]) == At(WithDirectories(tree), dirs[i]) {
      ParentIsInside(t, r, i);
      JournalPathsAreNotPrepared(dirs[i]);
      PreparationKeeps(tree, dirs[i]);
    }
    SafetyIsLocal(tree, WithDirectories(tree), dirs);
  }

  /** Preparing the directories blocks the recovery exactly when it brings back a recorded
      path that the interrupted run had already archived. */
  lemma PreparationBlocksRecoveryIff(t: Transaction, tree: Tree)
    requires Recoverable(t, tree)
    ensures Recoverable(t, WithDirectories(tree)) <==>
            forall r :: r in t.records && r.path in PREPARED ==> r.path in tree
  {
    JournalPathsAreNotPrepared(SUPERSEDED);
    JournalPathsAreNotPrepared(Stash(t));
    PreparationKeeps(tree, SUPERSEDED);
    PreparationKeeps(tree, Stash(t));
    hide Stash, Target, TargetParents, WithDirectories, SourceParentIsSafe, ParentsAreSafe, PairIsRecoverable;
    forall i | 0 <= i < |t.records|
      ensures SourceParentIsSafe(WithDirectories(tree), t.records[i].path)
      ensures ParentsAreSafe(WithDirectories(tree), [Stash(t)] + TargetParents(t, t.records[i]))
      ensures PairIsRecoverable(t, WithDirectories(tree), t.records[i]) <==>
              (t.records[i].path in PREPARED ==> t.records[i].path in tree)
    {
      PreparationKeepsParents(t, tree, t.records[i]);
      PreparedPair(t, tree, t.records[i]);
    }
  }

  /** Revoking the readiness token, which every run does first, never blocks a recovery. */
  lemma RevocationKeepsRecoverable(t: Transaction, tree: Tree)
    requires RecordsValid(t.records) && Recoverable(t, tree)
    ensures Recoverable(t, tree - {["manifest.txt"]})
  {
    var token: Path := ["manifest.txt"];
    var after := tree - {token};
    hide Stash, Target, TargetParents, RecordValid;
    forall r | r in t.records
      ensures SourceParentIsSafe(after, r.path)
      ensures ParentsAreSafe(after, [Stash(t)] + TargetParents(t, r))
      ensures PairIsRecoverable(t, after, r)
    {
      var dirs := [Stash(t)] + TargetParents(t, r);
      forall i | 0 <= i < |dirs| ensures At(tree, dirs[i]) == At(after, dirs[i]) {
        ParentIsInside(t, r, i);
        InsideIsNotToken(dirs[i]);
      }
      SafetyIsLocal(tree, after, dirs);
      TargetIsInside(t, r);
      InsideIsNotToken(Target(t, r));
      RevokedSource(r, tree);
      assert PairIsRecoverable(t, tree, r);
    }
    StashIsInside(t);
    InsideIsNotToken(SUPERSEDED);
    InsideIsNotToken(Stash(t));
  }

  lemma StashIsInside(t: Transaction)
    ensures SUPERSEDED <= Stash(t)
  {
  }

  lemma InsideIsNotToken(p: Path)
    requires SUPERSEDED <= p
    ensures p != ["manifest.txt"]
  {
  }

  lemma RevokedSource(r: Record, tree: Tree)
    requires RecordValid(r) && SourceParentIsSafe(tree, r.path)
    ensures SourceParentIsSafe(tree - {["manifest.txt"]}, r.path)
    ensures r.path == ["manifest.txt"] ==> IsLegacyToken(r)
  {
    RecordShape(r);
    assert "manifest.txt" != "gdb" && IsDerived(["manifest.txt"]);
    DerivedIsNotOwned();
    if |r.path| == 2 {
      RecordedParentIsNotToken(r);
      assert IsDirectory(tree, r.path[..1]);
    }
  }

  lemma RecordedParentIsNotToken(r: Record)
    requires RecordValid(r) && |r.path| == 2
    ensures r.path[..1] != ["manifest.txt"]
  {
    assert "manifest.txt"[0] == 'm' && r.owner.Some?;
    hide ResultOwner, StateOwner, FreqOwner, DirectoryOwner;
    assert r.path[0] == "results" || r.path[0] == "env" || r.path[0] == "logs" || r.path[0] == "telemetry"
      || r.path[0] == "freq" || r.path[0] == "state";
    assert r.path[..1][0] == r.path[0];
    assert "manifest.txt" != "results" && "manifest.txt" != "env" && "manifest.txt" != "logs";
  }
}
