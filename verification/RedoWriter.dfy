/** apply_redo_plan: from an accepted request to a published marker. */
module RedoWriter {
  import opened Text
  import opened RedoPlan
  import opened Artifacts
  import opened RedoNames
  import opened RunConfig
  import opened RunMetadata
  import opened RedoMarker
  import opened BundleTree
  import opened RedoSteps
  import opened RedoRecovery

  const DERIVED: seq<Path> := [["results.json"], ["report.md"], ["privacy-review.txt"], ["manifest.txt"]]

  /** What the shell finds for the open-ended families: each match once, with a safe name. */
  ghost predicate Expanded(globs: Phase -> seq<Path>) {
    forall phase :: Distinct(globs(phase))
      && forall path :: path in globs(phase) ==> Allowed(phase, path) && IsGlobbed(phase, path)
  }

  /** The artifact names the writer looks for. */
  function Names(globs: Phase -> seq<Path>, phase: Phase): seq<Path> { FixedPaths(phase) + globs(phase) }

  lemma NamesAreAllowed(globs: Phase -> seq<Path>, phase: Phase)
    requires Expanded(globs)
    ensures Distinct(Names(globs, phase)) && forall path :: path in Names(globs, phase) ==> Allowed(phase, path)
  {
    hide FixedPaths, Allowed, IsGlobbed;
    FixedPathsAreAllowed(phase);
    forall path | path in FixedPaths(phase) ensures path !in globs(phase) { FixedIsNotGlobbed(phase, path); }
    DistinctConcat(FixedPaths(phase), globs(phase));
  }

  /** A record the writer should write. */
  predicate IsPresent(tree: Tree, plan: seq<Phase>, globs: Phase -> seq<Path>, r: Record) {
    r.path in tree &&
    match r.owner
    case None => IsDerived(r.path)
    case Some(phase) => phase in plan && r.path in Names(globs, phase)
  }

  lemma DerivedListIsExact(path: Path)
    ensures path in DERIVED <==> IsDerived(path)
    ensures Distinct(DERIVED)
  {
    assert "results.json"[2] == 's' && "report.md"[2] == 'p' && "privacy-review.txt"[0] == 'p';
    assert "manifest.txt"[0] == 'm';
    assert DERIVED[0] == ["results.json"] && DERIVED[1] == ["report.md"] && DERIVED[2] == ["privacy-review.txt"]
      && DERIVED[3] == ["manifest.txt"];
  }

  /** redo_record_if_present over one list of names. */
  method RecordPresent(tree: Tree, owner: Option<Phase>, names: seq<Path>) returns (records: Option<seq<Record>>)
    requires Distinct(names)
    ensures records.None? <==> exists path :: path in names && path in tree && !SourceParentIsSafe(tree, path)
    ensures records.Some? ==>
              && Distinct(records.value)
              && forall r :: r in records.value <==> r.owner == owner && r.path in names && r.path in tree
  {
    var found: seq<Record> := [];
    for k := 0 to |names|
      invariant forall i :: 0 <= i < k && names[i] in tree ==> SourceParentIsSafe(tree, names[i])
      invariant Distinct(found)
      invariant forall r :: r in found <==> r.owner == owner && r.path in names[..k] && r.path in tree
    {
      hide SourceParentIsSafe;
      if names[k] in tree {
        if !SourceParentIsSafe(tree, names[k]) { return None; }
        assert Record(owner, names[k]) !in found;
        found := found + [Record(owner, names[k])];
      }
      assert names[..k + 1] == names[..k] + [names[k]];
    }
    assert names[..|names|] == names;
    return Some(found);
  }

  lemma RankedAreDistinct(plan: seq<Phase>)
    requires RankOrdered(plan)
    ensures Distinct(plan)
  {
  }

  lemma DistinctConcat<T>(a: seq<T>, b: seq<T>)
    requires Distinct(a) && Distinct(b) && forall x :: x in a ==> x !in b
    ensures Distinct(a + b)
  {
    forall i, j | 0 <= i < j < |a + b| ensures (a + b)[i] != (a + b)[j] {
      if i < |a| <= j { assert a[i] in a && b[j - |a|] in b; }
    }
  }

  /** Everything the marker records: the derived outputs and, for each planned phase, the
      artifacts that are there. Refused when a parent of one of them is not a directory. */
  method GatherRecords(tree: Tree, plan: seq<Phase>, globs: Phase -> seq<Path>) returns (records: Option<seq<Record>>)
    requires RankOrdered(plan) && Expanded(globs)
    ensures records.None? <==> exists r :: IsPresent(tree, plan, globs, r) && !SourceParentIsSafe(tree, r.path)
    ensures records.Some? ==>
              && RecordsValid(records.value) && OwnersListed(plan, records.value)
              && forall r :: r in records.value <==> IsPresent(tree, plan, globs, r)
  {
    hide Allowed, SourceParentIsSafe, IsDerived, DERIVED, Names, Expanded;
    forall path ensures path in DERIVED <==> IsDerived(path) { DerivedListIsExact(path); }
    assert Distinct(DERIVED) by { DerivedListIsExact([]); }
    RankedAreDistinct(plan);
    var derived := RecordPresent(tree, None, DERIVED);
    if derived.None? {
      var path :| path in DERIVED && path in tree && !SourceParentIsSafe(tree, path);
      assert IsPresent(tree, plan, globs, Record(None, path));
      return None;
    }
    var all := derived.value;
    for k := 0 to |plan|
      invariant Distinct(all)
      invariant forall r :: r in all <==> IsPresent(tree, plan[..k], globs, r)
      invariant forall r :: IsPresent(tree, plan[..k], globs, r) ==> SourceParentIsSafe(tree, r.path)
      invariant forall i, j :: 0 <= i < j < |all| && all[j].owner.None? ==> all[i].owner.None?
    {
      assert plan[..k + 1] == plan[..k] + [plan[k]];
      NamesAreAllowed(globs, plan[k]);
      var more := RecordPresent(tree, Some(plan[k]), Names(globs, plan[k]));
      if more.None? {
        var path :| path in Names(globs, plan[k]) && path in tree && !SourceParentIsSafe(tree, path);
        assert IsPresent(tree, plan, globs, Record(Some(plan[k]), path));
        return None;
      }
      assert plan[k] !in plan[..k];
      DistinctConcat(all, more.value);
      all := all + more.value;
    }
    assert plan[..|plan|] == plan;
    PresentIsValid(tree, plan, globs, all);
    return Some(all);
  }

  lemma PresentIsValid(tree: Tree, plan: seq<Phase>, globs: Phase -> seq<Path>, all: seq<Record>)
    requires Expanded(globs) && forall r :: r in all ==> IsPresent(tree, plan, globs, r)
    ensures forall i :: 0 <= i < |all| ==> RecordValid(all[i])
    ensures OwnersListed(plan, all)
  {
    hide Allowed, IsDerived, Names, Expanded;
    forall i | 0 <= i < |all| ensures RecordValid(all[i]) && (all[i].owner.None? || all[i].owner.value in plan) {
      assert all[i] in all;
      assert IsPresent(tree, plan, globs, all[i]);
      if all[i].owner.Some? { NamesAreAllowed(globs, all[i].owner.value); }
    }
  }

  /** A plan closed under dependency has every phase the validator demands. */
  lemma ClosedPlanIsComplete(plan: seq<Phase>, schema2: bool)
    requires Closed(Members(plan), schema2)
    ensures ClosurePresent(if schema2 then 3 else 2, plan)
  {
    assert Groups in plan ==> Dependents(Groups, schema2) <= Members(plan);
    assert Individual in plan ==> Dependents(Individual, schema2) <= Members(plan);
    assert Preflight in plan ==> Dependents(Preflight, schema2) <= Members(plan);
  }

  /** The supported phases are closed, so a plan never gains an unsupported one. */
  lemma PlanStaysSupported(plan: seq<Phase>, requested: set<Phase>, schema2: bool)
    requires LeastClosed(Members(plan), requested, schema2) && (schema2 || PinnedConcurrent !in requested)
    ensures PinnedConcurrent in plan ==> schema2
  {
    if !schema2 {
      var supported := Members(plan) - {PinnedConcurrent};
      assert Closed(supported, schema2) && requested <= supported;
    }
  }

  /** From an acceptable request and a valid configuration to a
      marker: its text is accepted by the validator and reads back as the version, the
      configuration, the least dependency-closed plan and the artifacts present. */
  method ApplyRedoPlan(request: string, schema2: bool, id: string, values: seq<string>, tree: Tree,
                       globs: Phase -> seq<Path>)
    returns (marker: Option<seq<string>>, ghost t: Transaction)
    requires Expanded(globs) && ValidId(id)
    requires |values| == |Keys(if schema2 then 3 else 2)| && ConfigValid(if schema2 then 3 else 2, values)
    requires PresetConsistent(Keys(if schema2 then 3 else 2), values)
    ensures marker.Some? ==>
              && request != "" && RequestIsAcceptable(request, schema2)
              && ParseMarker(marker.value) == Some(t)
              && t.version == (if schema2 then 3 else 2) && t.id == id && t.values == values
              && RankOrdered(t.phases)
              && LeastClosed(Members(t.phases), Requested(Split(request, ',')), schema2)
              && forall r :: r in t.records <==> IsPresent(tree, t.phases, globs, r)
    ensures marker.None? ==>
              || request == "" || !RequestIsAcceptable(request, schema2)
              || exists plan, r :: RankOrdered(plan)
                   && LeastClosed(Members(plan), Requested(Split(request, ',')), schema2)
                   && IsPresent(tree, plan, globs, r) && !SourceParentIsSafe(tree, r.path)
  {
    hide ParseMarker, WriteMarker, Keys, PresetConsistent, ConfigValid, ValidId, RecordsValid, LeastClosed, Expanded,
         SourceParentIsSafe, IsPresent, OwnersListed;
    t := START.t;
    var plan := BuildRedoPlan(request, schema2);
    if request == "" || plan.None? { return None, t; }
    var records := GatherRecords(tree, plan.value, globs);
    if records.None? { return None, t; }
    var txn := Transaction(if schema2 then 3 else 2, id, values, plan.value, records.value);
    PlanIsValid(txn, request, schema2);
    MarkerAcceptedIff(WriteMarker(txn), txn);
    return Some(WriteMarker(txn)), txn;
  }

  lemma RequestIsNotEmpty(request: string, schema2: bool)
    requires request != "" && RequestIsAcceptable(request, schema2)
    ensures Requested(Split(request, ',')) != {}
    ensures schema2 || PinnedConcurrent !in Requested(Split(request, ','))
  {
    var names := Split(request, ',');
    hide Split, PhaseNamed, Phase.Name;
    var phase := PhaseNamed(names[0]);
    assert phase.value in Requested(names);
  }

  lemma PlanIsValid(t: Transaction, request: string, schema2: bool)
    requires t.version == (if schema2 then 3 else 2) && ValidId(t.id)
    requires |t.values| == |Keys(t.version)| && ConfigValid(t.version, t.values)
    requires PresetConsistent(Keys(t.version), t.values)
    requires request != "" && RequestIsAcceptable(request, schema2)
    requires RankOrdered(t.phases) && LeastClosed(Members(t.phases), Requested(Split(request, ',')), schema2)
    requires RecordsValid(t.records) && OwnersListed(t.phases, t.records)
    ensures Valid(t)
  {
    hide ValidId, Keys, ConfigValid, PresetConsistent, RequestIsAcceptable, Split, Requested, RecordsValid,
         OwnersListed, Dependents;
    RequestIsNotEmpty(request, schema2);
    ClosedPlanIsComplete(t.phases, schema2);
    PlanStaysSupported(t.phases, Requested(Split(request, ',')), schema2);
    assert t.phases == [] ==> Members(t.phases) == {};
  }
}
