/** The phases a redo can name and the dependency closure of a request
    (build_redo_plan in diagnose.sh). */
module RedoPlan {
  import opened Text

  datatype Phase = Preflight | Baseline | Groups | Individual | PinnedConcurrent | Frequency | Gdb
  {
    function Name(): string {
      match this
      case Preflight => "preflight"
      case Baseline => "baseline"
      case Groups => "groups"
      case Individual => "individual"
      case PinnedConcurrent => "pinned-concurrent"
      case Frequency => "frequency"
      case Gdb => "gdb"
    }

    function Rank(): nat {
      match this
      case Preflight => 1
      case Baseline => 2
      case Groups => 3
      case Individual => 4
      case PinnedConcurrent => 5
      case Frequency => 6
      case Gdb => 7
    }
  }

  const RANKED: seq<Phase> :=
    [Preflight, Baseline, Groups, Individual, PinnedConcurrent, Frequency, Gdb]

  function PhaseNamed(name: string): (r: Option<Phase>)
    ensures r.Some? ==> r.value.Name() == name
    ensures r.None? ==> forall p: Phase :: p.Name() != name
  {
    if name == "preflight" then Some(Preflight)
    else if name == "baseline" then Some(Baseline)
    else if name == "groups" then Some(Groups)
    else if name == "individual" then Some(Individual)
    else if name == "pinned-concurrent" then Some(PinnedConcurrent)
    else if name == "frequency" then Some(Frequency)
    else if name == "gdb" then Some(Gdb)
    else None
  }

  /** The phases whose evidence a fresh run of p makes stale. */
  function Dependents(p: Phase, schema2: bool): set<Phase> {
    var pinned := if schema2 then {PinnedConcurrent} else {};
    match p
    case Preflight => {Baseline, Groups, Individual, Frequency, Gdb} + pinned
    case Groups => {Individual} + pinned
    case Individual => {Frequency, Gdb}
    case _ => {}
  }

  ghost predicate Closed(s: set<Phase>, schema2: bool) {
    forall p :: p in s ==> Dependents(p, schema2) <= s
  }

  ghost predicate RankOrdered(phases: seq<Phase>) {
    forall i, j :: 0 <= i < j < |phases| ==> phases[i].Rank() < phases[j].Rank()
  }

  ghost function Members(phases: seq<Phase>): set<Phase> {
    set p: Phase | p in phases
  }

  /** The phases a comma-separated request names. */
  ghost function Requested(names: seq<string>): set<Phase> {
    set p: Phase | p.Name() in names
  }

  ghost predicate Distinct<T>(s: seq<T>) {
    forall i, j :: 0 <= i < j < |s| ==> s[i] != s[j]
  }

  ghost predicate RequestIsAcceptable(request: string, schema2: bool) {
    request == "" ||
    var names := Split(request, ',');
    && Distinct(names)
    && (forall i :: 0 <= i < |names| ==> PhaseNamed(names[i]).Some?)
    && (schema2 || PinnedConcurrent.Name() !in names)
  }

  ghost predicate LeastClosed(s: set<Phase>, requested: set<Phase>, schema2: bool) {
    && requested <= s && Closed(s, schema2)
    && forall c: set<Phase> :: requested <= c && Closed(c, schema2) ==> s <= c
  }

  /** The requested names, rejected when one is unknown, repeated or unavailable. */
  method ReadRequest(names: seq<string>, schema2: bool) returns (wanted: Option<set<Phase>>)
    ensures wanted.Some? <==>
              && Distinct(names)
              && (forall i :: 0 <= i < |names| ==> PhaseNamed(names[i]).Some?)
              && (schema2 || PinnedConcurrent.Name() !in names)
    ensures wanted.Some? ==> wanted.value == Requested(names)
  {
    var seen: set<Phase> := {};
    for k := 0 to |names|
      invariant Distinct(names[..k])
      invariant forall i :: 0 <= i < k ==> PhaseNamed(names[i]).Some?
      invariant forall p: Phase :: p in seen <==> p.Name() in names[..k]
    {
      var phase := PhaseNamed(names[k]);
      if phase.None? { return None; }
      if phase.value in seen {
        var i :| 0 <= i < k && names[..k][i] == names[k];
        assert names[i] == names[k];
        return None;
      }
      assert names[..k + 1] == names[..k] + [names[k]];
      seen := seen + {phase.value};
    }
    assert names[..|names|] == names;
    return if !schema2 && PinnedConcurrent in seen then None else Some(seen);
  }

  method CloseOver(requested: set<Phase>, schema2: bool) returns (wanted: set<Phase>)
    ensures LeastClosed(wanted, requested, schema2)
  {
    wanted := requested;
    if Preflight in wanted {
      wanted := wanted + {Baseline, Groups, Individual};
      if schema2 { wanted := wanted + {PinnedConcurrent}; }
      wanted := wanted + {Frequency, Gdb};
    }
    if Groups in wanted {
      wanted := wanted + {Individual};
      if schema2 { wanted := wanted + {PinnedConcurrent}; }
    }
    if Individual in wanted {
      wanted := wanted + {Frequency, Gdb};
    }
    forall s: set<Phase> | requested <= s && Closed(s, schema2) ensures wanted <= s {
      assert Preflight in s ==> Dependents(Preflight, schema2) <= s;
      assert Groups in s ==> Dependents(Groups, schema2) <= s;
      assert Individual in s ==> Dependents(Individual, schema2) <= s;
    }
  }

  method InRankOrder(wanted: set<Phase>) returns (phases: seq<Phase>)
    ensures RankOrdered(phases) && Members(phases) == wanted
  {
    phases := [];
    for k := 0 to |RANKED|
      invariant RankOrdered(phases)
      invariant forall i :: 0 <= i < |phases| ==> phases[i].Rank() <= k
      invariant forall p: Phase :: p in phases <==> p in wanted && p.Rank() <= k
    {
      assert RANKED[k].Rank() == k + 1;
      if RANKED[k] in wanted { phases := phases + [RANKED[k]]; }
    }
  }

  /** A plan is accepted exactly for distinct supported phases, and it is then the
      least set of phases that contains the request and is closed under dependency,
      in rank order. */
  method BuildRedoPlan(request: string, schema2: bool) returns (plan: Option<seq<Phase>>)
    ensures plan.Some? <==> RequestIsAcceptable(request, schema2)
    ensures request == "" ==> plan == Some([])
    ensures plan.Some? && request != "" ==>
              && RankOrdered(plan.value)
              && LeastClosed(Members(plan.value), Requested(Split(request, ',')), schema2)
  {
    if request == "" { return Some([]); }
    var names := Split(request, ',');
    var requested := ReadRequest(names, schema2);
    if requested.None? { return None; }
    var wanted := CloseOver(requested.value, schema2);
    var phases := InRankOrder(wanted);
    return Some(phases);
  }
}
