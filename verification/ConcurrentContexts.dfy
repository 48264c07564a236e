/** Pinned-concurrent contexts (cpulist_first_outside, add_partitioned_concurrent_contexts and
    build_concurrent_contexts in diagnose.sh): every context needs a controller CPU outside its
    active set; a group that takes every usable CPU is split by physical core. */
module ConcurrentContexts {
  import opened CpuLists
  import opened SortedIds
  import opened Text

  /** A CPU group found in the topology; cpus is a list text. */
  datatype Group = Group(name: string, kind: string, cpus: string, cluster: string)

  datatype Context = Context(name: string, kind: string, cpus: string, cluster: string, controller: nat)

  /** The physical unit of each CPU, package and core, as sysfs names it. */
  type Topology = nat -> string

  datatype Reason = Available | NoPartition | NoContext

  function Elements(s: seq<nat>): set<nat> { set c | c in s }

  function CpuSet(list: string): set<nat> { Elements(Ids(list)) }

  function Sorted(list: string): seq<nat> { SortUnique(Ids(list)) }

  /** cpu_list_sorted. */
  method ListSorted(list: string) returns (cpus: seq<nat>)
    ensures cpus == Sorted(list) && Increasing(cpus) && Elements(cpus) == CpuSet(list)
    ensures forall c :: c in cpus <==> c in CpuSet(list)
  {
    hide Expanded, SortUnique;
    SortedIsSet(list);
    var expanded := Expand(list);
    cpus := SortUnique(match expanded case Some(all) => all case None => []);
  }

  lemma SortedIsSet(list: string)
    ensures Increasing(Sorted(list)) && forall c :: c in Sorted(list) <==> c in CpuSet(list)
  {
    SortUniqueSorts(Ids(list));
  }

  /** What compression prints for some CPUs names exactly these. */
  lemma PrintedSet(cpus: seq<nat>)
    ensures CpuSet(Compressed(SortUnique(cpus))) == Elements(cpus)
  {
    hide Expanded, Compressed, SortUnique;
    SortUniqueSorts(cpus);
    ExpandUndoesCompress(SortUnique(cpus));
  }

  // Splitting a group by physical unit.

  type Units = map<string, seq<nat>>

  /** Each unit's CPUs, in the order they are met. */
  function UnitsOf(cpus: seq<nat>, topology: Topology): Units {
    if cpus == [] then map[]
    else
      var cpu := cpus[|cpus| - 1];
      var units := UnitsOf(cpus[..|cpus| - 1], topology);
      units[topology(cpu) := (if topology(cpu) in units then units[topology(cpu)] else []) + [cpu]]
  }

  predicate Before(a: string, b: string) {
    if a == "" then b != "" else b != "" && (a[0] < b[0] || (a[0] == b[0] && Before(a[1..], b[1..])))
  }

  function InsertKey(keys: seq<string>, key: string): seq<string> {
    if keys == [] || Before(keys[|keys| - 1], key) then keys + [key]
    else InsertKey(keys[..|keys| - 1], key) + [keys[|keys| - 1]]
  }

  /** The units' keys in the C locale's order. */
  function KeysOf(cpus: seq<nat>, topology: Topology): seq<string> {
    if cpus == [] then []
    else
      var keys, key := KeysOf(cpus[..|cpus| - 1], topology), topology(cpus[|cpus| - 1]);
      if key in keys then keys else InsertKey(keys, key)
  }

  lemma {:induction false} UnitsHold(cpus: seq<nat>, topology: Topology, key: string)
    ensures key in UnitsOf(cpus, topology) <==> exists c :: c in cpus && topology(c) == key
    ensures key in UnitsOf(cpus, topology) ==>
              forall c :: c in UnitsOf(cpus, topology)[key] <==> c in cpus && topology(c) == key
  {
    if cpus != [] {
      var front, cpu := cpus[..|cpus| - 1], cpus[|cpus| - 1];
      assert cpus == front + [cpu];
      UnitsHold(front, topology, key);
      UnitsHold(front, topology, topology(cpu));
      if c :| c in cpus && topology(c) == key { assert c in front || c == cpu; }
    }
  }

  predicate DistinctKeys(keys: seq<string>) { forall i, j :: 0 <= i < j < |keys| ==> keys[i] != keys[j] }

  lemma {:induction false} InsertKeyAdds(keys: seq<string>, key: string)
    requires DistinctKeys(keys) && key !in keys
    ensures DistinctKeys(InsertKey(keys, key)) && forall k :: k in InsertKey(keys, key) <==> k in keys || k == key
  {
    hide Before;
    if keys != [] && !Before(keys[|keys| - 1], key) {
      var front, last := keys[..|keys| - 1], keys[|keys| - 1];
      assert keys == front + [last];
      InsertKeyAdds(front, key);
      assert last !in front;
      assert forall i :: 0 <= i < |InsertKey(front, key)| ==> InsertKey(front, key)[i] in InsertKey(front, key);
    }
  }

  predicate SortedKeys(keys: seq<string>) { forall i, j :: 0 <= i < j < |keys| ==> Before(keys[i], keys[j]) }

  lemma {:induction false} BeforeIsTransitive(a: string, b: string, c: string)
    requires Before(a, b) && Before(b, c)
    ensures Before(a, c)
  {
    if a != "" && b != "" && c != "" && a[0] == b[0] == c[0] { BeforeIsTransitive(a[1..], b[1..], c[1..]); }
  }

  lemma {:induction false} BeforeIsTotal(a: string, b: string)
    ensures a == b || Before(a, b) || Before(b, a)
  {
    if a != "" && b != "" && a[0] == b[0] {
      BeforeIsTotal(a[1..], b[1..]);
      assert a == [a[0]] + a[1..] && b == [b[0]] + b[1..];
    }
  }

  /** Inserting into sorted keys keeps them sorted. */
  lemma {:induction false} InsertKeySorts(keys: seq<string>, key: string)
    requires SortedKeys(keys) && DistinctKeys(keys) && key !in keys
    ensures SortedKeys(InsertKey(keys, key))
  {
    hide Before;
    if keys != [] {
      var front, last := keys[..|keys| - 1], keys[|keys| - 1];
      if Before(last, key) {
        forall i | 0 <= i < |front| ensures Before(keys[i], key) { BeforeIsTransitive(keys[i], last, key); }
      } else {
        BeforeIsTotal(last, key);
        InsertKeySorts(front, key);
        InsertKeyAdds(front, key);
        var inserted := InsertKey(front, key);
        forall i | 0 <= i < |inserted| ensures Before(inserted[i], last) {
          assert inserted[i] in inserted;
          if inserted[i] != key {
            var j :| 0 <= j < |front| && front[j] == inserted[i];
            assert keys[j] == inserted[i];
          }
        }
      }
    }
  }

  /** The keys are those of the units, increasing. */
  lemma {:induction false} KeysHold(cpus: seq<nat>, topology: Topology)
    ensures DistinctKeys(KeysOf(cpus, topology)) && SortedKeys(KeysOf(cpus, topology))
    ensures forall k :: k in KeysOf(cpus, topology) <==> exists c :: c in cpus && topology(c) == k
  {
    hide InsertKey, Before;
    if cpus != [] {
      var front, cpu := cpus[..|cpus| - 1], cpus[|cpus| - 1];
      assert cpus == front + [cpu];
      KeysHold(front, topology);
      if topology(cpu) !in KeysOf(front, topology) {
        InsertKeyAdds(KeysOf(front, topology), topology(cpu));
        InsertKeySorts(KeysOf(front, topology), topology(cpu));
      }
    }
  }

  /** The halves of a split: disjoint, non-empty, together everything, and, unless all CPUs are
      one unit, no unit cut in two. */
  ghost predicate SplitOk(all: set<nat>, topology: Topology, left: set<nat>, right: set<nat>) {
    && left + right == all && left !! right && left != {} && right != {}
    && ((exists c, d :: c in all && d in all && topology(c) != topology(d)) ==>
          forall c, d :: c in all && d in all && topology(c) == topology(d) ==> (c in left <==> d in left))
  }

  /** Whole units to alternating sides. */
  method AlternateUnits(cpus: seq<nat>, keys: seq<string>, units: Units, ghost topology: Topology)
    returns (left: seq<nat>, right: seq<nat>)
    requires keys == KeysOf(cpus, topology) && units == UnitsOf(cpus, topology) && |keys| >= 2
    ensures SplitOk(Elements(cpus), topology, Elements(left), Elements(right))
  {
    hide UnitsOf, KeysOf, SortedKeys, Before;
    KeysHold(cpus, topology);
    forall k ensures k in units <==> k in keys { UnitsHold(cpus, topology, k); }
    forall k, c | k in units ensures c in units[k] <==> c in cpus && topology(c) == k { UnitsHold(cpus, topology, k); }
    left, right := [], [];
    for index := 0 to |keys|
      invariant forall c :: c in left ==> c in cpus && OnSide(keys, topology(c), index, 0)
      invariant forall c :: c in right ==> c in cpus && OnSide(keys, topology(c), index, 1)
      invariant forall c :: c in cpus && OnSide(keys, topology(c), index, 0) ==> c in left
      invariant forall c :: c in cpus && OnSide(keys, topology(c), index, 1) ==> c in right
    {
      assert keys[index] in keys;
      var members := units[keys[index]];
      forall k
        ensures OnSide(keys, k, index + 1, index % 2) <==> OnSide(keys, k, index, index % 2) || k == keys[index]
      {
        SideGrows(keys, k, index);
      }
      if index % 2 == 0 { left := left + members; } else { right := right + members; }
    }
    SidesSplit(cpus, topology, keys, left, right);
  }

  /** The key stands before position end, at a position of this parity. */
  ghost predicate OnSide(keys: seq<string>, key: string, end: nat, parity: nat) {
    exists i :: 0 <= i < end && i < |keys| && keys[i] == key && i % 2 == parity
  }

  lemma SideGrows(keys: seq<string>, key: string, index: nat)
    requires index < |keys|
    ensures OnSide(keys, key, index + 1, index % 2) <==> OnSide(keys, key, index, index % 2) || key == keys[index]
    ensures OnSide(keys, key, index + 1, 1 - index % 2) <==> OnSide(keys, key, index, 1 - index % 2)
  {
  }

  lemma SidesSplit(cpus: seq<nat>, topology: Topology, keys: seq<string>, left: seq<nat>, right: seq<nat>)
    requires DistinctKeys(keys) && |keys| >= 2
    requires forall k :: k in keys <==> exists c :: c in cpus && topology(c) == k
    requires forall c :: c in left <==> c in cpus && OnSide(keys, topology(c), |keys|, 0)
    requires forall c :: c in right <==> c in cpus && OnSide(keys, topology(c), |keys|, 1)
    ensures SplitOk(Elements(cpus), topology, Elements(left), Elements(right))
  {
    var l, r, all := Elements(left), Elements(right), Elements(cpus);
    assert keys[0] in keys && keys[1] in keys;
    var a :| a in cpus && topology(a) == keys[0];
    var b :| b in cpus && topology(b) == keys[1];
    assert a in l && b in r;
    forall c ensures c in all <==> c in l + r {
      if c in cpus {
        assert topology(c) in keys;
        var i :| 0 <= i < |keys| && keys[i] == topology(c);
        assert OnSide(keys, topology(c), |keys|, i % 2);
      }
    }
  }

  /** One unit only: CPUs to alternating sides. */
  method AlternateCpus(cpus: seq<nat>, ghost topology: Topology) returns (left: seq<nat>, right: seq<nat>)
    requires Increasing(cpus) && |cpus| >= 2 && forall c, d :: c in cpus && d in cpus ==> topology(c) == topology(d)
    ensures SplitOk(Elements(cpus), topology, Elements(left), Elements(right))
  {
    left, right := [], [];
    for index := 0 to |cpus|
      invariant forall c :: c in left <==> exists i :: 0 <= i < index && cpus[i] == c && i % 2 == 0
      invariant forall c :: c in right <==> exists i :: 0 <= i < index && cpus[i] == c && i % 2 == 1
    {
      if index % 2 == 0 { left := left + [cpus[index]]; } else { right := right + [cpus[index]]; }
    }
    EvenAndOdd(cpus, topology, left, right);
  }

  lemma EvenAndOdd(cpus: seq<nat>, topology: Topology, left: seq<nat>, right: seq<nat>)
    requires Increasing(cpus) && |cpus| >= 2 && forall c, d :: c in cpus && d in cpus ==> topology(c) == topology(d)
    requires forall c :: c in left <==> exists i :: 0 <= i < |cpus| && cpus[i] == c && i % 2 == 0
    requires forall c :: c in right <==> exists i :: 0 <= i < |cpus| && cpus[i] == c && i % 2 == 1
    ensures SplitOk(Elements(cpus), topology, Elements(left), Elements(right))
  {
    assert cpus[0] in left && cpus[1] in right;
    assert cpus[0] in Elements(left) && cpus[1] in Elements(right);
    forall c ensures c in Elements(left) + Elements(right) <==> c in Elements(cpus) {
      if c in cpus {
        var i :| 0 <= i < |cpus| && cpus[i] == c;
        assert i % 2 == 0 || i % 2 == 1;
      }
    }
    forall c ensures !(c in left && c in right) { }
  }

  // The table.

  /** A context that runs some CPUs under a usable controller outside them. */
  ghost predicate Controlled(online: string, c: Context) {
    c.controller in CpuSet(online) && c.controller !in CpuSet(c.cpus)
  }

  ghost predicate WholeFor(online: string, g: Group, c: Context) {
    Controlled(online, c) && c.cpus == g.cpus && c.name == g.name && c.kind == g.kind && c.cluster == g.cluster
  }

  ghost predicate HalvesFor(online: string, topology: Topology, name: string, kind: string, cpus: string, a: Context,
                            b: Context)
  {
    && Controlled(online, a) && Controlled(online, b)
    && a.name == name + "-a" && b.name == name + "-b" && a.kind == kind && b.kind == kind
    && SplitOk(CpuSet(cpus), topology, CpuSet(a.cpus), CpuSet(b.cpus))
  }

  /** The contexts are, in order, each group whole or its two halves; a group is split only when
      it takes every usable CPU. */
  ghost predicate Built(online: string, topology: Topology, groups: seq<Group>, contexts: seq<Context>)
    decreases |groups|
  {
    if groups == [] then contexts == []
    else
      var g, rest := groups[|groups| - 1], groups[..|groups| - 1];
      || (|contexts| >= 1 && WholeFor(online, g, contexts[|contexts| - 1])
          && Built(online, topology, rest, contexts[..|contexts| - 1]))
      || (|contexts| >= 2 && CpuSet(online) <= CpuSet(g.cpus)
          && HalvesFor(online, topology, g.name, g.kind + "-partition", g.cpus, contexts[|contexts| - 2],
                       contexts[|contexts| - 1])
          && Built(online, topology, rest, contexts[..|contexts| - 2]))
  }

  ghost predicate Usable(online: string, groups: seq<Group>) {
    forall g :: g in groups ==> CpuSet(g.cpus) != {} && CpuSet(g.cpus) <= CpuSet(online)
  }

  ghost predicate OneCpu(online: string) { exists c :: CpuSet(online) == {c} }

  method IsActive(active: string, cpu: nat) returns (inside: bool)
    ensures inside <==> cpu in CpuSet(active)
  {
    hide Ids;
    inside := ListContains(active, cpu);
  }

  /** cpulist_first_outside. */
  method FirstOutside(online: string, active: string) returns (r: Option<nat>)
    ensures r.None? <==> CpuSet(online) <= CpuSet(active)
    ensures r.Some? ==> r.value in CpuSet(online) && r.value !in CpuSet(active)
                        && forall c :: c in CpuSet(online) && c !in CpuSet(active) ==> r.value <= c
  {
    hide CpuSet, Sorted, Elements, Ids;
    var candidates := ListSorted(online);
    for i := 0 to |candidates|
      invariant forall k :: 0 <= k < i ==> candidates[k] in CpuSet(active)
    {
      var inside := IsActive(active, candidates[i]);
      if !inside {
        assert candidates[i] in candidates;
        return Some(candidates[i]);
      }
    }
    return None;
  }

  class ContextTable {
    const online: string
    const topology: Topology
    var contexts: seq<Context>
    var reason: Reason

    constructor (online: string, topology: Topology)
      ensures this.online == online && this.topology == topology && contexts == []
    {
      this.online, this.topology, contexts, reason := online, topology, [], NoContext;
    }

    /** add_partitioned_concurrent_contexts. */
    method AddPartitioned(name: string, kind: string, cpulist: string) returns (ok: bool)
      modifies this`contexts
      ensures !ok ==> contexts == old(contexts)
      ensures ok ==> exists a, b :: contexts == old(contexts) + [a, b]
                                    && HalvesFor(online, topology, name, kind, cpulist, a, b)
      ensures CpuSet(cpulist) <= CpuSet(online) ==> (ok <==> |Sorted(cpulist)| >= 2)
    {
      hide CpuSet, Sorted, Elements, SortUnique, UnitsOf, KeysOf, Compressed, SplitOk;
      var cpus := ListSorted(cpulist);
      if |cpus| < 2 { return false; }
      var keys, units := KeysOf(cpus, topology), UnitsOf(cpus, topology);
      var left, right;
      if |keys| >= 2 {
        left, right := AlternateUnits(cpus, keys, units, topology);
      } else {
        OneKey(cpus, topology);
        left, right := AlternateCpus(cpus, topology);
      }
      var leftList, rightList := Compressed(SortUnique(left)), Compressed(SortUnique(right));
      PrintedSet(left);
      PrintedSet(right);
      assert SplitOk(CpuSet(cpulist), topology, CpuSet(leftList), CpuSet(rightList));
      HalvesLeaveRoom(CpuSet(cpulist), topology, CpuSet(leftList), CpuSet(rightList));
      var leftController := FirstOutside(online, leftList);
      if leftController.None? { return false; }
      var rightController := FirstOutside(online, rightList);
      if rightController.None? { return false; }
      var a := Context(name + "-a", kind, leftList, "-", leftController.value);
      var b := Context(name + "-b", kind, rightList, "-", rightController.value);
      assert HalvesFor(online, topology, name, kind, cpulist, a, b);
      contexts := contexts + [a];
      contexts := contexts + [b];
      assert contexts == old(contexts) + [a, b];
      return true;
    }

    /** build_concurrent_contexts. */
    method Build(groups: seq<Group>)
      modifies this`contexts, this`reason
      ensures reason == Available <==> contexts != []
      ensures reason == Available ==> Built(online, topology, groups, contexts)
      ensures groups == [] ==> reason == NoContext
      ensures groups != [] && Usable(online, groups) ==> (reason != Available <==> OneCpu(online))
    {
      hide HalvesFor, WholeFor, Sorted, CpuSet, Built;
      contexts := [];
      BuiltNothing(online, topology);
      var failed := false;
      var i := 0;
      while i < |groups| && !failed
        invariant 0 <= i <= |groups|
        invariant !failed ==> Built(online, topology, groups[..i], contexts) && (contexts == [] <==> i == 0)
        invariant failed ==> i < |groups|
        invariant Usable(online, groups) && groups != [] ==> (failed ==> OneCpu(online)) && (i > 0 ==> !OneCpu(online))
        decreases |groups| - i, !failed
      {
        var g := groups[i];
        ghost var before := contexts;
        assert g in groups;
        assert groups[..i + 1][..i] == groups[..i];
        if Usable(online, groups) { WhenSplitFails(online, g); }
        var controller := FirstOutside(online, g.cpus);
        if controller.Some? {
          contexts := contexts + [Context(g.name, g.kind, g.cpus, g.cluster, controller.value)];
          WholeContext(online, g, controller.value);
          BuiltWhole(online, topology, groups[..i + 1], before, contexts);
          i := i + 1;
        } else {
          var ok := AddPartitioned(g.name, g.kind + "-partition", g.cpus);
          if ok {
            BuiltHalves(online, topology, groups[..i + 1], before, contexts);
            i := i + 1;
          } else {
            failed := true;
          }
        }
      }
      assert groups[..|groups|] == groups;
      if failed { contexts := []; }
      reason := if failed then NoPartition else if contexts == [] then NoContext else Available;
    }
  }

  lemma BuiltNothing(online: string, topology: Topology)
    ensures Built(online, topology, [], [])
  {
  }

  lemma BuiltWhole(online: string, topology: Topology, groups: seq<Group>, before: seq<Context>, after: seq<Context>)
    requires groups != [] && |after| == |before| + 1 && after[..|before|] == before
    requires Built(online, topology, groups[..|groups| - 1], before)
    requires WholeFor(online, groups[|groups| - 1], after[|before|])
    ensures Built(online, topology, groups, after)
  {
    hide WholeFor, HalvesFor;
  }

  lemma BuiltHalves(online: string, topology: Topology, groups: seq<Group>, before: seq<Context>, after: seq<Context>)
    requires groups != [] && |after| == |before| + 2 && after[..|before|] == before
    requires Built(online, topology, groups[..|groups| - 1], before)
    requires CpuSet(online) <= CpuSet(groups[|groups| - 1].cpus)
    requires var g := groups[|groups| - 1];
      HalvesFor(online, topology, g.name, g.kind + "-partition", g.cpus, after[|before|], after[|before| + 1])
    ensures Built(online, topology, groups, after)
  {
    hide WholeFor, HalvesFor, CpuSet;
  }

  lemma WholeContext(online: string, g: Group, controller: nat)
    requires controller in CpuSet(online) && controller !in CpuSet(g.cpus)
    ensures WholeFor(online, g, Context(g.name, g.kind, g.cpus, g.cluster, controller))
  {
    hide CpuSet;
  }

  lemma OneKey(cpus: seq<nat>, topology: Topology)
    requires |KeysOf(cpus, topology)| < 2
    ensures forall c, d :: c in cpus && d in cpus ==> topology(c) == topology(d)
  {
    hide KeysOf;
    KeysHold(cpus, topology);
    forall c, d | c in cpus && d in cpus ensures topology(c) == topology(d) {
      assert topology(c) in KeysOf(cpus, topology) && topology(d) in KeysOf(cpus, topology);
    }
  }

  lemma HalvesLeaveRoom(all: set<nat>, topology: Topology, left: set<nat>, right: set<nat>)
    requires SplitOk(all, topology, left, right)
    ensures !(all <= left) && !(all <= right)
  {
    var l :| l in left;
    var r :| r in right;
  }

  /** A usable group has no controller, or no halves, only when it is the one usable CPU. */
  lemma WhenSplitFails(online: string, g: Group)
    requires CpuSet(g.cpus) != {} && CpuSet(g.cpus) <= CpuSet(online)
    ensures CpuSet(online) <= CpuSet(g.cpus) ==> (|Sorted(g.cpus)| < 2 <==> OneCpu(online))
    ensures !(CpuSet(online) <= CpuSet(g.cpus)) ==> !OneCpu(online)
  {
    hide CpuSet;
    SortedIsSet(g.cpus);
    var s := Sorted(g.cpus);
    hide Sorted;
    if CpuSet(online) <= CpuSet(g.cpus) {
      assert CpuSet(online) == CpuSet(g.cpus);
      var c :| c in CpuSet(g.cpus);
      if |s| < 2 {
        assert forall d :: d in CpuSet(g.cpus) ==> d in s;
        assert CpuSet(online) == {s[0]};
      } else {
        assert s[0] in s && s[1] in s;
      }
    }
  }

  /** Every context of a built table has a usable controller outside its active set. */
  lemma {:induction false} EveryContextIsControlled(online: string, topology: Topology, groups: seq<Group>,
                                                    contexts: seq<Context>, c: Context)
    requires Built(online, topology, groups, contexts) && c in contexts
    ensures c.controller in CpuSet(online) && c.controller !in CpuSet(c.cpus)
    decreases |groups|
  {
    hide CpuSet, SplitOk;
    var rest, n := groups[..|groups| - 1], |contexts|;
    var k :| 0 <= k < n && contexts[k] == c;
    if WholeFor(online, groups[|groups| - 1], contexts[n - 1]) && Built(online, topology, rest, contexts[..n - 1]) {
      if k < n - 1 {
        assert contexts[..n - 1][k] == c;
        EveryContextIsControlled(online, topology, rest, contexts[..n - 1], c);
      }
    } else if k < n - 2 {
      assert contexts[..n - 2][k] == c;
      EveryContextIsControlled(online, topology, rest, contexts[..n - 2], c);
    }
  }

  function GroupCpus(groups: seq<Group>): set<nat> {
    if groups == [] then {} else GroupCpus(groups[..|groups| - 1]) + CpuSet(groups[|groups| - 1].cpus)
  }

  function ContextCpus(contexts: seq<Context>): set<nat> {
    if contexts == [] then {} else ContextCpus(contexts[..|contexts| - 1]) + CpuSet(contexts[|contexts| - 1].cpus)
  }

  /** The contexts cover exactly the groups' CPUs. */
  lemma {:induction false} ContextsCoverGroups(online: string, topology: Topology, groups: seq<Group>,
                                               contexts: seq<Context>)
    requires Built(online, topology, groups, contexts)
    ensures ContextCpus(contexts) == GroupCpus(groups)
    decreases |groups|
  {
    hide CpuSet, Controlled;
    if groups != [] {
      var g, rest, n := groups[|groups| - 1], groups[..|groups| - 1], |contexts|;
      if WholeFor(online, g, contexts[n - 1]) && Built(online, topology, rest, contexts[..n - 1]) {
        ContextsCoverGroups(online, topology, rest, contexts[..n - 1]);
      } else {
        ContextsCoverGroups(online, topology, rest, contexts[..n - 2]);
        assert contexts[..n - 1][..n - 2] == contexts[..n - 2];
        assert ContextCpus(contexts[..n - 1]) == ContextCpus(contexts[..n - 2]) + CpuSet(contexts[n - 2].cpus);
      }
    }
  }
}
