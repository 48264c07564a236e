/** Seeded orders: the shuffles of load-state-aba.mjs and targeted-cpu-test.mjs and the balanced
    node matrix. A generator's double in [0, 1) is its 32-bit numerator over 2^32, so scaling it
    by a length below 2^21 is exact. */
module Schedules {
  import opened Text

  const TWO32 := 0x1_0000_0000

  // The xorshift generator of makeRng, on 32-bit words, lowest bit first.

  type Word = w: seq<bool> | |w| == 32 witness BitsOf(0, 32)

  const ZERO: Word := BitsOf(0, 32)

  function Xor(a: Word, b: Word): Word { seq(32, i requires 0 <= i < 32 => a[i] != b[i]) }

  function ShiftLeft(a: Word, k: nat): Word { seq(32, i requires 0 <= i < 32 => i >= k && a[i - k]) }

  /** The shift that brings in zeros. */
  function ShiftRight(a: Word, k: nat): Word { seq(32, i requires 0 <= i < 32 => i + k < 32 && a[i + k]) }

  function XorShift(state: Word): Word {
    var a := Xor(state, ShiftLeft(state, 13));
    var b := Xor(a, ShiftRight(a, 17));
    Xor(b, ShiftLeft(b, 5))
  }

  lemma {:induction false} LeftBits(x: Word, y: Word, k: nat, i: nat)
    requires k > 0 && i < 32 && Xor(x, ShiftLeft(x, k)) == Xor(y, ShiftLeft(y, k))
    ensures x[i] == y[i]
  {
    if i >= k { LeftBits(x, y, k, i - k); }
    assert Xor(x, ShiftLeft(x, k))[i] == Xor(y, ShiftLeft(y, k))[i];
  }

  lemma {:induction false} RightBits(x: Word, y: Word, k: nat, i: nat)
    requires k > 0 && i < 32 && Xor(x, ShiftRight(x, k)) == Xor(y, ShiftRight(y, k))
    ensures x[i] == y[i]
    decreases 32 - i
  {
    if i + k < 32 { RightBits(x, y, k, i + k); }
    assert Xor(x, ShiftRight(x, k))[i] == Xor(y, ShiftRight(y, k))[i];
  }

  lemma LeftInjective(x: Word, y: Word, k: nat)
    requires k > 0 && Xor(x, ShiftLeft(x, k)) == Xor(y, ShiftLeft(y, k))
    ensures x == y
  {
    forall i | 0 <= i < 32 ensures x[i] == y[i] { LeftBits(x, y, k, i); }
  }

  lemma RightInjective(x: Word, y: Word, k: nat)
    requires k > 0 && Xor(x, ShiftRight(x, k)) == Xor(y, ShiftRight(y, k))
    ensures x == y
  {
    forall i | 0 <= i < 32 ensures x[i] == y[i] { RightBits(x, y, k, i); }
  }

  lemma {:induction false} ZeroBits(width: nat, i: nat)
    requires i < width
    ensures !BitsOf(0, width)[i]
  {
    if i > 0 { ZeroBits(width - 1, i - 1); }
  }

  lemma ZeroStays()
    ensures XorShift(ZERO) == ZERO
  {
    hide BitsOf;
    forall i | 0 <= i < 32 ensures !ZERO[i] { ZeroBits(32, i); }
    assert Xor(ZERO, ShiftLeft(ZERO, 13)) == ZERO;
    assert Xor(ZERO, ShiftRight(ZERO, 17)) == ZERO;
    assert Xor(ZERO, ShiftLeft(ZERO, 5)) == ZERO;
  }

  /** A step never takes two states to one, and never reaches zero from another state. */
  lemma XorShiftIsInjective(x: Word, y: Word)
    ensures XorShift(x) == XorShift(y) ==> x == y
    ensures x != ZERO ==> XorShift(x) != ZERO
  {
    hide Xor, ShiftLeft, ShiftRight;
    ZeroStays();
    StepInjective(x, y);
    StepInjective(x, ZERO);
  }

  lemma StepInjective(x: Word, y: Word)
    ensures XorShift(x) == XorShift(y) ==> x == y
  {
    hide Xor, ShiftLeft, ShiftRight;
    if XorShift(x) == XorShift(y) {
      var a, a' := Xor(x, ShiftLeft(x, 13)), Xor(y, ShiftLeft(y, 13));
      LeftInjective(Xor(a, ShiftRight(a, 17)), Xor(a', ShiftRight(a', 17)), 5);
      RightInjective(a, a', 17);
      LeftInjective(x, y, 13);
    }
  }

  function PowerOfTwo(k: nat): nat { if k == 0 then 1 else 2 * PowerOfTwo(k - 1) }

  /** The number a word stands for. */
  function Number(bits: seq<bool>): (n: nat)
    ensures n < PowerOfTwo(|bits|)
  {
    if bits == [] then 0 else (if bits[0] then 1 else 0) + 2 * Number(bits[1..])
  }

  function BitsOf(n: nat, width: nat): (bits: seq<bool>)
    ensures |bits| == width
  {
    if width == 0 then [] else [n % 2 == 1] + BitsOf(n / 2, width - 1)
  }

  lemma {:induction false} BitsNumber(n: nat, width: nat)
    requires n < PowerOfTwo(width)
    ensures Number(BitsOf(n, width)) == n
  {
    if width > 0 {
      BitsNumber(n / 2, width - 1);
      assert BitsOf(n, width)[1..] == BitsOf(n / 2, width - 1);
    }
  }

  lemma {:induction false} PowerAdds(j: nat, k: nat)
    ensures PowerOfTwo(j + k) == PowerOfTwo(j) * PowerOfTwo(k)
    decreases j
  {
    if j > 0 {
      PowerAdds(j - 1, k);
      assert PowerOfTwo(j + k) == 2 * PowerOfTwo(j - 1 + k);
    }
  }

  lemma ThirtyTwoBits()
    ensures PowerOfTwo(32) == TWO32
  {
    assert PowerOfTwo(4) == 16;
    PowerAdds(4, 4);
    PowerAdds(8, 8);
    PowerAdds(16, 16);
  }

  /** A seed of zero is replaced. */
  function RngSeed(seed: nat): Word {
    var low := seed % TWO32;
    BitsOf(if low == 0 then 0x9e3779b9 else low, 32)
  }

  lemma SeedIsNotZero(seed: nat)
    ensures RngSeed(seed) != ZERO
  {
    ThirtyTwoBits();
    var low := seed % TWO32;
    BitsNumber(if low == 0 then 0x9e3779b9 else low, 32);
    BitsNumber(0, 32);
  }

  function WordNumber(w: Word): (n: nat)
    ensures n < TWO32
  {
    ThirtyTwoBits();
    Number(w)
  }

  // The generator of seededRandom.

  function MulberryStep(state: bv32): bv32 { state + 0x6d2b79f5 }

  function MulberryValue(state: bv32): bv32 {
    var v := (state ^ (state >> 15)) * (state | 1);
    var w := v ^ (v + (v ^ (v >> 7)) * (v | 61));
    w ^ (w >> 14)
  }

  /** The state of a generator of either kind. */
  datatype State = Mulberry(word: bv32) | XorShifted(bits: Word)

  function Step(state: State): State {
    match state
    case Mulberry(word) => Mulberry(MulberryStep(word))
    case XorShifted(bits) => XorShifted(XorShift(bits))
  }

  /** The numerator of the double that a state gives. */
  function Numerator(state: State): (n: nat)
    ensures n < TWO32
  {
    match state
    case Mulberry(word) => MulberryValue(word) as nat
    case XorShifted(bits) => WordNumber(bits)
  }

  // Shuffles.

  /** Math.floor(random() * n) */
  function Pick(numerator: nat, n: nat): nat { numerator * n / TWO32 }

  lemma PickInRange(numerator: nat, n: nat)
    requires numerator < TWO32 && n > 0
    ensures Pick(numerator, n) < n
  {
    Positive(TWO32 - numerator, n);
    Distributes(numerator, n);
    QuotientBelow(numerator * n, n);
  }

  lemma Positive(a: nat, b: nat)
    requires a > 0 && b > 0
    ensures a * b > 0
  {
  }

  lemma Distributes(a: nat, n: nat)
    requires a <= TWO32
    ensures TWO32 * n == a * n + (TWO32 - a) * n
  {
  }

  lemma QuotientBelow(a: nat, n: nat)
    requires a < TWO32 * n
    ensures a / TWO32 < n
  {
  }

  function Drawn(state: State, n: nat): (j: nat)
    requires n > 0
    ensures j < n
  {
    var numerator := Numerator(Step(state));
    PickInRange(numerator, n);
    Pick(numerator, n)
  }

  function Swapped<T>(s: seq<T>, i: nat, j: nat): (r: seq<T>)
    requires i < |s| && j < |s|
    ensures |r| == |s|
  {
    s[i := s[j]][j := s[i]]
  }

  datatype Shuffle<T> = Shuffle(order: seq<T>, state: State)

  /** The swaps from position index down to 1. */
  function ShuffleFrom<T>(s: seq<T>, index: nat, state: State): (r: Shuffle<T>)
    requires index < |s| || index == 0
    ensures |r.order| == |s|
    decreases index
  {
    if index == 0 then Shuffle(s, state)
    else ShuffleFrom(Swapped(s, index, Drawn(state, index + 1)), index - 1, Step(state))
  }

  function Shuffled<T>(values: seq<T>, state: State): (r: Shuffle<T>)
    ensures |r.order| == |values|
  {
    if values == [] then Shuffle([], state) else ShuffleFrom(values, |values| - 1, state)
  }

  lemma SwapKeeps<T>(s: seq<T>, i: nat, j: nat)
    requires i < |s| && j < |s|
    ensures multiset(Swapped(s, i, j)) == multiset(s)
  {
  }

  lemma {:induction false} ShuffleFromKeeps<T>(s: seq<T>, index: nat, state: State)
    requires index < |s| || index == 0
    ensures multiset(ShuffleFrom(s, index, state).order) == multiset(s)
    decreases index
  {
    hide Swapped;
    if index > 0 {
      var j := Drawn(state, index + 1);
      SwapKeeps(s, index, j);
      ShuffleFromKeeps(Swapped(s, index, j), index - 1, Step(state));
    }
  }

  /** Every shuffled order is a permutation. */
  lemma ShuffledPermutes<T>(values: seq<T>, state: State)
    ensures multiset(Shuffled(values, state).order) == multiset(values)
  {
    if values != [] { ShuffleFromKeeps(values, |values| - 1, state); }
  }

  class Rng {
    var state: State

    constructor (state: State)
      ensures this.state == state
    {
      this.state := state;
    }

    /** The next double's numerator, as an index below n. */
    method Next(n: nat) returns (j: nat)
      requires n > 0
      modifies this
      ensures j == Drawn(old(state), n) && state == Step(old(state))
    {
      j := Drawn(state, n);
      state := Step(state);
    }
  }

  /** shuffled, and the inner loop of buildRoundOrders: swaps in place, from the last position. */
  method ShuffleArray<T>(result: array<T>, rng: Rng)
    modifies result, rng
    ensures Shuffle(result[..], rng.state) == Shuffled(old(result[..]), old(rng.state))
  {
    hide Drawn;
    if result.Length == 0 { return; }
    var index := result.Length - 1;
    ghost var whole := Shuffled(result[..], rng.state);
    while index > 0
      invariant 0 <= index < result.Length
      invariant ShuffleFrom(result[..], index, rng.state) == whole
    {
      ghost var before := result[..];
      var selected := rng.Next(index + 1);
      result[index], result[selected] := result[selected], result[index];
      assert result[..] == Swapped(before, index, selected);
      index := index - 1;
    }
  }

  predicate NotZero(state: State) { state.XorShifted? && state.bits != ZERO }

  /** One round's order. */
  method BuildRound(mode: string, cpus: seq<nat>, rng: Rng) returns (order: seq<nat>)
    requires NotZero(rng.state)
    modifies rng
    ensures multiset(order) == multiset(cpus) && NotZero(rng.state)
    ensures mode == "interleaved" ==> Shuffle(order, rng.state) == Shuffled(cpus, old(rng.state))
    ensures mode != "interleaved" ==> order == cpus && rng.state == old(rng.state)
  {
    var result := new nat[|cpus|](i requires 0 <= i < |cpus| => cpus[i]);
    assert result[..] == cpus;
    hide Shuffled, NotZero;
    if mode == "interleaved" {
      ShuffledPermutes(cpus, rng.state);
      StateStaysNonzero(cpus, rng.state);
      ShuffleArray(result, rng);
    }
    order := result[..];
  }

  /** buildRoundOrders; the state of its generator afterwards is never zero. */
  method BuildRoundOrders(mode: string, cpus: seq<nat>, rounds: nat, seed: nat)
    returns (orders: Option<seq<seq<nat>>>, state: State)
    ensures orders.None? <==> mode != "one-to-one" && mode != "interleaved"
    ensures orders.Some? ==> |orders.value| == rounds
    ensures orders.Some? ==> forall k :: 0 <= k < rounds ==>
              multiset(orders.value[k]) == multiset(cpus) && (mode == "one-to-one" ==> orders.value[k] == cpus)
    ensures orders.Some? && mode == "interleaved" ==>
              orders.value == RoundOrders(cpus, rounds, XorShifted(RngSeed(seed))).order
    ensures NotZero(state)
  {
    SeedIsNotZero(seed);
    assert NotZero(XorShifted(RngSeed(seed))) && RoundOrders(cpus, 0, XorShifted(RngSeed(seed)))
           == Shuffle([], XorShifted(RngSeed(seed)));
    hide RngSeed, Shuffled, NotZero, RoundOrders;
    state := XorShifted(RngSeed(seed));
    ghost var start := state;
    if mode != "one-to-one" && mode != "interleaved" { return None, state; }
    var rng := new Rng(state);
    var done: seq<seq<nat>> := [];
    for round := 0 to rounds
      invariant |done| == round && NotZero(rng.state) && fresh(rng)
      invariant forall k :: 0 <= k < round ==>
                  multiset(done[k]) == multiset(cpus) && (mode == "one-to-one" ==> done[k] == cpus)
      invariant mode == "interleaved" ==> Shuffle(done, rng.state) == RoundOrders(cpus, round, start)
    {
      RoundStep(cpus, round + 1, start);
      var order := BuildRound(mode, cpus, rng);
      done := done + [order];
    }
    return Some(done), rng.state;
  }

  /** One shuffled copy a round, the generator running on. */
  function RoundOrders(cpus: seq<nat>, rounds: nat, state: State): Shuffle<seq<nat>> {
    if rounds == 0 then Shuffle([], state)
    else
      var before := RoundOrders(cpus, rounds - 1, state);
      var s := Shuffled(cpus, before.state);
      Shuffle(before.order + [s.order], s.state)
  }

  lemma RoundStep(cpus: seq<nat>, rounds: nat, state: State)
    requires rounds > 0
    ensures var before := RoundOrders(cpus, rounds - 1, state);
      var s := Shuffled(cpus, before.state);
      RoundOrders(cpus, rounds, state) == Shuffle(before.order + [s.order], s.state)
  {
  }

  lemma StateStaysNonzero<T>(values: seq<T>, state: State)
    requires NotZero(state)
    ensures NotZero(Shuffled(values, state).state)
  {
    if values != [] { StateStaysNonzeroFrom(values, |values| - 1, state); }
  }

  lemma {:induction false} StateStaysNonzeroFrom<T>(s: seq<T>, index: nat, state: State)
    requires NotZero(state) && (index < |s| || index == 0)
    ensures NotZero(ShuffleFrom(s, index, state).state)
    decreases index
  {
    hide Swapped, Drawn, XorShift;
    if index > 0 {
      XorShiftIsInjective(state.bits, state.bits);
      StateStaysNonzeroFrom(Swapped(s, index, Drawn(state, index + 1)), index - 1, Step(state));
    }
  }

  // The node matrix.

  datatype Condition = Condition(nodeLabel: string, warmupSeconds: nat)

  datatype Cycle = Cycle(condition: Condition, cycle: nat, cycleId: string, repeat: nat, position: nat, totalCycles: nat)

  function ConditionsOf(nodeLabel: string, warmups: seq<nat>): seq<Condition> {
    seq(|warmups|, i requires 0 <= i < |warmups| => Condition(nodeLabel, warmups[i]))
  }

  function Conditions(warmups: seq<nat>): seq<Condition> { ConditionsOf("A", warmups) + ConditionsOf("B", warmups) }

  function Reversed<T>(s: seq<T>): (r: seq<T>)
    ensures |r| == |s|
  {
    seq(|s|, i requires 0 <= i < |s| => s[|s| - 1 - i])
  }

  /** The order of each repeat: odd ones are shuffled, an even one reverses the one before it. */
  function MatrixOrders(conditions: seq<Condition>, repeats: nat, state: State): (r: Shuffle<seq<Condition>>)
    ensures |r.order| == repeats && forall k :: 0 <= k < repeats ==> |r.order[k]| == |conditions|
  {
    if repeats == 0 then Shuffle([], state)
    else
      var before := MatrixOrders(conditions, repeats - 1, state);
      if repeats % 2 == 1 then
        var s := Shuffled(conditions, before.state);
        Shuffle(before.order + [s.order], s.state)
      else Shuffle(before.order + [Reversed(before.order[repeats - 2])], before.state)
  }

  function CycleId(cycle: nat, total: nat): string {
    "C" + PadStart(Decimal(cycle), if |Decimal(total)| > 2 then |Decimal(total)| else 2)
  }

  function CycleAt(order: seq<Condition>, repeat: nat, position: nat, total: nat): Cycle
    requires 1 <= position <= |order| && 1 <= repeat
  {
    var cycle := (repeat - 1) * |order| + position;
    Cycle(order[position - 1], cycle, CycleId(cycle, total), repeat, position, total)
  }

  /** The schedule's entry for a position of a repeat. */
  predicate Places(schedule: seq<Cycle>, orders: seq<seq<Condition>>, repeat: nat, position: nat, total: nat)
    requires 1 <= repeat <= |orders| && 1 <= position <= |orders[repeat - 1]|
  {
    var order := orders[repeat - 1];
    var at := (repeat - 1) * |order| + position - 1;
    0 <= at < |schedule| && schedule[at] == CycleAt(order, repeat, position, total)
  }

  /** buildNodeMatrixSchedule. */
  method BuildNodeMatrixSchedule(warmups: seq<nat>, repeats: nat, seed: bv32) returns (schedule: seq<Cycle>)
    ensures |schedule| == |Conditions(warmups)| * repeats
    ensures forall repeat, position :: 1 <= repeat <= repeats && 1 <= position <= |Conditions(warmups)| ==>
              Places(schedule, MatrixOrders(Conditions(warmups), repeats, Mulberry(seed)).order, repeat, position,
                     |Conditions(warmups)| * repeats)
  {
    hide Shuffled, MatrixOrders, Rows, Reversed, Places, Filled;
    var conditions := Conditions(warmups);
    var n := |conditions|;
    var start := Mulberry(seed);
    FilledFirst(conditions, start, n * repeats);
    var rng := new Rng(start);
    schedule := [];
    var pairOrder := conditions;
    var total := n * repeats;
    for repeat := 1 to repeats + 1
      invariant fresh(rng)
      invariant MatrixOrders(conditions, repeat - 1, start).state == rng.state
      invariant repeat > 1 && repeat % 2 == 0 ==> pairOrder == MatrixOrders(conditions, repeat - 1, start).order[repeat - 2]
      invariant Filled(schedule, MatrixOrders(conditions, repeat - 1, start).order, n, repeat - 1, total)
    {
      MatrixStep(conditions, repeat, start);
      if repeat % 2 == 1 {
        var result := new Condition[n](i requires 0 <= i < n => conditions[i]);
        assert result[..] == conditions;
        ShuffleArray(result, rng);
        pairOrder := result[..];
      }
      var order := if repeat % 2 == 1 then pairOrder else Reversed(pairOrder);
      schedule := AppendRow(schedule, MatrixOrders(conditions, repeat - 1, start).order, order, n, repeat, total);
    }
    FilledAt(schedule, MatrixOrders(conditions, repeats, start).order, n, repeats, total);
  }

  lemma MatrixStep(conditions: seq<Condition>, repeats: nat, state: State)
    requires repeats > 0
    ensures var before := MatrixOrders(conditions, repeats - 1, state);
      var s := Shuffled(conditions, before.state);
      MatrixOrders(conditions, repeats, state) ==
      if repeats % 2 == 1 then Shuffle(before.order + [s.order], s.state)
      else Shuffle(before.order + [Reversed(before.order[repeats - 2])], before.state)
  {
    hide Shuffled, Reversed;
  }

  lemma FilledFirst(conditions: seq<Condition>, state: State, total: nat)
    ensures MatrixOrders(conditions, 0, state) == Shuffle([], state) && Filled([], [], |conditions|, 0, total)
  {
  }

  /** The schedule so far is the rows so far, one after another. */
  ghost predicate Filled(schedule: seq<Cycle>, orders: seq<seq<Condition>>, n: nat, rows: nat, total: nat) {
    && |orders| == rows && (forall k :: 0 <= k < rows ==> |orders[k]| == n)
    && schedule == Rows(orders, total)
  }

  function Row(order: seq<Condition>, repeat: nat, total: nat): seq<Cycle>
    requires repeat >= 1
  {
    seq(|order|, i requires 0 <= i < |order| => CycleAt(order, repeat, i + 1, total))
  }

  function Rows(orders: seq<seq<Condition>>, total: nat): seq<Cycle> {
    if orders == [] then [] else Rows(orders[..|orders| - 1], total) + Row(orders[|orders| - 1], |orders|, total)
  }

  lemma {:induction false} RowsLength(orders: seq<seq<Condition>>, n: nat, total: nat)
    requires forall k :: 0 <= k < |orders| ==> |orders[k]| == n
    ensures |Rows(orders, total)| == |orders| * n
  {
    if orders != [] {
      RowsLength(orders[..|orders| - 1], n, total);
      assert (|orders| - 1) * n + n == |orders| * n;
    }
  }

  method AppendRow(schedule: seq<Cycle>, ghost orders: seq<seq<Condition>>, order: seq<Condition>, n: nat, repeat: nat,
                   total: nat)
    returns (r: seq<Cycle>)
    requires repeat >= 1 && |order| == n && Filled(schedule, orders, n, repeat - 1, total)
    ensures Filled(r, orders + [order], n, repeat, total)
  {
    r := schedule;
    RowsLength(orders, n, total);
    for position := 1 to |order| + 1
      invariant r == schedule + Row(order, repeat, total)[..position - 1]
    {
      var cycle := |r| + 1;
      var entry := Cycle(order[position - 1], cycle, CycleId(cycle, total), repeat, position, total);
      assert entry == Row(order, repeat, total)[position - 1];
      r := r + [entry];
    }
    assert (orders + [order])[..|orders|] == orders;
  }

  lemma FilledAt(schedule: seq<Cycle>, orders: seq<seq<Condition>>, n: nat, rows: nat, total: nat)
    requires Filled(schedule, orders, n, rows, total)
    ensures |schedule| == n * rows
    ensures forall repeat, position :: 1 <= repeat <= rows && 1 <= position <= n ==>
              Places(schedule, orders, repeat, position, total)
  {
    hide Places;
    RowsLength(orders, n, total);
    forall repeat, position | 1 <= repeat <= rows && 1 <= position <= n
      ensures Places(schedule, orders, repeat, position, total)
    {
      RowsAt(orders, n, repeat, position, total);
    }
  }

  lemma {:induction false} RowsAt(orders: seq<seq<Condition>>, n: nat, repeat: nat, position: nat, total: nat)
    requires (forall k :: 0 <= k < |orders| ==> |orders[k]| == n) && 1 <= repeat <= |orders| && 1 <= position <= n
    ensures Places(Rows(orders, total), orders, repeat, position, total)
    decreases |orders|
  {
    hide CycleAt;
    var front := orders[..|orders| - 1];
    RowsLength(front, n, total);
    RowsLength(orders, n, total);
    if repeat < |orders| { RowsAt(front, n, repeat, position, total); }
  }

  // The balance of the matrix.

  /** The position of a condition in an order, counted from 1; 0 when it is not there. */
  function PositionOf(order: seq<Condition>, c: Condition): nat {
    if order == [] then 0
    else if order[|order| - 1] == c then |order|
    else PositionOf(order[..|order| - 1], c)
  }

  function TotalPosition(orders: seq<seq<Condition>>, c: Condition): nat {
    if orders == [] then 0 else TotalPosition(orders[..|orders| - 1], c) + PositionOf(orders[|orders| - 1], c)
  }

  predicate Once(order: seq<Condition>, c: Condition) { multiset(order)[c] == 1 }

  lemma {:induction false} PositionIs(order: seq<Condition>, c: Condition, i: nat)
    requires Once(order, c) && i < |order| && order[i] == c
    ensures PositionOf(order, c) == i + 1
  {
    var front, last := order[..|order| - 1], order[|order| - 1];
    assert order == front + [last];
    if i < |front| {
      assert front[i] == c && c in multiset(front);
      PositionIs(front, c, i);
    } else {
      assert last == c;
    }
  }

  lemma {:induction false} ReversedKeeps<T>(s: seq<T>)
    ensures multiset(Reversed(s)) == multiset(s)
    decreases |s|
  {
    if s != [] {
      var front, last := s[..|s| - 1], s[|s| - 1];
      ReversedKeeps(front);
      assert s == front + [last];
      assert Reversed(s) == [last] + Reversed(front);
    }
  }

  lemma ReversedPosition(order: seq<Condition>, c: Condition)
    requires Once(order, c)
    ensures PositionOf(order, c) + PositionOf(Reversed(order), c) == |order| + 1
  {
    assert c in multiset(order);
    var i :| 0 <= i < |order| && order[i] == c;
    PositionIs(order, c, i);
    ReversedKeeps(order);
    PositionIs(Reversed(order), c, |order| - 1 - i);
  }

  /** Each repeat runs every condition as often as it is listed. */
  lemma {:induction false} RepeatsPermute(conditions: seq<Condition>, repeats: nat, state: State, k: nat)
    requires k < repeats
    ensures multiset(MatrixOrders(conditions, repeats, state).order[k]) == multiset(conditions)
    ensures k % 2 == 1 ==>
              MatrixOrders(conditions, repeats, state).order[k]
              == Reversed(MatrixOrders(conditions, repeats, state).order[k - 1])
  {
    hide Shuffled, Reversed;
    var before := MatrixOrders(conditions, repeats - 1, state);
    if k < repeats - 1 {
      RepeatsPermute(conditions, repeats - 1, state, k);
    } else if repeats % 2 == 1 {
      ShuffledPermutes(conditions, before.state);
    } else {
      RepeatsPermute(conditions, repeats - 1, state, repeats - 2);
      ReversedKeeps(before.order[repeats - 2]);
    }
  }

  /** Over an even number of repeats every condition has the same total position. */
  lemma {:induction false} EvenRepeatsBalance(conditions: seq<Condition>, repeats: nat, state: State, c: Condition)
    requires repeats % 2 == 0 && Once(conditions, c)
    ensures TotalPosition(MatrixOrders(conditions, repeats, state).order, c) == repeats / 2 * (|conditions| + 1)
  {
    hide Shuffled, Reversed, PositionOf, MatrixOrders;
    if repeats == 0 {
      FilledFirst(conditions, state, 0);
    } else {
      EvenRepeatsBalance(conditions, repeats - 2, state, c);
      MatrixStep(conditions, repeats, state);
      MatrixStep(conditions, repeats - 1, state);
      var orders := MatrixOrders(conditions, repeats, state).order;
      var before := MatrixOrders(conditions, repeats - 1, state).order;
      var start := MatrixOrders(conditions, repeats - 2, state).order;
      RepeatsPermute(conditions, repeats, state, repeats - 1);
      RepeatsPermute(conditions, repeats, state, repeats - 2);
      assert orders[..repeats - 1] == before && before[..repeats - 2] == start;
      assert before[repeats - 2] == orders[repeats - 2];
      ReversedPosition(orders[repeats - 2], c);
      HalfStep(repeats, |conditions| + 1);
    }
  }

  lemma HalfStep(repeats: nat, m: nat)
    requires repeats >= 2
    ensures repeats / 2 * m == (repeats - 2) / 2 * m + m
  {
    assert repeats / 2 == (repeats - 2) / 2 + 1;
  }

  /** The command line's two increasing warmups make every condition distinct. */
  lemma ConditionsAreDistinct(warmups: seq<nat>, c: Condition)
    requires |warmups| == 2 && warmups[0] < warmups[1] && c in Conditions(warmups)
    ensures Once(Conditions(warmups), c) && |Conditions(warmups)| == 4
  {
    var s := Conditions(warmups);
    assert s == [Condition("A", warmups[0]), Condition("A", warmups[1]), Condition("B", warmups[0]),
                 Condition("B", warmups[1])];
    assert "A"[0] != "B"[0];
  }
}
