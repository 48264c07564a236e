/** Execution of the decoded module: spin(n) terminates and returns mem[0] + n modulo 2^32. */
module MiniWasmRun {
  import opened Text
  import opened ByteMemory
  import opened MiniWasm

  datatype Stack = Empty | Push(top: nat, rest: Stack)

  /** The enclosing blocks, innermost first: where a branch to each continues and the
      operand stack it keeps. */
  datatype Labels = Outermost | Inside(target: nat, kept: Stack, outer: Labels)

  datatype Frame = Frame(func: nat, pc: nat, stack: Stack, labels: Labels, locals: seq<nat>)

  datatype Frames = Host | Above(frame: Frame, callers: Frames)

  datatype Outcome = Running(frames: Frames, memory: Memory) | Returned(results: Stack, memory: Memory) | Trapped

  /** The End that closes the block whose body begins at p. */
  function MatchingEnd(body: seq<Instr>, p: nat, depth: nat): nat
    decreases |body| - p
  {
    if p >= |body| then p
    else
      match body[p]
      case End => if depth == 0 then p else MatchingEnd(body, p + 1, depth - 1)
      case Block => MatchingEnd(body, p + 1, depth + 1)
      case Loop => MatchingEnd(body, p + 1, depth + 1)
      case _ => MatchingEnd(body, p + 1, depth)
  }

  function Label(labels: Labels, k: nat): Labels {
    if k == 0 || labels.Outermost? then labels else Label(labels.outer, k - 1)
  }

  function Continue(f: Frame, callers: Frames, memory: Memory): Outcome { Running(Above(f, callers), memory) }

  function Branch(f: Frame, k: nat, callers: Frames, memory: Memory): Outcome {
    match Label(f.labels, k)
    case Outermost => Trapped
    case Inside(target, kept, outer) => Continue(f.(pc := target, stack := kept, labels := outer), callers, memory)
  }

  /** The top n values, and those values put on another stack. */
  function Top(s: Stack, n: nat): Option<Stack> {
    if n == 0 then Some(Empty)
    else
      match s
      case Empty => None
      case Push(v, rest) =>
        match Top(rest, n - 1)
        case None => None
        case Some(more) => Some(Push(v, more))
  }

  function OnTop(values: Stack, s: Stack): Stack {
    match values
    case Empty => s
    case Push(v, rest) => Push(v, OnTop(rest, s))
  }

  function Drop(s: Stack, n: nat): Stack {
    if n == 0 || s.Empty? then s else Drop(s.rest, n - 1)
  }

  /** Arguments in order: the last one was on top. */
  function Arguments(s: Stack): seq<nat> {
    match s
    case Empty => []
    case Push(v, rest) => Arguments(rest) + [v]
  }

  function Leave(results: nat, f: Frame, callers: Frames, memory: Memory): Outcome {
    match Top(f.stack, results)
    case None => Trapped
    case Some(values) =>
      match callers
      case Host => Returned(values, memory)
      case Above(caller, rest) => Continue(caller.(stack := OnTop(values, caller.stack)), rest, memory)
  }

  function Invoke(program: seq<Func>, f: Frame, callee: nat, callers: Frames, memory: Memory): Outcome {
    if callee >= |program| then Trapped
    else
      match Top(f.stack, program[callee].params)
      case None => Trapped
      case Some(arguments) =>
        var waiting := f.(pc := f.pc + 1, stack := Drop(f.stack, program[callee].params));
        Continue(Frame(callee, 0, Empty, Outermost, Arguments(arguments)), Above(waiting, callers), memory)
  }

  function Binary(f: Frame, op: (nat, nat) -> int, callers: Frames, memory: Memory): Outcome {
    match f.stack
    case Push(b, Push(a, rest)) =>
      Continue(f.(pc := f.pc + 1, stack := Push(op(a, b) % TWO_TO_32, rest)), callers, memory)
    case _ => Trapped
  }

  /** One instruction; a trap stands for every undefined or out-of-bounds case. */
  function Execute(program: seq<Func>, instr: Instr, f: Frame, callers: Frames, memory: Memory): Outcome
    requires f.func < |program|
  {
    var next := f.(pc := f.pc + 1);
    match instr
    case Block =>
      var exit := MatchingEnd(program[f.func].body, f.pc + 1, 0) + 1;
      Continue(next.(labels := Inside(exit, f.stack, f.labels)), callers, memory)
    case Loop => Continue(next.(labels := Inside(f.pc, f.stack, f.labels)), callers, memory)
    case End =>
      (match f.labels
       case Inside(_, _, outer) => Continue(next.(labels := outer), callers, memory)
       case Outermost => Leave(program[f.func].results, f, callers, memory))
    case Br(k) => Branch(f, k, callers, memory)
    case BrIf(k) =>
      (match f.stack
       case Empty => Trapped
       case Push(v, rest) =>
         if v != 0 then Branch(f.(stack := rest), k, callers, memory)
         else Continue(next.(stack := rest), callers, memory))
    case Call(callee) => Invoke(program, f, callee, callers, memory)
    case LocalGet(i) =>
      if i >= |f.locals| then Trapped else Continue(next.(stack := Push(f.locals[i], f.stack)), callers, memory)
    case LocalSet(i) =>
      (match f.stack
       case Empty => Trapped
       case Push(v, rest) =>
         if i >= |f.locals| then Trapped
         else Continue(next.(stack := rest, locals := f.locals[i := v]), callers, memory))
    case Load(offset) =>
      (match f.stack
       case Empty => Trapped
       case Push(a, rest) =>
         if !Mapped(memory, a + offset, 4) then Trapped
         else Continue(next.(stack := Push(ByteMemory.Load(memory, a + offset, 4), rest)), callers, memory))
    case Store(offset) =>
      (match f.stack
       case Push(v, Push(a, rest)) =>
         if !Mapped(memory, a + offset, 4) then Trapped
         else Continue(next.(stack := rest), callers, ByteMemory.Store(memory, a + offset, 4, v))
       case _ => Trapped)
    case Const(v) => Continue(next.(stack := Push(v, f.stack)), callers, memory)
    case Eqz =>
      (match f.stack
       case Empty => Trapped
       case Push(v, rest) => Continue(next.(stack := Push(if v == 0 then 1 else 0, rest)), callers, memory))
    case Add => Binary(f, (a, b) => a + b, callers, memory)
    case Sub => Binary(f, (a, b) => a - b, callers, memory)
  }

  function Step(program: seq<Func>, o: Outcome): Outcome {
    match o
    case Running(Above(f, callers), memory) =>
      if f.func >= |program| || f.pc >= |program[f.func].body| then Trapped
      else Execute(program, program[f.func].body[f.pc], f, callers, memory)
    case Running(Host, memory) => Trapped
    case _ => o
  }

  function Run(program: seq<Func>, o: Outcome, steps: nat): Outcome
    decreases steps
  {
    if steps == 0 then o else Run(program, Step(program, o), steps - 1)
  }

  lemma {:induction false} RunAdds(program: seq<Func>, o: Outcome, a: nat, b: nat)
    ensures Run(program, o, a + b) == Run(program, Run(program, o, a), b)
    decreases a
  {
    if a > 0 { RunAdds(program, Step(program, o), a - 1, b); }
  }

  // The instructions of the decoded program.

  lemma SpinAt(pc: nat)
    requires pc < 16
    ensures |PROGRAM| == 2 && PROGRAM[0] == Func(1, 1, SPIN) && |SPIN| == 16
    ensures SPIN[pc] == [Block, Loop, LocalGet(0), Eqz, BrIf(1), Call(1), LocalGet(0), Const(1), Sub, LocalSet(0),
                         Br(0), End, End, Const(0), Instr.Load(0), End][pc]
  {
  }

  lemma BumpAt(pc: nat)
    requires pc < 7
    ensures |PROGRAM| == 2 && PROGRAM[1] == Func(0, 0, BUMP) && |BUMP| == 7
    ensures BUMP[pc] == [Const(0), Const(0), Instr.Load(0), Const(1), Add, Instr.Store(0), End][pc]
  {
  }

  lemma BumpLoads(callers: Frames, m: Memory)
    requires Mapped(m, 0, 4)
    ensures Run(PROGRAM, Running(Above(Frame(1, 0, Empty, Outermost, []), callers), m), 4) ==
            Continue(Frame(1, 4, Push(1, Push(ByteMemory.Load(m, 0, 4), Push(0, Empty))), Outermost, []), callers, m)
  {
    hide ByteMemory.Load, ByteMemory.Store, SPIN, BUMP, PROGRAM;
    BumpAt(0); BumpAt(1); BumpAt(2); BumpAt(3);
  }

  lemma BumpAdds(w: nat, callers: Frames, m: Memory)
    ensures Run(PROGRAM, Continue(Frame(1, 4, Push(1, Push(w, Push(0, Empty))), Outermost, []), callers, m), 1) ==
            Continue(Frame(1, 5, Push((w + 1) % TWO_TO_32, Push(0, Empty)), Outermost, []), callers, m)
  {
    hide SPIN, BUMP, PROGRAM;
    BumpAt(4);
  }

  lemma BumpStores(w: nat, caller: Frame, callers: Frames, m: Memory)
    requires Mapped(m, 0, 4)
    ensures Run(PROGRAM, Continue(Frame(1, 5, Push(w, Push(0, Empty)), Outermost, []), Above(caller, callers), m), 2) ==
            Continue(caller, callers, ByteMemory.Store(m, 0, 4, w))
  {
    hide ByteMemory.Load, ByteMemory.Store, SPIN, BUMP, PROGRAM;
    BumpAt(5); BumpAt(6);
  }

  /** A call of bump adds one to the word at 0 and returns to its caller. */
  lemma BumpRuns(caller: Frame, callers: Frames, m: Memory)
    requires Mapped(m, 0, 4)
    ensures Run(PROGRAM, Running(Above(Frame(1, 0, Empty, Outermost, []), Above(caller, callers)), m), 7) ==
            Continue(caller, callers, ByteMemory.Store(m, 0, 4, (ByteMemory.Load(m, 0, 4) + 1) % TWO_TO_32))
  {
    hide ByteMemory.Load, ByteMemory.Store, Run, PROGRAM;
    BumpLoads(Above(caller, callers), m);
    var w := ByteMemory.Load(m, 0, 4);
    BumpAdds(w, Above(caller, callers), m);
    BumpStores((w + 1) % TWO_TO_32, caller, callers, m);
    RunAdds(PROGRAM, Running(Above(Frame(1, 0, Empty, Outermost, []), Above(caller, callers)), m), 4, 3);
    RunAdds(PROGRAM, Continue(Frame(1, 4, Push(1, Push(w, Push(0, Empty))), Outermost, []), Above(caller, callers), m),
            1, 2);
  }

  // One turn of the loop in spin, from its Loop instruction.

  const EXIT: Labels := Inside(13, Empty, Outermost)

  function Head(n: nat): Frame { Frame(0, 1, Empty, EXIT, [n]) }

  /** The loop calls bump when n is not zero. */
  lemma TurnBegins(n: nat, m: Memory)
    requires n > 0
    ensures Run(PROGRAM, Continue(Head(n), Host, m), 5) ==
            Running(Above(Frame(1, 0, Empty, Outermost, []),
                          Above(Frame(0, 6, Empty, Inside(1, Empty, EXIT), [n]), Host)), m)
  {
    hide SPIN, BUMP, PROGRAM;
    SpinAt(1); SpinAt(2); SpinAt(3); SpinAt(4); SpinAt(5);
    BumpAt(0);
    var o0 := Continue(Head(n), Host, m);
    var o3 := Step(PROGRAM, Step(PROGRAM, Step(PROGRAM, o0)));
    assert o3 == Continue(Frame(0, 4, Push(0, Empty), Inside(1, Empty, EXIT), [n]), Host, m);
    assert Run(PROGRAM, o3, 2) == Step(PROGRAM, Step(PROGRAM, o3));
  }

  lemma TurnEnds(n: nat, m: Memory)
    requires 0 < n < TWO_TO_32
    ensures Run(PROGRAM, Continue(Frame(0, 6, Empty, Inside(1, Empty, EXIT), [n]), Host, m), 5) ==
            Continue(Head(n - 1), Host, m)
  {
    hide SPIN, BUMP, PROGRAM;
    SpinAt(6); SpinAt(7); SpinAt(8); SpinAt(9); SpinAt(10);
    var o0 := Continue(Frame(0, 6, Empty, Inside(1, Empty, EXIT), [n]), Host, m);
    var o3 := Step(PROGRAM, Step(PROGRAM, Step(PROGRAM, o0)));
    assert o3 == Continue(Frame(0, 9, Push(n - 1, Empty), Inside(1, Empty, EXIT), [n]), Host, m);
    assert [n][0 := n - 1] == [n - 1];
    assert Run(PROGRAM, o3, 2) == Step(PROGRAM, Step(PROGRAM, o3));
  }

  function Bumped(m: Memory): Memory
    requires Mapped(m, 0, 4)
  {
    ByteMemory.Store(m, 0, 4, (ByteMemory.Load(m, 0, 4) + 1) % TWO_TO_32)
  }

  lemma Turn(n: nat, m: Memory)
    requires 0 < n < TWO_TO_32 && Mapped(m, 0, 4)
    ensures Run(PROGRAM, Continue(Head(n), Host, m), 17) == Continue(Head(n - 1), Host, Bumped(m))
  {
    hide Run, PROGRAM, ByteMemory.Store, ByteMemory.Load;
    var waiting := Frame(0, 6, Empty, Inside(1, Empty, EXIT), [n]);
    TurnBegins(n, m);
    BumpRuns(waiting, Host, m);
    TurnEnds(n, Bumped(m));
    RunAdds(PROGRAM, Continue(Head(n), Host, m), 5, 12);
    RunAdds(PROGRAM, Run(PROGRAM, Continue(Head(n), Host, m), 5), 7, 5);
  }

  lemma LoopEnds(m: Memory)
    ensures Run(PROGRAM, Continue(Head(0), Host, m), 4) == Continue(Frame(0, 13, Empty, Outermost, [0]), Host, m)
  {
    hide SPIN, BUMP, PROGRAM;
    SpinAt(1); SpinAt(2); SpinAt(3); SpinAt(4);
    assert Label(Inside(1, Empty, EXIT), 1) == EXIT;
  }

  lemma SpinLoads(m: Memory)
    requires Mapped(m, 0, 4)
    ensures Run(PROGRAM, Continue(Frame(0, 13, Empty, Outermost, [0]), Host, m), 3)
            == Returned(Push(ByteMemory.Load(m, 0, 4), Empty), m)
  {
    hide SPIN, BUMP, PROGRAM, ByteMemory.Load;
    SpinAt(13); SpinAt(14); SpinAt(15);
    assert Top(Push(ByteMemory.Load(m, 0, 4), Empty), 1) == Some(Push(ByteMemory.Load(m, 0, 4), Empty)) by {
      assert Top(Empty, 0) == Some(Empty);
    }
  }

  lemma LastTurn(m: Memory)
    requires Mapped(m, 0, 4)
    ensures Run(PROGRAM, Continue(Head(0), Host, m), 7) == Returned(Push(ByteMemory.Load(m, 0, 4), Empty), m)
  {
    hide Run, PROGRAM, ByteMemory.Load;
    LoopEnds(m);
    SpinLoads(m);
    RunAdds(PROGRAM, Continue(Head(0), Host, m), 4, 3);
  }

  lemma SpinEnters(n: nat, m: Memory)
    ensures Run(PROGRAM, Continue(Frame(0, 0, Empty, Outermost, [n]), Host, m), 1) == Continue(Head(n), Host, m)
  {
    ExitOfSpin();
    hide SPIN, BUMP, PROGRAM, MatchingEnd;
    SpinAt(0);
  }

  lemma LoopEndsAt12()
    ensures MatchingEnd(SPIN, 7, 1) == 12
  {
    hide SPIN;
    SpinAt(12); SpinAt(11); SpinAt(10); SpinAt(9); SpinAt(8); SpinAt(7);
    assert MatchingEnd(SPIN, 12, 0) == 12;
    assert MatchingEnd(SPIN, 11, 1) == 12;
    assert MatchingEnd(SPIN, 9, 1) == 12;
  }

  lemma ExitOfSpin()
    ensures MatchingEnd(SPIN, 1, 0) == 12
  {
    hide SPIN;
    LoopEndsAt12();
    SpinAt(6); SpinAt(5); SpinAt(4); SpinAt(3); SpinAt(2); SpinAt(1);
    assert MatchingEnd(SPIN, 5, 1) == 12;
    assert MatchingEnd(SPIN, 3, 1) == 12;
  }

  lemma BumpedWord(m: Memory)
    requires Mapped(m, 0, 4)
    ensures Mapped(Bumped(m), 0, 4) && Bumped(m).Keys == m.Keys
    ensures ByteMemory.Load(Bumped(m), 0, 4) == (ByteMemory.Load(m, 0, 4) + 1) % TWO_TO_32
    ensures forall i :: i in m && !(0 <= i < 4) ==> Bumped(m)[i] == m[i]
  {
    Widths();
    StoreFrame(m, 0, 4, (ByteMemory.Load(m, 0, 4) + 1) % TWO_TO_32);
    LoadStored(m, 0, 4, (ByteMemory.Load(m, 0, 4) + 1) % TWO_TO_32);
  }

  /** The state a spin of n ends in. */
  ghost predicate Spun(m: Memory, n: nat, o: Outcome)
    requires Mapped(m, 0, 4)
  {
    && o.Returned? && o.memory.Keys == m.Keys
    && o.results == Push((ByteMemory.Load(m, 0, 4) + n) % TWO_TO_32, Empty)
    && Mapped(o.memory, 0, 4) && ByteMemory.Load(o.memory, 0, 4) == (ByteMemory.Load(m, 0, 4) + n) % TWO_TO_32
    && forall i :: i in m && !(0 <= i < 4) ==> o.memory[i] == m[i]
  }

  lemma {:induction false} LoopReturns(n: nat, m: Memory) returns (steps: nat)
    requires n < TWO_TO_32 && Mapped(m, 0, 4)
    ensures Spun(m, n, Run(PROGRAM, Continue(Head(n), Host, m), steps))
    decreases n
  {
    hide Run, PROGRAM, ByteMemory.Store, ByteMemory.Load, Bumped;
    LoadBound(m, 0, 4);
    Widths();
    if n == 0 {
      LastTurn(m);
      steps := 7;
    } else {
      Turn(n, m);
      BumpedWord(m);
      var rest := LoopReturns(n - 1, Bumped(m));
      RunAdds(PROGRAM, Continue(Head(n), Host, m), 17, rest);
      WrapAdds(ByteMemory.Load(m, 0, 4), n);
      steps := 17 + rest;
    }
  }

  lemma WrapAdds(v: nat, n: nat)
    requires n > 0
    ensures ((v + 1) % TWO_TO_32 + (n - 1)) % TWO_TO_32 == (v + n) % TWO_TO_32
  {
  }

  /** Invoking spin(n) terminates: it returns mem[0] + n modulo 2^32, stores the same value
      there, and touches no other byte. */
  lemma SpinReturns(n: nat, m: Memory) returns (steps: nat)
    requires n < TWO_TO_32 && Mapped(m, 0, 4)
    ensures Spun(m, n, Run(PROGRAM, Continue(Frame(0, 0, Empty, Outermost, [n]), Host, m), steps))
  {
    SpinEnters(n, m);
    hide Run, PROGRAM;
    var rest := LoopReturns(n, m);
    RunAdds(PROGRAM, Continue(Frame(0, 0, Empty, Outermost, [n]), Host, m), 1, rest);
    steps := 1 + rest;
  }

  // The driver.

  lemma {:induction false} StoppedStays(o: Outcome, steps: nat)
    requires !o.Running?
    ensures Run(PROGRAM, o, steps) == o
    decreases steps
  {
    if steps > 0 { StoppedStays(o, steps - 1); }
  }

  method CallSpin(n: nat, m: Memory) returns (got: nat, m': Memory)
    requires n < TWO_TO_32 && Mapped(m, 0, 4)
    ensures got == (ByteMemory.Load(m, 0, 4) + n) % TWO_TO_32
    ensures Mapped(m', 0, 4) && ByteMemory.Load(m', 0, 4) == got
  {
    hide Step, PROGRAM, ByteMemory.Load;
    var o := Continue(Frame(0, 0, Empty, Outermost, [n]), Host, m);
    ghost var first := o;
    ghost var steps := SpinReturns(n, m);
    ghost var k := 0;
    while o.Running?
      invariant k <= steps && o == Run(PROGRAM, first, k)
      decreases steps - k
    {
      RunAdds(PROGRAM, first, k, 1);
      o := Step(PROGRAM, o);
      k := k + 1;
      if k > steps { RunAdds(PROGRAM, first, steps, 1); StoppedStays(Run(PROGRAM, first, steps), 1); }
    }
    RunAdds(PROGRAM, first, k, steps - k);
    StoppedStays(o, steps - k);
    return o.results.top, o.memory;
  }

  /** ECMAScript's ToInt32 and then reading the same bits as unsigned. */
  function Unsigned32(x: nat): nat { x % TWO_TO_32 }

  /** Beyond this a JavaScript number holds even integers only. */
  const EXACT := 0x20_0000_0000_0000

  /** A sum as JavaScript numbers add: an odd one beyond 2^53 goes to the multiple of four
      next to it. */
  function Rounded(n: nat): nat {
    if n <= EXACT || n % 2 == 0 then n else if n % 4 == 1 then n - 1 else n + 1
  }

  /** The word in memory after that many calls. */
  function Counter(spins: nat, round: nat): nat { (spins * round) % TWO_TO_32 }

  /** The round whose sum the driver cannot hold. */
  predicate RoundsAway(spins: nat, round: nat) {
    var sum := Counter(spins, round) + spins;
    sum > EXACT && sum % 2 == 1
  }

  /** The driver loop on a machine without faults: it reports a mismatch exactly if the sum of
      some round cannot be held. */
  method Drive(spins: nat, rounds: nat) returns (mismatch: bool, expected: nat)
    requires spins <= EXACT
    ensures mismatch <==> exists round :: 0 <= round < rounds && RoundsAway(spins, round)
    ensures !mismatch ==> expected == Counter(spins, rounds)
  {
    hide Counter, RoundsAway, Rounded, ByteMemory.Load;
    NoCalls(spins);
    var m: Memory := map[0 := 0, 1 := 0, 2 := 0, 3 := 0];
    expected := 0;
    for round := 0 to rounds
      invariant Mapped(m, 0, 4) && ByteMemory.Load(m, 0, 4) == expected < TWO_TO_32
      invariant expected == Counter(spins, round)
      invariant forall r :: 0 <= r < round ==> !RoundsAway(spins, r)
    {
      var got;
      got, m := CallSpin(Unsigned32(spins), m);
      CounterStep(spins, round);
      expected := Unsigned32(Rounded(expected + spins));
      if got != expected { return true, expected; }
    }
    return false, expected;
  }

  lemma NoCalls(spins: nat)
    ensures Counter(spins, 0) == 0
    ensures ByteMemory.Load(map[0 := 0, 1 := 0, 2 := 0, 3 := 0], 0, 4) == 0
  {
  }

  lemma CounterStep(spins: nat, round: nat)
    requires spins <= EXACT
    ensures Counter(spins, round + 1) == (Counter(spins, round) + Unsigned32(spins)) % TWO_TO_32
    ensures Unsigned32(Rounded(Counter(spins, round) + spins)) == Counter(spins, round + 1)
       <==> !RoundsAway(spins, round)
  {
    RoundAdds(spins, round);
    SumWraps(Counter(spins, round), spins);
    RoundedIff(Counter(spins, round) + spins);
    hide Counter, Rounded;
    assert Counter(spins, round + 1) == (Counter(spins, round) + spins) % TWO_TO_32 by { CounterAdds(spins, round); }
  }

  lemma CounterAdds(spins: nat, round: nat)
    ensures Counter(spins, round + 1) == (Counter(spins, round) + spins) % TWO_TO_32
  {
    RoundAdds(spins, round);
  }

  lemma RoundedIff(n: nat)
    requires n < 2 * EXACT
    ensures n % TWO_TO_32 == Rounded(n) % TWO_TO_32 <==> !(n > EXACT && n % 2 == 1)
  {
    if n > EXACT && n % 2 == 1 {
      assert n == 4 * (n / 4) + n % 4;
    }
  }

  /** An odd factor reaches every residue of a power of two. */
  lemma {:induction false} OddReaches(s: nat, t: nat, bits: nat) returns (k: nat)
    requires s % 2 == 1
    ensures Power(bits) > 0 && (s * k - t) % Power(bits) == 0
  {
    if bits == 0 { return 0; }
    var half := Power(bits - 1);
    k := OddReaches(s, t, bits - 1);
    if (s * k - t) % (2 * half) != 0 {
      OtherHalf(s * k - t, s, half);
      assert s * (k + half) - t == s * k - t + s * half;
      k := k + half;
    }
  }

  function Power(bits: nat): nat { if bits == 0 then 1 else 2 * Power(bits - 1) }

  lemma OtherHalf(x: int, s: nat, half: nat)
    requires half > 0 && s % 2 == 1 && x % half == 0 && x % (2 * half) != 0
    ensures (x + s * half) % (2 * half) == 0
  {
    var q := x / half;
    assert x == half * q;
    if q % 2 == 0 {
      assert x == (2 * half) * (q / 2);
      MultipleIsZero(2 * half, q / 2);
      assert false;
    }
    assert q + s == 2 * ((q + s) / 2);
    assert x + s * half == half * (q + s) == (2 * half) * ((q + s) / 2);
    MultipleIsZero(2 * half, (q + s) / 2);
  }

  lemma MultipleIsZero(d: int, k: int)
    requires d > 0
    ensures (d * k) % d == 0
  {
    var q, r := (d * k) / d, (d * k) % d;
    assert d * k == d * q + r;
    Difference(d, k, q);
    if k > q { AtLeast(d, k - q); }
    if k < q { AtLeast(d, q - k); }
  }

  lemma Difference(d: int, k: int, q: int)
    ensures d * (k - q) == d * k - d * q && d * (q - k) == d * q - d * k
  {
  }

  lemma AtLeast(d: int, n: int)
    requires d > 0 && n >= 1
    ensures d * n >= d
  {
  }

  lemma PowerIsWord()
    ensures Power(32) == TWO_TO_32
  {
    assert Power(8) == 0x100;
    PowerAdds(8, 8);
    PowerAdds(16, 16);
  }

  lemma {:induction false} PowerAdds(a: nat, b: nat)
    ensures Power(a + b) == Power(a) * Power(b)
  {
    if a > 0 { PowerAdds(a - 1, b); }
  }

  /** No number of rounds makes the driver report corruption that is not there exactly for even
      spin counts and for those up to 2^53 - 2^32 + 2. */
  lemma NeverMismatchesIff(spins: nat)
    requires spins <= EXACT
    ensures (forall round: nat :: !RoundsAway(spins, round)) <==> spins % 2 == 0 || spins <= EXACT - TWO_TO_32 + 2
  {
    if spins % 2 == 0 {
      forall round: nat ensures !RoundsAway(spins, round) { EvenStaysEven(spins, round); }
    } else if spins > EXACT - TWO_TO_32 + 2 {
      var round := OddReaches(spins, TWO_TO_32 - 2, 32);
      PowerIsWord();
      LastEven(spins * round);
      assert RoundsAway(spins, round);
    } else {
      forall round: nat ensures !RoundsAway(spins, round) { SmallStaysExact(spins, round); }
    }
  }

  lemma EvenStaysEven(spins: nat, round: nat)
    requires spins % 2 == 0
    ensures ((spins * round) % TWO_TO_32 + spins) % 2 == 0
  {
    assert spins * round == 2 * (spins / 2 * round);
    EvenResidue(spins / 2 * round);
  }

  lemma EvenResidue(n: nat)
    ensures (2 * n) % TWO_TO_32 % 2 == 0
  {
    assert 2 * n == TWO_TO_32 * (2 * n / TWO_TO_32) + (2 * n) % TWO_TO_32;
  }

  lemma LastEven(n: nat)
    requires (n - (TWO_TO_32 - 2)) % TWO_TO_32 == 0
    ensures n % TWO_TO_32 == TWO_TO_32 - 2
  {
  }

  lemma SmallStaysExact(spins: nat, round: nat)
    requires spins % 2 == 1 && spins <= EXACT - TWO_TO_32 + 2
    ensures !RoundsAway(spins, round)
  {
    var residue := (spins * round) % TWO_TO_32;
    assert residue == TWO_TO_32 - 1 ==> (residue + spins) % 2 == 0;
  }

  lemma SumWraps(v: nat, n: nat)
    ensures (v + n % TWO_TO_32) % TWO_TO_32 == (v + n) % TWO_TO_32
  {
  }

  lemma RoundAdds(spins: nat, round: nat)
    ensures ((spins * round) % TWO_TO_32 + spins) % TWO_TO_32 == (spins * (round + 1)) % TWO_TO_32
  {
    assert spins * (round + 1) == spins * round + spins;
    SumWraps(spins, spins * round);
  }
}
