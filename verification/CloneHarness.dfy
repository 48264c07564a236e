/** The verification loops of repro-c.c on a machine without faults: run_clone, run_churn and
    run_churn_mem never report a mismatch, and when each of them makes progress. */
module CloneHarness {
  import opened Text
  import opened ByteMemory
  import opened CloneMachine
  import opened CloneSpin
  import opened CloneEntry

  datatype Verdict = Pass | Mismatch | Stuck

  /** The C cast in n = (uint32_t)(the smaller of the batch and what is left). */
  function BatchSize(total: nat, batch: nat, reached: nat): nat
    requires reached <= total
  {
    Wrap32(if batch < total - reached then batch else total - reached)
  }

  /** Some round would ask for no iteration at all, and so would every later one. */
  predicate Stalls(total: nat, batch: nat, reached: nat)
    requires reached <= total
    decreases total - reached
  {
    reached < total &&
    (BatchSize(total, batch, reached) == 0 || Stalls(total, batch, reached + BatchSize(total, batch, reached)))
  }

  predicate Completes(total: nat, batch: nat) { !Stalls(total, batch, 0) }

  lemma BatchFits(total: nat, batch: nat, reached: nat)
    requires reached <= total
    ensures reached + BatchSize(total, batch, reached) <= total
  {
  }

  lemma {:induction false} SmallBatchNeverStalls(total: nat, batch: nat, reached: nat)
    requires reached <= total && 0 < batch < TWO_TO_32
    ensures !Stalls(total, batch, reached)
    decreases total - reached
  {
    if reached < total {
      assert BatchSize(total, batch, reached) == if batch < total - reached then batch else total - reached;
      SmallBatchNeverStalls(total, batch, reached + BatchSize(total, batch, reached));
    }
  }

  /** A batch of zero, or one that the cast can turn into zero, stalls on a total of 2^32. */
  lemma OtherBatchStalls(batch: nat) returns (total: nat)
    requires batch == 0 || TWO_TO_32 <= batch
    ensures total < TWO_TO_64 && !Completes(total, batch)
  {
    total := TWO_TO_32;
    assert BatchSize(total, batch, 0) == 0;
  }

  /** Every 64-bit total can be completed exactly for the batch sizes that fit 32 bits. */
  lemma EveryTotalCompletesIff(batch: nat)
    requires batch < TWO_TO_64
    ensures (forall total :: 0 <= total < TWO_TO_64 ==> Completes(total, batch)) <==> 0 < batch < TWO_TO_32
  {
    if 0 < batch < TWO_TO_32 {
      forall total | 0 <= total < TWO_TO_64 ensures Completes(total, batch) {
        SmallBatchNeverStalls(total, batch, 0);
      }
    } else {
      var total := OtherBatchStalls(batch);
    }
  }

  // One call of clone_entry, executed.

  lemma {:induction false} CallerStays(m: Machine, steps: nat)
    requires m.pc == CALLER
    ensures Run(Running(m), steps) == Running(m)
    decreases steps
  {
    if steps > 0 { CallerStays(m, steps - 1); }
  }

  lemma {:induction false} FaultStays(steps: nat)
    ensures Run(Fault, steps) == Fault
    decreases steps
  {
    if steps > 0 { FaultStays(steps - 1); }
  }

  method Execute64(l: Layout, m: Machine, n: nat, ghost word: nat, ghost cell: nat) returns (m': Machine)
    requires Invoked(l, m, n, word, cell)
    ensures Returned(l, m, m', n, word, cell)
  {
    hide Step, Run, Invoked, Returned;
    ghost var steps, last := CloneEntryReturns(l, m, n, word, cell);
    assert last.pc == CALLER by { ReturnsToCaller(l, m, last, n, word, cell); }
    var o := Running(m);
    ghost var k := 0;
    RunNone(o);
    while o.Running? && o.m.pc != CALLER
      invariant k <= steps && o == Run(Running(m), k)
      decreases steps - k
    {
      if k == steps { RunEnds(o, last); }
      OneStep(Running(m), k);
      o := Step(o);
      k := k + 1;
    }
    RunAdds(Running(m), k, steps - k);
    if o.Fault? { FaultStays(steps - k); } else { CallerStays(o.m, steps - k); }
    m' := o.m;
  }

  lemma ReturnsToCaller(l: Layout, m: Machine, m': Machine, n: nat, word: nat, cell: nat)
    requires Returned(l, m, m', n, word, cell)
    ensures m'.pc == CALLER
  {
    hide Cells, CallTouches;
  }

  lemma RunEnds(o: Outcome, last: Machine)
    requires o == Running(last) && last.pc == CALLER
    ensures !(o.Running? && o.m.pc != CALLER)
  {
  }

  lemma OneStep(o: Outcome, k: nat)
    ensures Run(o, k + 1) == Step(Run(o, k))
  {
    hide Step;
    RunAdds(o, k, 1);
    RunOne(Run(o, k));
  }

  lemma RunOne(o: Outcome)
    ensures Run(o, 1) == Step(o)
  {
    hide Step;
  }

  // The three loops. Registers the caller holds are arbitrary.

  /** The machine as clone_entry receives it, its return address pushed and its code patched. */
  function Call(l: Layout, regs: Regs, mem: Memory, n: nat, patch: nat): Machine
    requires Mapped(mem, l.sp, 8) && l.sp >= 0 && l.instance >= 0x100 && l.budget >= 0
  {
    Machine(0, regs.(rsp := l.sp, rdi := SPIN_CLONE, rsi := l.instance - 0x100, rdx := l.budget, rcx := n),
            Flags(false, false), Store(mem, l.sp, 8, CALLER), patch)
  }

  predicate SavedRegs(regs: Regs) {
    regs.rbp < TWO_TO_64 && regs.r12 < TWO_TO_64 && regs.r13 < TWO_TO_64 && regs.r14 < TWO_TO_64
  }

  lemma CallIsInvoked(l: Layout, regs: Regs, mem: Memory, n: nat, patch: nat, word: nat, cell: nat)
    requires Cells(l, mem, word, cell) && l.instance >= 0x100 && SavedRegs(regs) && n < TWO_TO_32
    requires word < TWO_TO_32 && cell < TWO_TO_32
    ensures Mapped(mem, l.sp, 8) && l.sp >= 0 && l.budget >= 0
    ensures Invoked(l, Call(l, regs, mem, n, patch), n, word, cell)
  {
    hide Load, Store, Mapped, Placed, Instance;
    Widths();
    Bounds(l, mem);
    StackIsMapped(l, mem, l.sp, 8);
    CellsAfterStack(l, mem, word, cell, l.sp, 8, CALLER);
    LoadStored(mem, l.sp, 8, CALLER);
  }

  /** One call as the harness sees it: the value returned, the two words and the memory, the
      same whatever immediate the code was patched with. */
  method Round(l: Layout, regs: Regs, mem: Memory, n: nat, patch: nat, ghost word: nat, ghost cell: nat)
    returns (got: nat, inWord: nat, inCell: nat, mem': Memory)
    requires Cells(l, mem, word, cell) && l.instance >= 0x100 && SavedRegs(regs) && n < TWO_TO_32
    requires word < TWO_TO_32 && cell < TWO_TO_32
    ensures got == inWord == Wrap32(word + n) && inCell == Wrap32(cell + n)
    ensures Cells(l, mem', Wrap32(word + n), Wrap32(cell + n))
  {
    hide Invoked, Load, Mapped, Instance, CallTouches;
    CallIsInvoked(l, regs, mem, n, patch, word, cell);
    var m := Execute64(l, Call(l, regs, mem, n, patch), n, word, cell);
    Bounds(l, m.memory);
    return m.regs.rax, Load(m.memory, l.base, 4), Load(m.memory, l.Cell(), 4), m.memory;
  }

  lemma Accumulates(reached: nat, n: nat)
    ensures Wrap32(Wrap32(reached) + n) == Wrap32(reached + n)
  {
  }

  // What the harness maps and writes.

  const PAGE := 4096
  const USABLE := 65536

  /** mmap gives zeroed bytes, also where something was mapped before. */
  function Zeroed(mem: Memory, a: int, size: nat): Memory {
    mem + (map i: int | a <= i < a + size && InArea(i, a, size) :: 0)
  }

  function Unmapped(mem: Memory, a: int, size: nat): Memory {
    mem - (set i: int | a <= i < a + size && InArea(i, a, size))
  }

  predicate InArea(i: int, a: int, size: nat) { a <= i < a + size }

  /** The addresses that mmap chose for an instance page, a budget page and a linear memory. */
  datatype Pages = Pages(inst: nat, budget: nat, base: nat)
  {
    function At(sp: int): Layout { Layout(sp, inst + 0x100, budget + 0x100, base) }
  }

  /** mmap chooses addresses apart from each other and from the caller's stack. */
  predicate Apart(p: Pages, sp: int) {
    && 128 <= sp && sp + 8 < TWO_TO_64 && 0 <= p.inst && p.inst + PAGE <= TWO_TO_64
    && 0 <= p.budget && p.budget + PAGE <= TWO_TO_64 && 0 <= p.base && p.base + USABLE <= TWO_TO_64
    && Disjoint(sp - 128, 136, p.inst, PAGE) && Disjoint(sp - 128, 136, p.budget, PAGE)
    && Disjoint(sp - 128, 136, p.base, USABLE) && Disjoint(p.inst, PAGE, p.budget, PAGE)
    && Disjoint(p.inst, PAGE, p.base, USABLE) && Disjoint(p.budget, PAGE, p.base, USABLE)
  }

  /** Stack and linear memory, which outlive the other pages, and the word in the latter. */
  predicate Lasting(mem: Memory, sp: int, base: int, word: nat) {
    Mapped(mem, sp - 128, 136) && Mapped(mem, base, 4) && Load(mem, base, 4) == word
  }

  /** Fresh instance and budget pages, with the stack limit and the memory base written. */
  function SetUp(mem: Memory, p: Pages): Memory {
    var clean := Zeroed(Zeroed(mem, p.inst, PAGE), p.budget, PAGE);
    var limited := Store(clean, p.inst + 0xa0, 8, TWO_TO_64 - 1);
    StoreFrame(clean, p.inst + 0xa0, 8, TWO_TO_64 - 1);
    Store(limited, p.inst + 0x11f, 8, p.base)
  }

  lemma {:induction false} LoadZeroed(mem: Memory, a: int, size: nat)
    requires Mapped(mem, a, size) && forall i :: a <= i < a + size ==> mem[i] == 0
    ensures Load(mem, a, size) == 0
    decreases size
  {
    if size > 0 { LoadZeroed(mem, a + 1, size - 1); }
  }

  lemma ZeroedFrame(mem: Memory, a: int, size: nat, b: int, width: nat)
    requires Mapped(mem, b, width) && Disjoint(a, size, b, width)
    ensures Mapped(Zeroed(mem, a, size), b, width) && Load(Zeroed(mem, a, size), b, width) == Load(mem, b, width)
  {
    LoadFrame(mem, Zeroed(mem, a, size), b, width);
  }

  lemma ZeroedReads(mem: Memory, a: int, size: nat, b: int, width: nat)
    requires a <= b && b + width <= a + size
    ensures Mapped(Zeroed(mem, a, size), b, width) && Load(Zeroed(mem, a, size), b, width) == 0
  {
    LoadZeroed(Zeroed(mem, a, size), b, width);
  }

  /** Before the two writes. */
  lemma FreshPages(mem: Memory, p: Pages, sp: int, word: nat)
    requires Apart(p, sp) && Lasting(mem, sp, p.base, word)
    ensures var clean := Zeroed(Zeroed(mem, p.inst, PAGE), p.budget, PAGE);
      && Lasting(clean, sp, p.base, word) && Mapped(clean, p.inst + 0xa0, 8) && Mapped(clean, p.inst + 0x11f, 8)
      && Mapped(clean, p.budget + 0x113, 4) && Load(clean, p.budget + 0x113, 4) == 0
  {
    hide Load, Zeroed;
    var one := Zeroed(mem, p.inst, PAGE);
    ZeroedFrame(mem, p.inst, PAGE, sp - 128, 136);
    ZeroedFrame(mem, p.inst, PAGE, p.base, 4);
    ZeroedFrame(one, p.budget, PAGE, sp - 128, 136);
    ZeroedFrame(one, p.budget, PAGE, p.base, 4);
    ZeroedReads(mem, p.inst, PAGE, p.inst + 0xa0, 8);
    ZeroedReads(mem, p.inst, PAGE, p.inst + 0x11f, 8);
    ZeroedFrame(one, p.budget, PAGE, p.inst + 0xa0, 8);
    ZeroedFrame(one, p.budget, PAGE, p.inst + 0x11f, 8);
    ZeroedReads(one, p.budget, PAGE, p.budget + 0x113, 4);
  }

  lemma PagesArePlaced(mem: Memory, p: Pages, sp: int, word: nat)
    requires Apart(p, sp) && Lasting(mem, sp, p.base, word)
    requires Mapped(mem, p.inst + 0xa0, 8) && Mapped(mem, p.inst + 0x11f, 8) && Mapped(mem, p.budget + 0x113, 4)
    ensures Placed(p.At(sp), mem)
  {
    hide Load, Mapped;
  }

  /** The two writes. */
  lemma WrittenPages(mem: Memory, p: Pages, sp: int, word: nat)
    requires Apart(p, sp) && Lasting(mem, sp, p.base, word)
    ensures var done := SetUp(mem, p);
      && Lasting(done, sp, p.base, word) && Mapped(done, p.inst + 0xa0, 8) && Mapped(done, p.inst + 0x11f, 8)
      && Load(done, p.inst + 0xa0, 8) == TWO_TO_64 - 1 && Load(done, p.inst + 0x11f, 8) == p.base
      && Mapped(done, p.budget + 0x113, 4) && Load(done, p.budget + 0x113, 4) == 0
  {
    hide Load, Store, Zeroed;
    FreshPages(mem, p, sp, word);
    Widths();
    var clean := Zeroed(Zeroed(mem, p.inst, PAGE), p.budget, PAGE);
    var limited := Store(clean, p.inst + 0xa0, 8, TWO_TO_64 - 1);
    StoreFrame(clean, p.inst + 0xa0, 8, TWO_TO_64 - 1);
    LoadStored(clean, p.inst + 0xa0, 8, TWO_TO_64 - 1);
    LoadElsewhere(clean, p.inst + 0xa0, 8, TWO_TO_64 - 1, p.base, 4);
    LoadElsewhere(clean, p.inst + 0xa0, 8, TWO_TO_64 - 1, p.budget + 0x113, 4);
    StoreFrame(limited, p.inst + 0x11f, 8, p.base);
    LoadStored(limited, p.inst + 0x11f, 8, p.base);
    LoadElsewhere(limited, p.inst + 0x11f, 8, p.base, p.inst + 0xa0, 8);
    LoadElsewhere(limited, p.inst + 0x11f, 8, p.base, p.base, 4);
    LoadElsewhere(limited, p.inst + 0x11f, 8, p.base, p.budget + 0x113, 4);
  }

  /** The pages that one call needs, as the harness leaves them. */
  lemma SetUpCells(mem: Memory, p: Pages, sp: int, word: nat)
    requires Apart(p, sp) && Lasting(mem, sp, p.base, word)
    ensures Cells(p.At(sp), SetUp(mem, p), word, 0)
  {
    hide Load, SetUp, Placed, Apart, Mapped;
    WrittenPages(mem, p, sp, word);
    PagesArePlaced(SetUp(mem, p), p, sp, word);
  }

  lemma CellsLast(l: Layout, mem: Memory, word: nat, cell: nat)
    requires Cells(l, mem, word, cell)
    ensures Lasting(mem, l.sp, l.base, word)
  {
    hide Load, Disjoint;
  }

  /** A fresh linear memory below a stack. */
  lemma FreshMemoryLasts(mem: Memory, p: Pages, sp: int)
    requires Apart(p, sp) && Mapped(mem, sp - 128, 136)
    ensures Lasting(Zeroed(mem, p.base, USABLE), sp, p.base, 0)
  {
    hide Load, Zeroed;
    ZeroedFrame(mem, p.base, USABLE, sp - 128, 136);
    ZeroedReads(mem, p.base, USABLE, p.base, 4);
  }

  // The loops.

  /** run_clone: one set of mappings for the whole run; both words follow the total. */
  method RunClone(total: nat, batch: nat, regs: Regs, sp: int, start: Memory, p: Pages)
    returns (v: Verdict, reached: nat)
    requires Apart(p, sp) && Mapped(start, sp - 128, 136) && SavedRegs(regs)
    ensures v == if Completes(total, batch) then Pass else Stuck
    ensures v == Pass ==> reached == total
  {
    hide Cells, Lasting, Apart, SetUp, Zeroed;
    assert p.inst >= 0 by { PagesAreLow(p, sp); }
    FreshMemoryLasts(start, p, sp);
    SetUpCells(Zeroed(start, p.base, USABLE), p, sp, 0);
    var l, mem := p.At(sp), SetUp(Zeroed(start, p.base, USABLE), p);
    reached := 0;
    while reached < total
      invariant reached <= total && Stalls(total, batch, reached) == Stalls(total, batch, 0)
      invariant Cells(l, mem, Wrap32(reached), Wrap32(reached))
    {
      var n := BatchSize(total, batch, reached);
      if n == 0 { return Stuck, reached; }
      WrapBound(reached);
      Accumulates(reached, n);
      BatchFits(total, batch, reached);
      var got, inWord, inCell;
      got, inWord, inCell, mem := Round(l, regs, mem, n, 0, Wrap32(reached), Wrap32(reached));
      reached := reached + n;
      if got != Wrap32(reached) || inCell != Wrap32(reached) || inWord != Wrap32(reached) { return Mismatch, reached; }
    }
    return Pass, reached;
  }

  lemma PagesAreLow(p: Pages, sp: int)
    requires Apart(p, sp)
    ensures p.inst >= 0
  {
  }

  /** What the reaper unmaps between two rounds: neither stack nor linear memory. */
  predicate Spares(gone: set<int>, sp: int, base: int) {
    forall i :: (sp - 128 <= i < sp + 8 || base <= i < base + 4) ==> i !in gone
  }

  lemma ReapedLasts(mem: Memory, gone: set<int>, sp: int, base: int, word: nat)
    requires Lasting(mem, sp, base, word) && Spares(gone, sp, base)
    ensures Lasting(mem - gone, sp, base, word)
  {
    LoadFrame(mem, mem - gone, base, 4);
  }

  /** run_churn: in every round fresh code with the round number in it, a fresh instance and a
      fresh budget page, over one linear memory, while the reaper unmaps older pages. */
  method RunChurn(total: nat, batch: nat, regs: Regs, sp: int, start: Memory, base: nat, pages: nat -> Pages,
                  reaped: nat -> set<int>)
    returns (v: Verdict, reached: nat)
    requires forall round :: Apart(pages(round), sp) && pages(round).base == base && Spares(reaped(round), sp, base)
    requires Mapped(start, sp - 128, 136) && SavedRegs(regs)
    ensures v == if Completes(total, batch) then Pass else Stuck
    ensures v == Pass ==> reached == total
  {
    hide Cells, Lasting, Apart, SetUp, Zeroed, Spares;
    FreshMemoryLasts(start, pages(0), sp);
    var mem := Zeroed(start, base, USABLE);
    reached := 0;
    var round := 0;
    while reached < total
      invariant reached <= total && Stalls(total, batch, reached) == Stalls(total, batch, 0)
      invariant Lasting(mem, sp, base, Wrap32(reached))
    {
      var n := BatchSize(total, batch, reached);
      if n == 0 { return Stuck, reached; }
      WrapBound(reached);
      Accumulates(reached, n);
      BatchFits(total, batch, reached);
      var p := pages(round);
      PagesAreLow(p, sp);
      SetUpCells(mem, p, sp, Wrap32(reached));
      var got, inWord, inCell;
      got, inWord, inCell, mem := Round(p.At(sp), regs, SetUp(mem, p), n, Wrap32(round), Wrap32(reached), 0);
      reached := reached + n;
      if got != Wrap32(reached) || inCell != n || inWord != Wrap32(reached) { return Mismatch, reached; }
      CellsLast(p.At(sp), mem, Wrap32(reached), n);
      ReapedLasts(mem, reaped(round), sp, base, Wrap32(reached));
      mem := mem - reaped(round);
      round := round + 1;
    }
    return Pass, reached;
  }

  /** Everything a round of churn-mem mapped goes away. */
  function TornDown(mem: Memory, p: Pages): Memory {
    Unmapped(Unmapped(Unmapped(mem, p.inst, PAGE), p.budget, PAGE), p.base, USABLE)
  }

  lemma TornDownKeepsStack(mem: Memory, p: Pages, sp: int)
    requires Apart(p, sp) && Mapped(mem, sp - 128, 136)
    ensures Mapped(TornDown(mem, p), sp - 128, 136)
  {
  }

  lemma LastingStack(mem: Memory, sp: int, base: int, word: nat)
    requires Lasting(mem, sp, base, word)
    ensures Mapped(mem, sp - 128, 136)
  {
  }

  /** run_churn_mem: everything fresh in every round, the code with the round number in it. */
  method RunChurnMem(total: nat, batch: nat, regs: Regs, sp: int, start: Memory, pages: nat -> Pages)
    returns (v: Verdict, reached: nat)
    requires forall round :: Apart(pages(round), sp)
    requires Mapped(start, sp - 128, 136) && SavedRegs(regs)
    ensures v == if Completes(total, batch) then Pass else Stuck
    ensures v == Pass ==> reached == total
  {
    hide Cells, Lasting, Apart, SetUp, Zeroed, TornDown, Mapped;
    reached := 0;
    var mem, round := start, 0;
    while reached < total
      invariant reached <= total && Stalls(total, batch, reached) == Stalls(total, batch, 0)
      invariant Mapped(mem, sp - 128, 136)
    {
      var n := BatchSize(total, batch, reached);
      if n == 0 { return Stuck, reached; }
      BatchFits(total, batch, reached);
      var p := pages(round);
      PagesAreLow(p, sp);
      FreshMemoryLasts(mem, p, sp);
      mem := Zeroed(mem, p.base, USABLE);
      SetUpCells(mem, p, sp, 0);
      var got, inWord, inCell;
      got, inWord, inCell, mem := Round(p.At(sp), regs, SetUp(mem, p), n, Wrap32(round), 0, 0);
      reached := reached + n;
      if got != n || inCell != n || inWord != n { return Mismatch, reached; }
      CellsLast(p.At(sp), mem, n, n);
      LastingStack(mem, sp, p.base, n);
      TornDownKeepsStack(mem, p, sp);
      mem := TornDown(mem, p);
      round := round + 1;
    }
    return Pass, reached;
  }

  // Nothing the loops ask for is contradictory: one stack and one set of pages that meet it.

  const SP := 0x1000

  const PAGES := Pages(0x2000, 0x3000, 0x1_0000)

  const STACK: Memory := Zeroed(map[], SP - 128, 136)

  const REGS := Regs(0, 0, 0, 0, 0, 0, 0, 0, 0, 0)

  lemma StackIsThere()
    ensures Mapped(STACK, SP - 128, 136)
  {
    hide Load;
    ZeroedReads(map[], SP - 128, 136, SP - 128, 136);
  }

  lemma PagesAreApart()
    ensures Apart(PAGES, SP) && Spares({}, SP, PAGES.base)
  {
  }

  lemma LoopsAreCallable()
    ensures Apart(PAGES, SP) && Mapped(STACK, SP - 128, 136) && SavedRegs(REGS) && Spares({}, SP, PAGES.base)
    ensures Cells(PAGES.At(SP), SetUp(Zeroed(STACK, PAGES.base, USABLE), PAGES), 0, 0)
  {
    hide Zeroed, SetUp, Cells, STACK, Apart, Mapped, Lasting, Spares;
    StackIsThere();
    PagesAreApart();
    FreshMemoryLasts(STACK, PAGES, SP);
    SetUpCells(Zeroed(STACK, PAGES.base, USABLE), PAGES, SP, 0);
  }

  /** All three loops, called with these pages, pass for every batch size that fits 32 bits. */
  method CallLoops(total: nat, batch: nat) returns (clone: Verdict, churn: Verdict, churnMem: Verdict)
    requires 0 < batch < TWO_TO_32
    ensures clone == Pass && churn == Pass && churnMem == Pass
  {
    hide Apart, Mapped, SetUp, Zeroed, Cells, Stalls, Spares, STACK;
    LoopsAreCallable();
    SmallBatchNeverStalls(total, batch, 0);
    var reached;
    clone, reached := RunClone(total, batch, REGS, SP, STACK, PAGES);
    churn, reached := RunChurn(total, batch, REGS, SP, STACK, PAGES.base, round => PAGES, round => {});
    churnMem, reached := RunChurnMem(total, batch, REGS, SP, STACK, round => PAGES);
  }
}
