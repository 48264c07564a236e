/** The whole call of clone_entry: it returns mem[0] + n, adds n to the budget cell, restores
    the registers it must preserve and touches nothing else. */
module CloneEntry {
  import opened Text
  import opened ByteMemory
  import Wasm = MiniWasm
  import WasmRun = MiniWasmRun
  import opened CloneMachine
  import opened CloneSpin

  // The loop.

  lemma WrapSteps(word: nat, n: nat)
    requires n > 0
    ensures Wrap32(Wrap32(word + 1) + (n - 1)) == Wrap32(word + n)
  {
    WasmRun.WrapAdds(word, n);
  }

  /** From the loop head with n left, the loop adds n to both words. */
  lemma {:induction false} LoopRuns(l: Layout, m: Machine, n: nat, word: nat, cell: nat)
    returns (steps: nat, m': Machine)
    requires AtHead(l, m, n, word, cell) && n < TWO_TO_32 && word < TWO_TO_32 && cell < TWO_TO_32
    ensures Run(Running(m), steps) == Running(m') && AtHead(l, m', 0, Wrap32(word + n), Wrap32(cell + n))
    ensures SameRegs(m.regs, m'.regs) && Kept(l, m.memory, m'.memory)
    decreases n
  {
    hide Run, Words, Touchable;
    if n == 0 {
      RunNone(Running(m));
      steps, m' := 0, m;
    } else {
      var next := Turn(l, m, n, word, cell);
      WrapSteps(word, n);
      WrapSteps(cell, n);
      hide Wrap32, AtHead;
      WrapBound(word + 1);
      WrapBound(cell + 1);
      var rest;
      rest, m' := LoopRuns(l, next, n - 1, Wrap32(word + 1), Wrap32(cell + 1));
      RunAdds(Running(m), 27, rest);
      KeptTwice(l, m.memory, next.memory, m'.memory);
      steps := 27 + rest;
    }
  }

  lemma WrapBound(x: int)
    ensures Wrap32(x) < TWO_TO_32
  {
  }

  // Stack slots: the return addresses and saved registers.

  function Slot(l: Layout, mem: Memory, k: nat): nat
    requires Mapped(mem, l.sp - 8 * k, 8)
  {
    Load(mem, l.sp - 8 * k, 8)
  }

  lemma SlotIsMapped(l: Layout, mem: Memory, k: nat)
    requires Placed(l, mem) && k <= 16
    ensures Mapped(mem, l.sp - 8 * k, 8)
  {
    StackIsMapped(l, mem, l.sp - 8 * k, 8);
  }

  /** The instance is set up and the two words have these values. */
  ghost predicate Cells(l: Layout, mem: Memory, word: nat, cell: nat) {
    Instance(l, mem) && Load(mem, l.base, 4) == word && Load(mem, l.Cell(), 4) == cell
  }

  lemma SlotAfterStore(l: Layout, mem: Memory, a: int, size: nat, v: nat, k: nat)
    requires Mapped(mem, a, size) && Mapped(mem, l.sp - 8 * k, 8) && Disjoint(a, size, l.sp - 8 * k, 8)
    ensures Mapped(Store(mem, a, size, v), l.sp - 8 * k, 8) && Slot(l, Store(mem, a, size, v), k) == Slot(l, mem, k)
  {
    hide Load, Store, Mapped;
    LoadElsewhere(mem, a, size, v, l.sp - 8 * k, 8);
  }

  /** A write inside the stack keeps the instance and the two words. */
  lemma CellsAfterStack(l: Layout, mem: Memory, word: nat, cell: nat, a: int, size: nat, v: nat)
    requires Cells(l, mem, word, cell) && Mapped(mem, a, size) && l.sp - 128 <= a && a + size <= l.sp + 8
    ensures Cells(l, Store(mem, a, size, v), word, cell)
  {
    hide Load, Store, Mapped, Placed, Instance;
    Bounds(l, mem);
    CellsAreApart(l, mem, a, size);
    InstanceStays(l, mem, a, size, v);
    LoadElsewhere(mem, a, size, v, l.base, 4);
    LoadElsewhere(mem, a, size, v, l.Cell(), 4);
  }

  /** The state of the stack while the entry sequence pushes: slots 0..k hold these values. */
  ghost predicate Stacked(l: Layout, first: Memory, mem: Memory, word: nat, cell: nat, slots: seq<nat>) {
    && Cells(l, mem, word, cell) && |slots| <= 8
    && (forall i :: 0 <= i < |slots| ==> Mapped(mem, l.sp - 8 * i, 8) && Slot(l, mem, i) == slots[i])
    && OnlyStack(l, first, mem)
  }

  predicate InStack(l: Layout, i: int) { l.sp - 128 <= i < l.sp }

  /** Nothing outside the stack below the entry stack pointer changed. */
  ghost predicate OnlyStack(l: Layout, mem: Memory, mem': Memory) {
    mem'.Keys == mem.Keys && forall i :: i in mem && !InStack(l, i) ==> mem'[i] == mem[i]
  }

  lemma OnlyStackAfterStore(l: Layout, first: Memory, mem: Memory, a: int, size: nat, v: nat)
    requires OnlyStack(l, first, mem) && Mapped(mem, a, size) && l.sp - 128 <= a && a + size <= l.sp
    ensures OnlyStack(l, first, Store(mem, a, size, v))
  {
    hide Store, Mapped;
    StoreFrame(mem, a, size, v);
  }

  /** Pushing the next slot. */
  lemma StackedPush(l: Layout, first: Memory, mem: Memory, word: nat, cell: nat, slots: seq<nat>, v: nat)
    requires Stacked(l, first, mem, word, cell, slots) && 1 <= |slots| < 8 && v < TWO_TO_64
    ensures Mapped(mem, l.sp - 8 * |slots|, 8)
    ensures Stacked(l, first, Store(mem, l.sp - 8 * |slots|, 8, v), word, cell, slots + [v])
  {
    hide Store, Mapped, Placed, Instance, Load;
    Widths();
    Bounds(l, mem);
    var k := |slots|;
    SlotIsMapped(l, mem, k);
    var mem' := Store(mem, l.sp - 8 * k, 8, v);
    CellsAfterStack(l, mem, word, cell, l.sp - 8 * k, 8, v);
    OnlyStackAfterStore(l, first, mem, l.sp - 8 * k, 8, v);
    LoadStored(mem, l.sp - 8 * k, 8, v);
    forall i | 0 <= i < |slots + [v]| ensures Mapped(mem', l.sp - 8 * i, 8) && Slot(l, mem', i) == (slots + [v])[i] {
      if i < k { SlotAfterStore(l, mem, l.sp - 8 * k, 8, v, i); }
    }
  }

  // The entry sequence: save four registers, set up the clone's registers, call it.

  lemma EntryPushes()
    ensures Fetch(0) == Endbr64 && Fetch(1) == PushQ(RBP) && Fetch(2) == PushQ(R12) && Fetch(3) == PushQ(R13)
    ensures Fetch(4) == PushQ(R14) && Fetch(5) == SubImmQ(8, RSP)
  {
    CodeAt(0); CodeAt(1); CodeAt(2); CodeAt(3); CodeAt(4); CodeAt(5);
    hide Fetch, CODE, SPIN_PROLOGUE, SPIN_LOOP, SPIN_EXIT, BUMP;
  }

  lemma EntryMoves()
    ensures Fetch(6) == MovQ(RSI, R13) && Fetch(7) == AddImmQ(0x100, R13) && Fetch(8) == MovQ(R13, RSI)
    ensures Fetch(9) == MovQ(RDX, R14) && Fetch(10) == MovL(RCX, RAX) && Fetch(11) == CallReg(RDI)
  {
    CodeAt(6); CodeAt(7); CodeAt(8); CodeAt(9); CodeAt(10); CodeAt(11);
    hide Fetch, CODE, SPIN_PROLOGUE, SPIN_LOOP, SPIN_EXIT, BUMP;
  }

  lemma EntryTail()
    ensures Fetch(12) == AddImmQ(8, RSP) && Fetch(13) == PopQ(R14) && Fetch(14) == PopQ(R13)
    ensures Fetch(15) == PopQ(R12) && Fetch(16) == PopQ(RBP) && Fetch(17) == Ret
  {
    CodeAt(12); CodeAt(13); CodeAt(14); CodeAt(15); CodeAt(16); CodeAt(17);
    hide Fetch, CODE, SPIN_PROLOGUE, SPIN_LOOP, SPIN_EXIT, BUMP;
  }

  /** One push of the entry sequence, in slot k. */
  lemma PushSlot(o: Outcome, steps: nat, l: Layout, first: Memory, m: Machine, r: Reg, word: nat, cell: nat,
                 slots: seq<nat>) returns (m': Machine)
    requires Run(o, steps) == Running(m) && 0 <= m.pc < CALLER && Fetch(m.pc) == PushQ(r)
    requires Stacked(l, first, m.memory, word, cell, slots) && 1 <= |slots| < 8
    requires m.regs.rsp == l.sp - 8 * (|slots| - 1) && m.regs.Get(r) < TWO_TO_64
    ensures Run(o, steps + 1) == Running(m') && m'.pc == m.pc + 1 && m'.patch == m.patch
    ensures m'.regs == m.regs.(rsp := l.sp - 8 * |slots|)
    ensures Stacked(l, first, m'.memory, word, cell, slots + [m.regs.Get(r)])
  {
    hide Run, Fetch, Load, Store, Mapped, Execute, Instance, Regs.Get, Placed;
    Bounds(l, m.memory);
    StackedPush(l, first, m.memory, word, cell, slots, m.regs.Get(r));
    DoPush(m, r);
    m' := m.(pc := m.pc + 1, regs := m.regs.(rsp := l.sp - 8 * |slots|),
             memory := Store(m.memory, l.sp - 8 * |slots|, 8, m.regs.Get(r)));
    Next(o, steps, m, PushQ(r), m');
  }

  /** What the caller passes: code, instance page, budget pointer and count. */
  ghost predicate Invoked(l: Layout, m: Machine, n: nat, word: nat, cell: nat) {
    && m.pc == 0 && m.regs.rsp == l.sp && m.regs.rdi == SPIN_CLONE && m.regs.rsi == l.instance - 0x100
    && m.regs.rdx == l.budget && Wrap32(m.regs.rcx) == n && word < TWO_TO_32 && cell < TWO_TO_32
    && m.regs.rbp < TWO_TO_64 && m.regs.r12 < TWO_TO_64 && m.regs.r13 < TWO_TO_64 && m.regs.r14 < TWO_TO_64
    && Cells(l, m.memory, word, cell) && Mapped(m.memory, l.sp, 8) && Load(m.memory, l.sp, 8) == CALLER
  }

  /** The values of slots 0 to 4: the return address and the saved registers. */
  function Saved(r: Regs): seq<nat> { [CALLER, r.rbp, r.r12, r.r13, r.r14] }

  lemma EntrySaves(l: Layout, m: Machine, n: nat, word: nat, cell: nat) returns (m': Machine)
    requires Invoked(l, m, n, word, cell)
    ensures Run(Running(m), 6) == Running(m') && m'.pc == 6 && m'.regs == m.regs.(rsp := l.sp - 40)
    ensures Stacked(l, m.memory, m'.memory, word, cell, Saved(m.regs))
  {
    hide Run, Fetch, Load, Store, Mapped, Execute, Instance, Stacked, Placed;
    EntryStacked(l, m, n, word, cell);
    Bounds(l, m.memory);
    EntryPushes();
    RunNone(Running(m));
    DoSimple(m, Endbr64);
    var m1 := m.(pc := 1);
    Next(Running(m), 0, m, Endbr64, m1);
    var m2 := PushSlot(Running(m), 1, l, m.memory, m1, RBP, word, cell, [CALLER]);
    var m3 := PushSlot(Running(m), 2, l, m.memory, m2, R12, word, cell, [CALLER] + [m.regs.rbp]);
    var m4 := PushSlot(Running(m), 3, l, m.memory, m3, R13, word, cell, [CALLER] + [m.regs.rbp] + [m.regs.r12]);
    var m5 := PushSlot(Running(m), 4, l, m.memory, m4, R14, word, cell,
                       [CALLER] + [m.regs.rbp] + [m.regs.r12] + [m.regs.r13]);
    DoAdjust(m5, 8);
    m' := m5.(pc := 6, regs := m5.regs.(rsp := l.sp - 40));
    Next(Running(m), 5, m5, SubImmQ(8, RSP), m');
    assert [CALLER] + [m.regs.rbp] + [m.regs.r12] + [m.regs.r13] + [m.regs.r14] == Saved(m.regs);
  }

  lemma EntryStacked(l: Layout, m: Machine, n: nat, word: nat, cell: nat)
    requires Invoked(l, m, n, word, cell)
    ensures Stacked(l, m.memory, m.memory, word, cell, [CALLER]) && Instance(l, m.memory)
  {
    hide Load, Mapped, Instance, InStack;
    assert l.sp - 8 * 0 == l.sp;
  }

  lemma DoMoves(m: Machine)
    requires m.pc >= 0
    ensures m.regs.r13 + 0x100 < TWO_TO_64 ==>
              Execute(AddImmQ(0x100, R13), m) == Running(m.(pc := m.pc + 1, regs := m.regs.(r13 := m.regs.r13 + 0x100)))
    ensures Execute(MovL(RCX, RAX), m) == Running(m.(pc := m.pc + 1, regs := m.regs.(rax := Wrap32(m.regs.rcx))))
  {
    hide Load, Store, Mapped, Wrap32;
    if m.regs.r13 + 0x100 < TWO_TO_64 { InRange(m.regs.r13 + 0x100); }
  }

  /** The clone's registers: r13 and rsi the instance, r14 the budget, eax the count. */
  lemma EntryArranges(l: Layout, m: Machine, n: nat) returns (m': Machine)
    requires m.pc == 6 && m.regs.rsi == l.instance - 0x100 && m.regs.rdx == l.budget && Wrap32(m.regs.rcx) == n
    requires l.instance + 0x27 <= TWO_TO_64
    ensures Run(Running(m), 5) == Running(m') && m'.memory == m.memory && m'.pc == 11
    ensures m'.regs == m.regs.(rax := n, rsi := l.instance, r13 := l.instance, r14 := l.budget)
  {
    hide Run, Fetch, Load, Store, Mapped, Execute, Wrap32;
    EntryMoves();
    RunNone(Running(m));
    DoSimple(m, MovQ(RSI, R13));
    var m1 := m.(pc := 7, regs := m.regs.(r13 := l.instance - 0x100));
    Next(Running(m), 0, m, MovQ(RSI, R13), m1);
    DoMoves(m1);
    var m2 := m1.(pc := 8, regs := m1.regs.(r13 := l.instance));
    Next(Running(m), 1, m1, AddImmQ(0x100, R13), m2);
    DoSimple(m2, MovQ(R13, RSI));
    var m3 := m2.(pc := 9, regs := m2.regs.(rsi := l.instance));
    Next(Running(m), 2, m2, MovQ(R13, RSI), m3);
    DoSimple(m3, MovQ(RDX, R14));
    var m4 := m3.(pc := 10, regs := m3.regs.(r14 := l.budget));
    Next(Running(m), 3, m3, MovQ(RDX, R14), m4);
    DoMoves(m4);
    m' := m4.(pc := 11, regs := m4.regs.(rax := n));
    Next(Running(m), 4, m4, MovL(RCX, RAX), m');
  }

  lemma DoCallReg(m: Machine)
    requires m.pc >= 0 && 8 <= m.regs.rsp < TWO_TO_64 && Mapped(m.memory, m.regs.rsp - 8, 8)
    ensures Execute(CallReg(RDI), m) ==
            Running(m.(pc := m.regs.rdi, regs := m.regs.(rsp := m.regs.rsp - 8),
                       memory := Store(m.memory, m.regs.rsp - 8, 8, m.pc + 1)))
  {
    InRange(m.regs.rsp - 8);
    hide Store, Mapped, Wrap64;
  }

  /** The slot the entry sequence skips holds whatever it held. */
  lemma StackedSkip(l: Layout, first: Memory, mem: Memory, word: nat, cell: nat, slots: seq<nat>)
    requires Stacked(l, first, mem, word, cell, slots) && |slots| < 8
    ensures Mapped(mem, l.sp - 8 * |slots|, 8)
    ensures Stacked(l, first, mem, word, cell, slots + [Slot(l, mem, |slots|)])
  {
    hide Load, Mapped, Placed, Instance, InStack;
    Bounds(l, mem);
    SlotIsMapped(l, mem, |slots|);
  }

  /** The indirect call. */
  lemma EntryCalls(l: Layout, first: Memory, m: Machine, word: nat, cell: nat, saved: seq<nat>)
    returns (m': Machine, skipped: nat)
    requires m.pc == 11 && m.regs.rsp == l.sp - 40 && m.regs.rdi == SPIN_CLONE && |saved| == 5
    requires Stacked(l, first, m.memory, word, cell, saved)
    ensures Run(Running(m), 1) == Running(m') && m'.pc == SPIN_CLONE && m'.regs == m.regs.(rsp := l.sp - 48)
    ensures Stacked(l, first, m'.memory, word, cell, saved + [skipped] + [12])
  {
    hide Run, Fetch, Load, Store, Mapped, Execute, Instance, Placed;
    Bounds(l, m.memory);
    EntryMoves();
    RunNone(Running(m));
    StackedSkip(l, first, m.memory, word, cell, saved);
    skipped := Slot(l, m.memory, 5);
    StackedPush(l, first, m.memory, word, cell, saved + [skipped], 12);
    DoCallReg(m);
    m' := m.(pc := SPIN_CLONE, regs := m.regs.(rsp := l.sp - 48), memory := Store(m.memory, l.sp - 48, 8, 12));
    Next(Running(m), 0, m, CallReg(RDI), m');
  }

  // The prologue of spin_clone.

  lemma PrologueCode()
    ensures Fetch(18) == Endbr64 && Fetch(19) == PushQ(RBP) && Fetch(20) == MovQ(RSP, RBP)
    ensures Fetch(21) == SubImmQ(0x30, RSP) && Fetch(22) == MovPatchedL(R12)
  {
    CodeAt(18); CodeAt(19); CodeAt(20); CodeAt(21); CodeAt(22);
    hide Fetch, CODE, ENTRY, SPIN_LOOP, SPIN_EXIT, BUMP;
  }

  lemma PrologueStores()
    ensures Fetch(23) == StoreL(RAX, -0x24, RBP) && Fetch(24) == StoreQ(RSI, -0x10, RBP)
    ensures Fetch(25) == StoreQ(R14, -0x18, RBP)
  {
    CodeAt(23); CodeAt(24); CodeAt(25);
    hide Fetch, CODE, ENTRY, SPIN_LOOP, SPIN_EXIT, BUMP;
  }

  lemma DoPatched(m: Machine)
    requires m.pc >= 0
    ensures Execute(MovPatchedL(R12), m) == Running(m.(pc := m.pc + 1, regs := m.regs.(r12 := Wrap32(m.patch))))
  {
    hide Load, Store, Mapped;
  }

  lemma PrologueFrames(l: Layout, first: Memory, m: Machine, word: nat, cell: nat, slots: seq<nat>)
    returns (m': Machine)
    requires m.pc == SPIN_CLONE && m.regs.rsp == l.sp - 48 && |slots| == 7 && m.regs.rbp < TWO_TO_64
    requires Stacked(l, first, m.memory, word, cell, slots)
    ensures Run(Running(m), 5) == Running(m') && m'.pc == 23
    ensures m'.regs == m.regs.(rbp := l.Frame(), rsp := l.Frame() - 0x30, r12 := Wrap32(m.patch))
    ensures Stacked(l, first, m'.memory, word, cell, slots + [m.regs.rbp])
  {
    hide Run, Fetch, Load, Store, Mapped, Execute, Instance, Placed, Stacked;
    StackedBounds(l, first, m.memory, word, cell, slots);
    PrologueCode();
    RunNone(Running(m));
    DoSimple(m, Endbr64);
    var m1 := m.(pc := 19);
    Next(Running(m), 0, m, Endbr64, m1);
    var m2 := PushSlot(Running(m), 1, l, first, m1, RBP, word, cell, slots);
    DoSimple(m2, MovQ(RSP, RBP));
    var m3 := m2.(pc := 21, regs := m2.regs.(rbp := l.Frame()));
    Next(Running(m), 2, m2, MovQ(RSP, RBP), m3);
    DoAdjust(m3, 0x30);
    var m4 := m3.(pc := 22, regs := m3.regs.(rsp := l.Frame() - 0x30));
    Next(Running(m), 3, m3, SubImmQ(0x30, RSP), m4);
    DoPatched(m4);
    m' := m4.(pc := 23, regs := m4.regs.(r12 := Wrap32(m.patch)));
    Next(Running(m), 4, m4, MovPatchedL(R12), m');
  }

  lemma StackedBounds(l: Layout, first: Memory, mem: Memory, word: nat, cell: nat, slots: seq<nat>)
    requires Stacked(l, first, mem, word, cell, slots)
    ensures Instance(l, mem) && Placed(l, mem) && 128 <= l.sp && l.sp + 8 < TWO_TO_64
    ensures 0x60 <= l.instance && l.instance + 0x27 <= TWO_TO_64 && 0 <= l.budget && l.budget + 0x17 <= TWO_TO_64
  {
    hide Load, Mapped, Instance, InStack;
    Bounds(l, mem);
  }

  /** A local of spin_clone stored below the slots. */
  lemma StackedLocal(l: Layout, first: Memory, mem: Memory, word: nat, cell: nat, slots: seq<nat>, a: int, size: nat,
                     v: nat)
    requires Stacked(l, first, mem, word, cell, slots) && l.sp - 128 <= a && a + size <= l.sp - 56
    requires Mapped(mem, a, size)
    ensures Stacked(l, first, Store(mem, a, size, v), word, cell, slots)
  {
    hide Store, Mapped, Placed, Instance, Load, InStack;
    CellsAfterStack(l, mem, word, cell, a, size, v);
    OnlyStackAfterStore(l, first, mem, a, size, v);
    forall i | 0 <= i < |slots|
      ensures Mapped(Store(mem, a, size, v), l.sp - 8 * i, 8) && Slot(l, Store(mem, a, size, v), i) == slots[i]
    {
      SlotAfterStore(l, mem, a, size, v, i);
    }
  }

  /** The three locals end up in memory, and the loop head is reached. */
  lemma PrologueReaches(l: Layout, first: Memory, m: Machine, n: nat, word: nat, cell: nat, slots: seq<nat>)
    returns (m': Machine)
    requires m.pc == 23 && Stacked(l, first, m.memory, word, cell, slots) && n < TWO_TO_32
    requires m.regs.rbp == l.Frame() && m.regs.rsp == l.Frame() - 0x30 && m.regs.rax == n
    requires m.regs.rsi == l.instance && m.regs.r13 == l.instance && m.regs.r14 == l.budget
    ensures Run(Running(m), 3) == Running(m') && m'.regs == m.regs && AtHead(l, m', n, word, cell)
    ensures Stacked(l, first, m'.memory, word, cell, slots)
  {
    hide Run, Fetch, Load, Store, Mapped, Execute, Instance, Placed, Stacked;
    StackedBounds(l, first, m.memory, word, cell, slots);
    WordsAreMapped(l, m.memory);
    PrologueStores();
    RunNone(Running(m));
    DoStoreL(m, RAX, -0x24, RBP);
    assert Wrap32(n) == n;
    var m1 := m.(pc := 24, memory := Store(m.memory, l.Frame() - 0x24, 4, n));
    Next(Running(m), 0, m, StoreL(RAX, -0x24, RBP), m1);
    StackedLocal(l, first, m.memory, word, cell, slots, l.Frame() - 0x24, 4, n);
    StackedBounds(l, first, m1.memory, word, cell, slots);
    WordsAreMapped(l, m1.memory);
    DoStoreQ(m1, RSI, -0x10, RBP);
    var m2 := m1.(pc := 25, memory := Store(m1.memory, l.Frame() - 0x10, 8, l.instance));
    Next(Running(m), 1, m1, StoreQ(RSI, -0x10, RBP), m2);
    StackedLocal(l, first, m1.memory, word, cell, slots, l.Frame() - 0x10, 8, l.instance);
    StackedBounds(l, first, m2.memory, word, cell, slots);
    WordsAreMapped(l, m2.memory);
    DoStoreQ(m2, R14, -0x18, RBP);
    m' := m2.(pc := 26, memory := Store(m2.memory, l.Frame() - 0x18, 8, l.budget));
    Next(Running(m), 2, m2, StoreQ(R14, -0x18, RBP), m');
    StackedLocal(l, first, m2.memory, word, cell, slots, l.Frame() - 0x18, 8, l.budget);
    LocalsAreStored(l, m.memory, n, word, cell, m'.memory, first, slots);
  }

  lemma LocalsAreStored(l: Layout, mem: Memory, n: nat, word: nat, cell: nat, mem': Memory, first: Memory, slots: seq<nat>)
    requires n < TWO_TO_32 && Stacked(l, first, mem', word, cell, slots)
    requires Mapped(mem, l.Frame() - 0x24, 4) && Mapped(Store(mem, l.Frame() - 0x24, 4, n), l.Frame() - 0x10, 8)
    requires 0 <= l.instance && 0 <= l.budget && l.instance < TWO_TO_64 && l.budget < TWO_TO_64
    requires var one := Store(mem, l.Frame() - 0x24, 4, n);
      var two := Store(one, l.Frame() - 0x10, 8, l.instance);
      Mapped(two, l.Frame() - 0x18, 8) && mem' == Store(two, l.Frame() - 0x18, 8, l.budget)
    ensures Words(l, mem', n, word, cell)
  {
    hide Load, Store, Mapped, Placed, Instance, InStack;
    Widths();
    var one := Store(mem, l.Frame() - 0x24, 4, n);
    var two := Store(one, l.Frame() - 0x10, 8, l.instance);
    LoadStored(mem, l.Frame() - 0x24, 4, n);
    LoadElsewhere(one, l.Frame() - 0x10, 8, l.instance, l.Frame() - 0x24, 4);
    LoadElsewhere(two, l.Frame() - 0x18, 8, l.budget, l.Frame() - 0x24, 4);
    LoadStored(one, l.Frame() - 0x10, 8, l.instance);
    LoadElsewhere(two, l.Frame() - 0x18, 8, l.budget, l.Frame() - 0x10, 8);
    LoadStored(two, l.Frame() - 0x18, 8, l.budget);
  }

  // After the loop.

  /** The loop keeps every slot and everything outside the stack and the two words. */
  lemma SlotsAfterLoop(l: Layout, mem: Memory, mem': Memory, k: nat)
    requires Placed(l, mem) && Kept(l, mem, mem') && k <= 7
    ensures Mapped(mem, l.sp - 8 * k, 8) && Mapped(mem', l.sp - 8 * k, 8)
    ensures Slot(l, mem', k) == Slot(l, mem, k)
  {
    SlotIsMapped(l, mem, k);
    CellsAreApart(l, mem, l.sp - 8 * k, 8);
    assert forall i :: l.sp - 8 * k <= i < l.sp - 8 * k + 8 ==> !Touchable(l, i);
    hide Load, Placed;
    LoadFrame(mem, mem', l.sp - 8 * k, 8);
  }

  lemma ExitCode()
    ensures Fetch(40) == LoadQ(-0x10, RBP, RSI) && Fetch(41) == LoadQ(0x1f, RSI, RAX) && Fetch(42) == LoadL(0, RAX, RCX)
    ensures Fetch(43) == MovL(RCX, RAX) && Fetch(44) == Leave && Fetch(45) == Ret
  {
    CodeAt(40); CodeAt(41); CodeAt(42); CodeAt(43); CodeAt(44); CodeAt(45);
    hide Fetch, CODE, ENTRY, SPIN_PROLOGUE, SPIN_LOOP, BUMP;
  }

  /** The memory word is loaded into eax and the frame is left. */
  lemma SpinLeaves(l: Layout, m: Machine, word: nat, cell: nat, slots: seq<nat>) returns (m': Machine)
    requires m.pc == SPIN_DONE && Words(l, m.memory, 0, word, cell) && word < TWO_TO_32
    requires m.regs.rbp == l.Frame() && |slots| == 8
    requires forall k :: 0 <= k < 8 ==> Mapped(m.memory, l.sp - 8 * k, 8) && Slot(l, m.memory, k) == slots[k]
    ensures Run(Running(m), 6) == Running(m') && m'.pc == slots[6] && m'.memory == m.memory
    ensures m'.regs == m.regs.(rax := word, rcx := word, rsi := l.instance, rbp := slots[7], rsp := l.sp - 40)
  {
    hide Run, Fetch, Load, Store, Mapped, Execute, Instance, Placed, Wrap32;
    Bounds(l, m.memory);
    WordsAreMapped(l, m.memory);
    ExitCode();
    assert l.sp - 8 * 7 == l.Frame() && l.sp - 8 * 6 == l.Frame() + 8;
    assert Slot(l, m.memory, 7) == slots[7] && Slot(l, m.memory, 6) == slots[6];
    RunNone(Running(m));
    DoLoadQ(m, -0x10, RBP, RSI);
    var m1 := m.(pc := 41, regs := m.regs.(rsi := l.instance));
    Next(Running(m), 0, m, LoadQ(-0x10, RBP, RSI), m1);
    DoLoadQ(m1, 0x1f, RSI, RAX);
    var m2 := m1.(pc := 42, regs := m1.regs.(rax := l.base));
    Next(Running(m), 1, m1, LoadQ(0x1f, RSI, RAX), m2);
    DoLoadL(m2, 0, RAX, RCX);
    var m3 := m2.(pc := 43, regs := m2.regs.(rcx := word));
    Next(Running(m), 2, m2, LoadL(0, RAX, RCX), m3);
    DoResult(m3);
    var m4 := m3.(pc := 44, regs := m3.regs.(rax := word));
    Next(Running(m), 3, m3, MovL(RCX, RAX), m4);
    DoLeave(m4);
    var m5 := m4.(pc := 45, regs := m4.regs.(rsp := l.Frame() + 8, rbp := slots[7]));
    Next(Running(m), 4, m4, Leave, m5);
    DoRet(m5);
    m' := m5.(pc := slots[6], regs := m5.regs.(rsp := l.sp - 40));
    Next(Running(m), 5, m5, Ret, m');
  }

  lemma DoResult(m: Machine)
    requires m.pc >= 0 && m.regs.rcx < TWO_TO_32
    ensures Execute(MovL(RCX, RAX), m) == Running(m.(pc := m.pc + 1, regs := m.regs.(rax := m.regs.rcx)))
  {
    hide Load, Store, Mapped;
  }

  /** The saved registers come back and control returns to the caller. */
  lemma EntryRestores(l: Layout, m: Machine, slots: seq<nat>) returns (m': Machine)
    requires m.pc == 12 && m.regs.rsp == l.sp - 40 && |slots| == 8 && 128 <= l.sp && l.sp + 8 < TWO_TO_64
    requires forall k :: 0 <= k < 8 ==> Mapped(m.memory, l.sp - 8 * k, 8) && Slot(l, m.memory, k) == slots[k]
    ensures Run(Running(m), 6) == Running(m') && m'.pc == slots[0] && m'.memory == m.memory
    ensures m'.regs == m.regs.(rbp := slots[1], r12 := slots[2], r13 := slots[3], r14 := slots[4], rsp := l.sp + 8)
  {
    hide Run, Fetch, Load, Store, Mapped, Execute;
    EntryTail();
    assert l.sp - 8 * 4 == l.sp - 32 && l.sp - 8 * 3 == l.sp - 24 && l.sp - 8 * 2 == l.sp - 16 && l.sp - 8 * 0 == l.sp;
    assert Slot(l, m.memory, 4) == slots[4] && Slot(l, m.memory, 3) == slots[3] && Slot(l, m.memory, 2) == slots[2]
      && Slot(l, m.memory, 1) == slots[1] && Slot(l, m.memory, 0) == slots[0];
    RunNone(Running(m));
    DoAdjust(m, 8);
    var m1 := m.(pc := 13, regs := m.regs.(rsp := l.sp - 32));
    Next(Running(m), 0, m, AddImmQ(8, RSP), m1);
    DoPop(m1, R14);
    var m2 := m1.(pc := 14, regs := m1.regs.(rsp := l.sp - 24, r14 := slots[4]));
    Next(Running(m), 1, m1, PopQ(R14), m2);
    DoPop(m2, R13);
    var m3 := m2.(pc := 15, regs := m2.regs.(rsp := l.sp - 16, r13 := slots[3]));
    Next(Running(m), 2, m2, PopQ(R13), m3);
    DoPop(m3, R12);
    var m4 := m3.(pc := 16, regs := m3.regs.(rsp := l.sp - 8, r12 := slots[2]));
    Next(Running(m), 3, m3, PopQ(R12), m4);
    DoPop(m4, RBP);
    var m5 := m4.(pc := 17, regs := m4.regs.(rsp := l.sp, rbp := slots[1]));
    Next(Running(m), 4, m4, PopQ(RBP), m5);
    DoRet(m5);
    m' := m5.(pc := slots[0], regs := m5.regs.(rsp := l.sp + 8));
    Next(Running(m), 5, m5, Ret, m');
  }

  // The whole call.

  /** Bytes a call may change: the stack below the return address and the two words. */
  predicate CallTouches(l: Layout, i: int) {
    InStack(l, i) || l.Cell() <= i < l.Cell() + 4 || l.base <= i < l.base + 4
  }

  /** What clone_entry promises its caller. */
  ghost predicate Returned(l: Layout, m: Machine, m': Machine, n: nat, word: nat, cell: nat) {
    && m'.pc == CALLER && m'.regs.rax == Wrap32(word + n)
    && m'.regs.rbp == m.regs.rbp && m'.regs.r12 == m.regs.r12 && m'.regs.r13 == m.regs.r13
    && m'.regs.r14 == m.regs.r14 && m'.regs.rsp == m.regs.rsp + 8
    && Cells(l, m'.memory, Wrap32(word + n), Wrap32(cell + n))
    && m'.memory.Keys == m.memory.Keys
    && forall i :: i in m.memory && !CallTouches(l, i) ==> m'.memory[i] == m.memory[i]
  }

  /** From entry to the loop head. */
  lemma EntryReachesHead(l: Layout, m: Machine, n: nat, word: nat, cell: nat)
    returns (m': Machine, slots: seq<nat>)
    requires Invoked(l, m, n, word, cell)
    ensures n < TWO_TO_32 && Run(Running(m), 20) == Running(m') && AtHead(l, m', n, word, cell)
    ensures |slots| == 8 && slots[..5] == Saved(m.regs) && slots[6] == 12 && slots[7] == m.regs.rbp
    ensures Stacked(l, m.memory, m'.memory, word, cell, slots)
  {
    hide Run, Stacked, Words, Load, Mapped, Instance, Placed, Cells;
    WrapBound(m.regs.rcx);
    var m6 := EntrySaves(l, m, n, word, cell);
    StackedBounds(l, m.memory, m6.memory, word, cell, Saved(m.regs));
    var m11 := EntryArranges(l, m6, n);
    RunAdds(Running(m), 6, 5);
    var m12, skipped := EntryCalls(l, m.memory, m11, word, cell, Saved(m.regs));
    RunAdds(Running(m), 11, 1);
    var m17 := PrologueFrames(l, m.memory, m12, word, cell, Saved(m.regs) + [skipped] + [12]);
    RunAdds(Running(m), 12, 5);
    slots := Saved(m.regs) + [skipped] + [12] + [m.regs.rbp];
    m' := PrologueReaches(l, m.memory, m17, n, word, cell, slots);
    RunAdds(Running(m), 17, 3);
  }

  /** From the loop head with nothing left to the caller. */
  lemma HeadReturns(l: Layout, m: Machine, word: nat, cell: nat, slots: seq<nat>) returns (m': Machine)
    requires AtHead(l, m, 0, word, cell) && word < TWO_TO_32 && |slots| == 8 && slots[6] == 12
    requires forall k :: 0 <= k < 8 ==> Mapped(m.memory, l.sp - 8 * k, 8) && Slot(l, m.memory, k) == slots[k]
    ensures Run(Running(m), 17) == Running(m') && m'.pc == slots[0] && m'.memory == m.memory
    ensures m'.regs.rax == word && m'.regs.rbp == slots[1] && m'.regs.r12 == slots[2] && m'.regs.r13 == slots[3]
    ensures m'.regs.r14 == slots[4] && m'.regs.rsp == l.sp + 8
  {
    hide Run, Mapped, Slot, Placed;
    LoopTests(l, m, 0, word, cell);
    Bounds(l, m.memory);
    hide Load, Instance;
    var m5 := m.(pc := SPIN_DONE, regs := m.regs.(rax := 0), flags := Flags(false, true));
    var m11 := SpinLeaves(l, m5, word, cell, slots);
    RunAdds(Running(m), 5, 6);
    m' := EntryRestores(l, m11, slots);
    RunAdds(Running(m), 11, 6);
  }

  lemma SlotsSurvive(l: Layout, first: Memory, mem: Memory, mem': Memory, word: nat, cell: nat, slots: seq<nat>)
    requires Stacked(l, first, mem, word, cell, slots) && |slots| == 8 && Kept(l, mem, mem')
    ensures forall k :: 0 <= k < 8 ==> Mapped(mem', l.sp - 8 * k, 8) && Slot(l, mem', k) == slots[k]
    ensures mem'.Keys == first.Keys
    ensures forall i :: i in first && !CallTouches(l, i) ==> mem'[i] == first[i]
  {
    StackedBounds(l, first, mem, word, cell, slots);
    hide Instance, Load, Placed, Mapped, Slot;
    forall k | 0 <= k < 8 ensures Mapped(mem', l.sp - 8 * k, 8) && Slot(l, mem', k) == slots[k] {
      SlotsAfterLoop(l, mem, mem', k);
    }
  }

  /** What the end of the call means for the caller. */
  lemma EndIsReturned(l: Layout, m: Machine, m': Machine, slots: seq<nat>, n: nat, word: nat, cell: nat)
    requires |slots| == 8 && slots[..5] == Saved(m.regs) && m.regs.rsp == l.sp
    requires m'.pc == slots[0] && m'.regs.rax == Wrap32(word + n) && m'.regs.rsp == l.sp + 8
    requires m'.regs.rbp == slots[1] && m'.regs.r12 == slots[2] && m'.regs.r13 == slots[3] && m'.regs.r14 == slots[4]
    requires Words(l, m'.memory, 0, Wrap32(word + n), Wrap32(cell + n)) && m'.memory.Keys == m.memory.Keys
    requires forall i :: i in m.memory && !CallTouches(l, i) ==> m'.memory[i] == m.memory[i]
    ensures Returned(l, m, m', n, word, cell)
  {
    hide Words, Cells, CallTouches, Wrap32;
    WordsAreCells(l, m'.memory, 0, Wrap32(word + n), Wrap32(cell + n));
    assert slots[0] == slots[..5][0] && slots[1] == slots[..5][1] && slots[2] == slots[..5][2]
      && slots[3] == slots[..5][3] && slots[4] == slots[..5][4];
  }

  /** For every count and every initial state, a call terminates in the promised state. */
  lemma CloneEntryReturns(l: Layout, m: Machine, n: nat, word: nat, cell: nat) returns (steps: nat, m': Machine)
    requires Invoked(l, m, n, word, cell)
    ensures Run(Running(m), steps) == Running(m') && Returned(l, m, m', n, word, cell)
  {
    hide Run, Stacked, Kept, Mapped, Slot, CallTouches, Invoked, Words, Wrap32, Returned, Saved;
    InvokedBounds(l, m, n, word, cell);
    var head, slots := EntryReachesHead(l, m, n, word, cell);
    var loop, last := LoopRuns(l, head, n, word, cell);
    WrapBound(word + n);
    SlotsSurvive(l, m.memory, head.memory, last.memory, word, cell, slots);
    m' := HeadReturns(l, last, Wrap32(word + n), Wrap32(cell + n), slots);
    RunAdds(Running(m), 20, loop);
    RunAdds(Running(m), 20 + loop, 17);
    steps := 20 + loop + 17;
    EndIsReturned(l, m, m', slots, n, word, cell);
  }

  lemma InvokedBounds(l: Layout, m: Machine, n: nat, word: nat, cell: nat)
    requires Invoked(l, m, n, word, cell)
    ensures word < TWO_TO_32 && cell < TWO_TO_32 && m.regs.rsp == l.sp
  {
    hide Cells, Mapped;
  }

  lemma WordsAreCells(l: Layout, mem: Memory, n: nat, word: nat, cell: nat)
    requires Words(l, mem, n, word, cell)
    ensures Cells(l, mem, word, cell)
  {
    hide Load, Instance;
  }

  /** The clone computes what the WebAssembly module computes. */
  lemma CloneMatchesWasm(l: Layout, m: Machine, n: nat, word: nat, cell: nat, wasm: Memory)
    returns (steps: nat, m': Machine, turns: nat, wasm': Memory)
    requires Invoked(l, m, n, word, cell) && n < TWO_TO_32
    requires Mapped(wasm, 0, 4) && Load(wasm, 0, 4) == word
    ensures Run(Running(m), steps) == Running(m') && m'.pc == CALLER
    ensures WasmRun.Run(Wasm.PROGRAM, WasmRun.Continue(WasmRun.Frame(0, 0, WasmRun.Empty, WasmRun.Outermost, [n]),
                                                       WasmRun.Host, wasm), turns) ==
            WasmRun.Returned(WasmRun.Push(m'.regs.rax, WasmRun.Empty), wasm')
  {
    hide Run, WasmRun.Run, Invoked, Cells, CallTouches, Load, Mapped;
    steps, m' := CloneEntryReturns(l, m, n, word, cell);
    turns := WasmRun.SpinReturns(n, wasm);
    var o := WasmRun.Run(Wasm.PROGRAM, WasmRun.Continue(WasmRun.Frame(0, 0, WasmRun.Empty, WasmRun.Outermost, [n]),
                                                        WasmRun.Host, wasm), turns);
    wasm' := o.memory;
  }
}
