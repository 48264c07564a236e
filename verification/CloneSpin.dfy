module CloneSpin {
  import opened Text
  import opened ByteMemory
  import opened CloneMachine

  /** The stack pointer at entry, the instance pointer, the budget pointer and the linear
      memory base. */
  datatype Layout = Layout(sp: int, instance: int, budget: int, base: int)
  {
    /** The frame pointer of spin_clone. */
    function Frame(): int { sp - 56 }

    function Cell(): int { budget + 0x13 }
  }

  predicate Disjoint(a: int, size: nat, b: int, width: nat) { a + size <= b || b + width <= a }

  /** Nothing wraps, and the stack, the instance fields, the budget cell and the memory word
      are mapped and apart. */
  ghost predicate Placed(l: Layout, mem: Memory) {
    && 128 <= l.sp && l.sp + 8 < TWO_TO_64 && 0x60 <= l.instance && l.instance + 0x27 <= TWO_TO_64
    && 0 <= l.budget && l.budget + 0x17 <= TWO_TO_64 && 0 <= l.base && l.base + 4 <= TWO_TO_64
    && Mapped(mem, l.sp - 128, 136) && Mapped(mem, l.instance - 0x60, 8) && Mapped(mem, l.instance + 0x1f, 8)
    && Mapped(mem, l.Cell(), 4) && Mapped(mem, l.base, 4)
    && Disjoint(l.sp - 128, 136, l.instance - 0x60, 8) && Disjoint(l.sp - 128, 136, l.instance + 0x1f, 8)
    && Disjoint(l.sp - 128, 136, l.Cell(), 4) && Disjoint(l.sp - 128, 136, l.base, 4)
    && Disjoint(l.Cell(), 4, l.instance - 0x60, 8) && Disjoint(l.Cell(), 4, l.instance + 0x1f, 8)
    && Disjoint(l.base, 4, l.instance - 0x60, 8) && Disjoint(l.base, 4, l.instance + 0x1f, 8)
    && Disjoint(l.Cell(), 4, l.base, 4)
  }

  /** The instance fields the harness writes: a stack limit above every stack pointer and
      the linear memory base. */
  ghost predicate Instance(l: Layout, mem: Memory) {
    && Placed(l, mem)
    && Load(mem, l.instance - 0x60, 8) == TWO_TO_64 - 1 && Load(mem, l.instance + 0x1f, 8) == l.base
  }

  /** What a run of the code may write: its stack, the budget cell and the memory word. */
  predicate Writable(l: Layout, a: int, size: nat) {
    (l.sp - 128 <= a && a + size <= l.sp + 8) || (a == l.Cell() && size == 4) || (a == l.base && size == 4)
  }

  lemma PlacedStays(l: Layout, mem: Memory, mem': Memory)
    requires Placed(l, mem) && mem'.Keys == mem.Keys
    ensures Placed(l, mem')
  {
    hide Disjoint;
  }

  lemma WritableIsApart(l: Layout, mem: Memory, a: int, size: nat)
    requires Placed(l, mem) && Writable(l, a, size)
    ensures Disjoint(a, size, l.instance - 0x60, 8) && Disjoint(a, size, l.instance + 0x1f, 8)
  {
    hide Mapped;
  }

  /** A write keeps the instance fields. */
  lemma InstanceStays(l: Layout, mem: Memory, a: int, size: nat, v: nat)
    requires Instance(l, mem) && Mapped(mem, a, size) && Writable(l, a, size)
    ensures Instance(l, Store(mem, a, size, v))
  {
    hide Load, Store, Mapped, Placed, Writable;
    StoreFrame(mem, a, size, v);
    PlacedStays(l, mem, Store(mem, a, size, v));
    WritableIsApart(l, mem, a, size);
    Bounds(l, mem);
    LoadElsewhere(mem, a, size, v, l.instance - 0x60, 8);
    LoadElsewhere(mem, a, size, v, l.instance + 0x1f, 8);
  }

  // Single instructions whose addresses do not wrap.

  lemma InRange(x: int)
    requires 0 <= x < TWO_TO_64
    ensures Wrap64(x) == x
  {
  }

  lemma DoPush(m: Machine, r: Reg)
    requires m.pc >= 0 && 8 <= m.regs.rsp < TWO_TO_64 && Mapped(m.memory, m.regs.rsp - 8, 8)
    ensures Execute(PushQ(r), m) == Running(m.(pc := m.pc + 1, regs := m.regs.(rsp := m.regs.rsp - 8),
                                              memory := Store(m.memory, m.regs.rsp - 8, 8, m.regs.Get(r))))
  {
    InRange(m.regs.rsp - 8);
    hide Regs.Get, Regs.Put, Store, Mapped, Wrap64;
  }

  lemma DoCall(m: Machine, to: nat)
    requires m.pc >= 0 && 8 <= m.regs.rsp < TWO_TO_64 && Mapped(m.memory, m.regs.rsp - 8, 8)
    ensures Execute(Call(to), m) == Running(m.(pc := to, regs := m.regs.(rsp := m.regs.rsp - 8),
                                              memory := Store(m.memory, m.regs.rsp - 8, 8, m.pc + 1)))
  {
    InRange(m.regs.rsp - 8);
    hide Store, Mapped, Wrap64;
  }

  lemma DoLoadQ(m: Machine, disp: int, base: Reg, dst: Reg)
    requires m.pc >= 0 && 0 <= m.regs.Get(base) + disp < TWO_TO_64 && Mapped(m.memory, m.regs.Get(base) + disp, 8)
    ensures Execute(LoadQ(disp, base, dst), m) == Running(Set(m, dst, Load(m.memory, m.regs.Get(base) + disp, 8)))
  {
    InRange(m.regs.Get(base) + disp);
    hide Regs.Get, Regs.Put, Load, Mapped, Wrap64;
  }

  lemma DoLoadL(m: Machine, disp: int, base: Reg, dst: Reg)
    requires m.pc >= 0 && 0 <= m.regs.Get(base) + disp < TWO_TO_64 && Mapped(m.memory, m.regs.Get(base) + disp, 4)
    ensures Execute(LoadL(disp, base, dst), m) == Running(Set(m, dst, Load(m.memory, m.regs.Get(base) + disp, 4)))
  {
    InRange(m.regs.Get(base) + disp);
    hide Regs.Get, Regs.Put, Load, Mapped, Wrap64;
  }

  lemma DoStoreL(m: Machine, src: Reg, disp: int, base: Reg)
    requires m.pc >= 0 && 0 <= m.regs.Get(base) + disp < TWO_TO_64 && Mapped(m.memory, m.regs.Get(base) + disp, 4)
    ensures Execute(StoreL(src, disp, base), m) ==
            Running(m.(pc := m.pc + 1,
                       memory := Store(m.memory, m.regs.Get(base) + disp, 4, Wrap32(m.regs.Get(src)))))
  {
    InRange(m.regs.Get(base) + disp);
    hide Regs.Get, Regs.Put, Store, Mapped, Wrap64, Wrap32;
  }

  lemma DoStoreQ(m: Machine, src: Reg, disp: int, base: Reg)
    requires m.pc >= 0 && 0 <= m.regs.Get(base) + disp < TWO_TO_64 && Mapped(m.memory, m.regs.Get(base) + disp, 8)
    ensures Execute(StoreQ(src, disp, base), m) ==
            Running(m.(pc := m.pc + 1, memory := Store(m.memory, m.regs.Get(base) + disp, 8, m.regs.Get(src))))
  {
    InRange(m.regs.Get(base) + disp);
    hide Regs.Get, Regs.Put, Store, Mapped, Wrap64;
  }

  lemma DoAddMem(m: Machine, disp: int, base: Reg)
    requires m.pc >= 0 && 0 <= m.regs.Get(base) + disp < TWO_TO_64 && Mapped(m.memory, m.regs.Get(base) + disp, 4)
    ensures Execute(AddMemL(1, disp, base), m) ==
            Running(m.(pc := m.pc + 1,
                       memory := Store(m.memory, m.regs.Get(base) + disp, 4,
                                       Wrap32(Load(m.memory, m.regs.Get(base) + disp, 4) + 1))))
  {
    InRange(m.regs.Get(base) + disp);
    hide Regs.Get, Regs.Put, Store, Load, Mapped, Wrap64, Wrap32;
  }

  /** The stack check passes: the limit is above every stack pointer. */
  lemma DoStackCheck(l: Layout, m: Machine)
    requires m.pc >= 0 && Instance(l, m.memory) && m.regs.r13 == l.instance && m.regs.rsp < TWO_TO_64 - 1
    ensures Execute(CmpMemQ(RSP, -0x60, R13), m) == Running(m.(pc := m.pc + 1, flags := Flags(false, false)))
  {
    Bounds(l, m.memory);
    InRange(l.instance - 0x60);
    hide Load, Mapped, Wrap64, Placed;
  }

  lemma DoLeave(m: Machine)
    requires m.pc >= 0 && 0 <= m.regs.rbp && m.regs.rbp + 8 < TWO_TO_64 && Mapped(m.memory, m.regs.rbp, 8)
    ensures Execute(Leave, m) ==
            Running(m.(pc := m.pc + 1, regs := m.regs.(rsp := m.regs.rbp + 8, rbp := Load(m.memory, m.regs.rbp, 8))))
  {
    InRange(m.regs.rbp + 8);
    hide Load, Mapped, Wrap64;
  }

  lemma DoRet(m: Machine)
    requires m.pc >= 0 && m.regs.rsp + 8 < TWO_TO_64 && Mapped(m.memory, m.regs.rsp, 8)
    ensures Execute(Ret, m) ==
            Running(m.(pc := Load(m.memory, m.regs.rsp, 8), regs := m.regs.(rsp := m.regs.rsp + 8)))
  {
    InRange(m.regs.rsp + 8);
    hide Load, Mapped, Wrap64;
  }

  lemma DoPop(m: Machine, r: Reg)
    requires m.pc >= 0 && m.regs.rsp + 8 < TWO_TO_64 && Mapped(m.memory, m.regs.rsp, 8)
    ensures Execute(PopQ(r), m) ==
            Running(m.(pc := m.pc + 1, regs := m.regs.(rsp := m.regs.rsp + 8).Put(r, Load(m.memory, m.regs.rsp, 8))))
  {
    InRange(m.regs.rsp + 8);
    hide Regs.Get, Regs.Put, Load, Mapped, Wrap64;
  }

  lemma DoAdjust(m: Machine, amount: nat)
    requires m.pc >= 0
    ensures amount <= m.regs.rsp < TWO_TO_64 ==>
              Execute(SubImmQ(amount, RSP), m) == Running(m.(pc := m.pc + 1, regs := m.regs.(rsp := m.regs.rsp - amount)))
    ensures m.regs.rsp + amount < TWO_TO_64 ==>
              Execute(AddImmQ(amount, RSP), m) == Running(m.(pc := m.pc + 1, regs := m.regs.(rsp := m.regs.rsp + amount)))
  {
    if amount <= m.regs.rsp < TWO_TO_64 { InRange(m.regs.rsp - amount); }
    if m.regs.rsp + amount < TWO_TO_64 { InRange(m.regs.rsp + amount); }
  }

  /** One more instruction of a run. */
  lemma Next(o: Outcome, k: nat, m: Machine, i: Instr, m': Machine)
    requires Run(o, k) == Running(m) && 0 <= m.pc < CALLER && Fetch(m.pc) == i && Execute(i, m) == Running(m')
    ensures Run(o, k + 1) == Running(m')
  {
    RunAdds(o, k, 1);
    hide Execute, Fetch;
  }

  /** Jumps, moves between registers and the landing pad. */
  lemma DoSimple(m: Machine, i: Instr)
    requires m.pc >= 0
    ensures i == Endbr64 ==> Execute(i, m) == Running(m.(pc := m.pc + 1))
    ensures i.Jmp? ==> Execute(i, m) == Running(m.(pc := i.to))
    ensures i.MovQ? ==> Execute(i, m) == Running(Set(m, i.dst, m.regs.Get(i.src)))
    ensures i.Jna? && m.flags == Flags(false, false) ==> Execute(i, m) == Running(m.(pc := m.pc + 1))
    ensures i.Jz? ==> Execute(i, m) == Running(m.(pc := if m.flags.zero then i.to else m.pc + 1))
  {
    hide Store, Load, Mapped, Wrap64, Wrap32;
  }

  lemma StackIsMapped(l: Layout, mem: Memory, a: int, size: nat)
    requires Placed(l, mem) && l.sp - 128 <= a && a + size <= l.sp + 8
    ensures Mapped(mem, a, size)
  {
  }

  /** The bounds of a layout and the instance fields. */
  lemma Bounds(l: Layout, mem: Memory)
    requires Instance(l, mem)
    ensures Placed(l, mem) && Load(mem, l.instance + 0x1f, 8) == l.base
    ensures 128 <= l.sp && l.sp + 8 < TWO_TO_64 && 0x60 <= l.instance && l.instance + 0x27 <= TWO_TO_64
    ensures 0 <= l.budget && l.budget + 0x17 <= TWO_TO_64 && 0 <= l.base && l.base + 4 <= TWO_TO_64
    ensures Mapped(mem, l.instance - 0x60, 8) && Mapped(mem, l.instance + 0x1f, 8)
    ensures Mapped(mem, l.Cell(), 4) && Mapped(mem, l.base, 4)
  {
    hide Mapped, Disjoint, Load;
  }

  // bump_clone, called through the jump table.

  lemma BumpHead()
    ensures Fetch(47) == Jmp(BUMP_CLONE) && Fetch(48) == Endbr64 && Fetch(49) == PushQ(RBP)
  {
    CodeAt(47); CodeAt(48); CodeAt(49);
    hide Fetch, CODE, ENTRY, SPIN_PROLOGUE, SPIN_LOOP, SPIN_EXIT;
  }

  lemma BumpCheck()
    ensures Fetch(50) == MovQ(RSP, RBP) && Fetch(51) == SubImmQ(8, RSP) && Fetch(52) == CmpMemQ(RSP, -0x60, R13)
    ensures Fetch(53) == Jna(BUMP_STACKFAIL)
  {
    CodeAt(50); CodeAt(51); CodeAt(52); CodeAt(53);
    hide Fetch, CODE, ENTRY, SPIN_PROLOGUE, SPIN_LOOP, SPIN_EXIT;
  }

  lemma BumpBody()
    ensures Fetch(54) == LoadQ(0x1f, RSI, RAX) && Fetch(55) == LoadL(0, RAX, RCX) && Fetch(56) == AddImmL(1, RCX)
    ensures Fetch(57) == StoreL(RCX, 0, RAX)
  {
    CodeAt(54); CodeAt(55); CodeAt(56); CodeAt(57);
    hide Fetch, CODE, ENTRY, SPIN_PROLOGUE, SPIN_LOOP, SPIN_EXIT;
  }

  lemma BumpTail()
    ensures Fetch(58) == Leave && Fetch(59) == Ret
  {
    CodeAt(58); CodeAt(59);
    hide Fetch, CODE, ENTRY, SPIN_PROLOGUE, SPIN_LOOP, SPIN_EXIT;
  }

  lemma WrapTwice(x: int)
    ensures Wrap32(Wrap32(x)) == Wrap32(x)
  {
  }

  ghost predicate AtBump(l: Layout, m: Machine) {
    && m.pc == JT_BUMP && Instance(l, m.memory)
    && m.regs.rbp == l.Frame() && m.regs.rsp == l.Frame() - 0x38
    && m.regs.rsi == l.instance && m.regs.r13 == l.instance
  }

  /** The state of bump_clone once it has pushed the frame pointer. */
  function BumpPushed(l: Layout, m: Machine): Machine
    requires Mapped(m.memory, l.Frame() - 0x40, 8) && l.Frame() >= 0x40
  {
    m.(pc := 50, regs := m.regs.(rsp := l.Frame() - 0x40),
       memory := Store(m.memory, l.Frame() - 0x40, 8, l.Frame()))
  }

  lemma BumpPushes(l: Layout, m: Machine)
    requires AtBump(l, m)
    ensures Mapped(m.memory, l.Frame() - 0x40, 8) && l.Frame() >= 0x40
    ensures Run(Running(m), 3) == Running(BumpPushed(l, m))
  {
    hide Fetch, Run, Load, Store, Execute, Mapped, Placed, Instance;
    Bounds(l, m.memory);
    StackIsMapped(l, m.memory, l.Frame() - 0x40, 8);
    BumpHead();
    RunNone(Running(m));
    DoSimple(m, Jmp(BUMP_CLONE));
    Next(Running(m), 0, m, Jmp(BUMP_CLONE), m.(pc := 48));
    DoSimple(m.(pc := 48), Endbr64);
    Next(Running(m), 1, m.(pc := 48), Endbr64, m.(pc := 49));
    DoPush(m.(pc := 49), RBP);
    Next(Running(m), 2, m.(pc := 49), PushQ(RBP), BumpPushed(l, m));
  }

  /** A function's prologue from its frame pointer to past its stack check. */
  lemma BumpChecks(l: Layout, m: Machine)
    requires m.pc == 50 && Instance(l, m.memory) && m.regs.r13 == l.instance && m.regs.rsp == l.Frame() - 0x40
    ensures Run(Running(m), 4) ==
            Running(m.(pc := 54, regs := m.regs.(rbp := l.Frame() - 0x40, rsp := l.Frame() - 0x48),
                       flags := Flags(false, false)))
  {
    hide Fetch, Run, Load, Store, Execute, Mapped, Placed, Instance;
    Bounds(l, m.memory);
    BumpCheck();
    RunNone(Running(m));
    DoSimple(m, MovQ(RSP, RBP));
    var m1 := m.(pc := 51, regs := m.regs.(rbp := l.Frame() - 0x40));
    Next(Running(m), 0, m, MovQ(RSP, RBP), m1);
    DoAdjust(m1, 8);
    var m2 := m1.(pc := 52, regs := m1.regs.(rsp := l.Frame() - 0x48));
    Next(Running(m), 1, m1, SubImmQ(8, RSP), m2);
    DoStackCheck(l, m2);
    var m3 := m2.(pc := 53, flags := Flags(false, false));
    Next(Running(m), 2, m2, CmpMemQ(RSP, -0x60, R13), m3);
    DoSimple(m3, Jna(BUMP_STACKFAIL));
    Next(Running(m), 3, m3, Jna(BUMP_STACKFAIL), m3.(pc := 54));
  }

  lemma BumpEnters(l: Layout, m: Machine)
    requires AtBump(l, m)
    ensures Mapped(m.memory, l.Frame() - 0x40, 8)
    ensures Run(Running(m), 7) ==
            Running(Machine(54, m.regs.(rbp := l.Frame() - 0x40, rsp := l.Frame() - 0x48), Flags(false, false),
                            Store(m.memory, l.Frame() - 0x40, 8, l.Frame()), m.patch))
    ensures Instance(l, Store(m.memory, l.Frame() - 0x40, 8, l.Frame()))
  {
    BumpPushes(l, m);
    InstanceStays(l, m.memory, l.Frame() - 0x40, 8, l.Frame());
    hide Run, Load, Store, Mapped, Placed, Instance;
    BumpChecks(l, BumpPushed(l, m));
    RunAdds(Running(m), 3, 4);
  }

  /** The body: add one to the memory word. */
  lemma BumpAdds(l: Layout, m: Machine) returns (m': Machine)
    requires m.pc == 54 && Instance(l, m.memory) && m.regs.rsi == l.instance
    ensures Mapped(m.memory, l.base, 4) && Run(Running(m), 4) == Running(m')
    ensures m' == m.(pc := 58, regs := m.regs.(rax := l.base, rcx := m'.regs.rcx),
                     memory := Store(m.memory, l.base, 4, Wrap32(Load(m.memory, l.base, 4) + 1)))
  {
    hide Fetch, Run, Load, Store, Execute, Mapped, Placed, Instance, Wrap32;
    Bounds(l, m.memory);
    BumpBody();
    RunNone(Running(m));
    var v := Load(m.memory, l.base, 4);
    DoLoadQ(m, 0x1f, RSI, RAX);
    var m1 := m.(pc := 55, regs := m.regs.(rax := l.base));
    Next(Running(m), 0, m, LoadQ(0x1f, RSI, RAX), m1);
    DoLoadL(m1, 0, RAX, RCX);
    var m2 := m1.(pc := 56, regs := m1.regs.(rcx := v));
    Next(Running(m), 1, m1, LoadL(0, RAX, RCX), m2);
    DoAddL(m2);
    var m3 := m2.(pc := 57, regs := m2.regs.(rcx := Wrap32(v + 1)));
    Next(Running(m), 2, m2, AddImmL(1, RCX), m3);
    DoStoreL(m3, RCX, 0, RAX);
    WrapTwice(v + 1);
    m' := m3.(pc := 58, memory := Store(m.memory, l.base, 4, Wrap32(v + 1)));
    Next(Running(m), 3, m3, StoreL(RCX, 0, RAX), m');
  }

  lemma DoAddL(m: Machine)
    requires m.pc >= 0
    ensures Execute(AddImmL(1, RCX), m) ==
            Running(m.(pc := m.pc + 1, regs := m.regs.(rcx := Wrap32(m.regs.rcx + 1))))
  {
    hide Wrap32;
  }

  /** Both frames are popped: back after the call in spin_clone. */
  lemma BumpReturns(l: Layout, m: Machine)
    requires m.pc == 58 && 128 <= l.sp && l.sp + 8 < TWO_TO_64 && m.regs.rbp == l.Frame() - 0x40
    requires Mapped(m.memory, l.Frame() - 0x40, 8) && Load(m.memory, l.Frame() - 0x40, 8) == l.Frame()
    requires Mapped(m.memory, l.Frame() - 0x38, 8) && Load(m.memory, l.Frame() - 0x38, 8) == 34
    ensures Run(Running(m), 2) == Running(m.(pc := 34, regs := m.regs.(rbp := l.Frame(), rsp := l.Frame() - 0x30)))
  {
    hide Fetch, Run, Load, Store, Execute, Mapped, Placed;
    BumpTail();
    RunNone(Running(m));
    DoLeave(m);
    var m1 := m.(pc := 59, regs := m.regs.(rsp := l.Frame() - 0x38, rbp := l.Frame()));
    Next(Running(m), 0, m, Leave, m1);
    DoRet(m1);
    Next(Running(m), 1, m1, Ret, m.(pc := 34, regs := m.regs.(rbp := l.Frame(), rsp := l.Frame() - 0x30)));
  }

  lemma RunNone(o: Outcome)
    ensures Run(o, 0) == o
  {
  }

  // The locals of spin_clone, the memory word and the budget cell.

  ghost predicate Words(l: Layout, mem: Memory, n: nat, word: nat, cell: nat) {
    && Instance(l, mem)
    && Load(mem, l.Frame() - 0x24, 4) == n && Load(mem, l.Frame() - 0x10, 8) == l.instance
    && Load(mem, l.Frame() - 0x18, 8) == l.budget
    && Load(mem, l.base, 4) == word && Load(mem, l.Cell(), 4) == cell
  }

  /** The five addresses are mapped. */
  lemma WordsAreMapped(l: Layout, mem: Memory)
    requires Placed(l, mem)
    ensures Mapped(mem, l.Frame() - 0x24, 4) && Mapped(mem, l.Frame() - 0x10, 8) && Mapped(mem, l.Frame() - 0x18, 8)
    ensures Mapped(mem, l.Frame() - 0x38, 8) && Mapped(mem, l.Frame() - 0x40, 8)
    ensures Mapped(mem, l.base, 4) && Mapped(mem, l.Cell(), 4)
  {
    hide Disjoint;
  }

  lemma CellsAreApart(l: Layout, mem: Memory, a: int, size: nat)
    requires Placed(l, mem) && l.sp - 128 <= a && a + size <= l.sp + 8
    ensures Disjoint(a, size, l.base, 4) && Disjoint(a, size, l.Cell(), 4) && Disjoint(l.Cell(), 4, l.base, 4)
  {
    hide Mapped;
  }

  /** A value stored apart from all five words. */
  lemma WordsAfterPush(l: Layout, mem: Memory, n: nat, word: nat, cell: nat, a: int, v: nat)
    requires Words(l, mem, n, word, cell) && (a == l.Frame() - 0x38 || a == l.Frame() - 0x40)
    ensures Mapped(mem, a, 8) && Words(l, Store(mem, a, 8, v), n, word, cell)
  {
    hide Load, Store, Mapped, Placed;
    Bounds(l, mem);
    WordsAreMapped(l, mem);
    CellsAreApart(l, mem, a, 8);
    InstanceStays(l, mem, a, 8, v);
    LoadElsewhere(mem, a, 8, v, l.Frame() - 0x24, 4);
    LoadElsewhere(mem, a, 8, v, l.Frame() - 0x10, 8);
    LoadElsewhere(mem, a, 8, v, l.Frame() - 0x18, 8);
    LoadElsewhere(mem, a, 8, v, l.base, 4);
    LoadElsewhere(mem, a, 8, v, l.Cell(), 4);
  }

  lemma WordsAfterBudget(l: Layout, mem: Memory, n: nat, word: nat, cell: nat, v: nat)
    requires Words(l, mem, n, word, cell) && v < TWO_TO_32
    ensures Mapped(mem, l.Cell(), 4) && Words(l, Store(mem, l.Cell(), 4, v), n, word, v)
  {
    hide Load, Store, Mapped, Placed;
    Widths();
    Bounds(l, mem);
    WordsAreMapped(l, mem);
    CellsAreApart(l, mem, l.Frame() - 0x24, 4);
    CellsAreApart(l, mem, l.Frame() - 0x10, 8);
    CellsAreApart(l, mem, l.Frame() - 0x18, 8);
    InstanceStays(l, mem, l.Cell(), 4, v);
    LoadElsewhere(mem, l.Cell(), 4, v, l.Frame() - 0x24, 4);
    LoadElsewhere(mem, l.Cell(), 4, v, l.Frame() - 0x10, 8);
    LoadElsewhere(mem, l.Cell(), 4, v, l.Frame() - 0x18, 8);
    LoadElsewhere(mem, l.Cell(), 4, v, l.base, 4);
    LoadStored(mem, l.Cell(), 4, v);
  }

  lemma WordsAfterBump(l: Layout, mem: Memory, n: nat, word: nat, cell: nat, v: nat)
    requires Words(l, mem, n, word, cell) && v < TWO_TO_32
    ensures Mapped(mem, l.base, 4) && Words(l, Store(mem, l.base, 4, v), n, v, cell)
  {
    hide Load, Store, Mapped, Placed;
    Widths();
    Bounds(l, mem);
    WordsAreMapped(l, mem);
    CellsAreApart(l, mem, l.Frame() - 0x24, 4);
    CellsAreApart(l, mem, l.Frame() - 0x10, 8);
    CellsAreApart(l, mem, l.Frame() - 0x18, 8);
    InstanceStays(l, mem, l.base, 4, v);
    LoadElsewhere(mem, l.base, 4, v, l.Frame() - 0x24, 4);
    LoadElsewhere(mem, l.base, 4, v, l.Frame() - 0x10, 8);
    LoadElsewhere(mem, l.base, 4, v, l.Frame() - 0x18, 8);
    LoadElsewhere(mem, l.base, 4, v, l.Cell(), 4);
    LoadStored(mem, l.base, 4, v);
  }

  lemma WordsAfterCount(l: Layout, mem: Memory, n: nat, word: nat, cell: nat, v: nat)
    requires Words(l, mem, n, word, cell) && v < TWO_TO_32
    ensures Mapped(mem, l.Frame() - 0x24, 4) && Words(l, Store(mem, l.Frame() - 0x24, 4, v), v, word, cell)
  {
    hide Load, Store, Mapped, Placed;
    Widths();
    Bounds(l, mem);
    WordsAreMapped(l, mem);
    CellsAreApart(l, mem, l.Frame() - 0x24, 4);
    InstanceStays(l, mem, l.Frame() - 0x24, 4, v);
    LoadElsewhere(mem, l.Frame() - 0x24, 4, v, l.Frame() - 0x10, 8);
    LoadElsewhere(mem, l.Frame() - 0x24, 4, v, l.Frame() - 0x18, 8);
    LoadElsewhere(mem, l.Frame() - 0x24, 4, v, l.base, 4);
    LoadElsewhere(mem, l.Frame() - 0x24, 4, v, l.Cell(), 4);
    LoadStored(mem, l.Frame() - 0x24, 4, v);
  }

  /** Bytes a turn of the loop must not touch: all but its own stack, the cell and the word. */
  predicate Touchable(l: Layout, i: int) {
    l.sp - 128 <= i < l.sp - 56 || l.Cell() <= i < l.Cell() + 4 || l.base <= i < l.base + 4
  }

  ghost predicate Kept(l: Layout, mem: Memory, mem': Memory) {
    mem'.Keys == mem.Keys && forall i :: i in mem && !Touchable(l, i) ==> mem'[i] == mem[i]
  }

  lemma KeptAfterStore(l: Layout, first: Memory, mem: Memory, a: int, size: nat, v: nat)
    requires Kept(l, first, mem) && Mapped(mem, a, size)
    requires forall i :: a <= i < a + size ==> Touchable(l, i)
    ensures Kept(l, first, Store(mem, a, size, v))
  {
    hide Store, Mapped, Touchable;
    StoreFrame(mem, a, size, v);
  }

  /** A call of bump_clone adds one to the memory word, leaves the other words, and returns
      behind the call. */
  lemma BumpCall(l: Layout, m: Machine, n: nat, word: nat, cell: nat) returns (m': Machine)
    requires AtBump(l, m) && Words(l, m.memory, n, word, cell)
    requires Mapped(m.memory, l.Frame() - 0x38, 8) && Load(m.memory, l.Frame() - 0x38, 8) == 34
    ensures Run(Running(m), 13) == Running(m') && m'.pc == 34
    ensures m'.regs == m.regs.(rax := m'.regs.rax, rcx := m'.regs.rcx, rsp := l.Frame() - 0x30)
    ensures Words(l, m'.memory, n, Wrap32(word + 1), cell) && Kept(l, m.memory, m'.memory)
  {
    hide Run, Load, Store, Mapped, Placed, Instance, Execute, Words, Touchable, Wrap32;
    Bounds(l, m.memory);
    var m7 := Machine(54, m.regs.(rbp := l.Frame() - 0x40, rsp := l.Frame() - 0x48), Flags(false, false),
                      PushedMemory(l, m), m.patch);
    BumpEnters(l, m);
    var m11 := BumpAdds(l, m7);
    RunAdds(Running(m), 7, 4);
    BumpWords(l, m, n, word, cell);
    BumpReturns(l, m11);
    RunAdds(Running(m), 11, 2);
    m' := m11.(pc := 34, regs := m11.regs.(rbp := l.Frame(), rsp := l.Frame() - 0x30));
  }

  ghost function PushedMemory(l: Layout, m: Machine): Memory
    requires AtBump(l, m)
  {
    Bounds(l, m.memory);
    StackIsMapped(l, m.memory, l.Frame() - 0x40, 8);
    Store(m.memory, l.Frame() - 0x40, 8, l.Frame())
  }

  /** The two stores of bump_clone. */
  lemma BumpWords(l: Layout, m: Machine, n: nat, word: nat, cell: nat)
    requires AtBump(l, m) && Words(l, m.memory, n, word, cell)
    requires Mapped(m.memory, l.Frame() - 0x38, 8) && Load(m.memory, l.Frame() - 0x38, 8) == 34
    ensures Mapped(PushedMemory(l, m), l.base, 4) && Load(PushedMemory(l, m), l.base, 4) == word
    ensures var after := Store(PushedMemory(l, m), l.base, 4, Wrap32(word + 1));
      && Words(l, after, n, Wrap32(word + 1), cell) && Kept(l, m.memory, after)
      && Mapped(after, l.Frame() - 0x40, 8) && Load(after, l.Frame() - 0x40, 8) == l.Frame()
      && Mapped(after, l.Frame() - 0x38, 8) && Load(after, l.Frame() - 0x38, 8) == 34
  {
    hide Load, Store, Mapped, Placed, Instance, Touchable;
    Widths();
    Bounds(l, m.memory);
    WordsAreMapped(l, m.memory);
    CellsAreApart(l, m.memory, l.Frame() - 0x40, 8);
    CellsAreApart(l, m.memory, l.Frame() - 0x38, 8);
    WordsAfterPush(l, m.memory, n, word, cell, l.Frame() - 0x40, l.Frame());
    LoadStored(m.memory, l.Frame() - 0x40, 8, l.Frame());
    LoadElsewhere(m.memory, l.Frame() - 0x40, 8, l.Frame(), l.Frame() - 0x38, 8);
    var pushed := PushedMemory(l, m);
    Bounds(l, pushed);
    WordsAreMapped(l, pushed);
    assert Wrap32(word + 1) < TWO_TO_32;
    WordsAfterBump(l, pushed, n, word, cell, Wrap32(word + 1));
    LoadElsewhere(pushed, l.base, 4, Wrap32(word + 1), l.Frame() - 0x40, 8);
    LoadElsewhere(pushed, l.base, 4, Wrap32(word + 1), l.Frame() - 0x38, 8);
    assert Kept(l, m.memory, m.memory);
    TouchesStack(l, l.Frame() - 0x40);
    TouchesCells(l);
    KeptAfterStore(l, m.memory, m.memory, l.Frame() - 0x40, 8, l.Frame());
    KeptAfterStore(l, m.memory, pushed, l.base, 4, Wrap32(word + 1));
  }

  lemma TouchesStack(l: Layout, a: int)
    ensures l.sp - 128 <= a && a + 8 <= l.sp - 56 ==> forall i :: a <= i < a + 8 ==> Touchable(l, i)
  {
  }

  lemma TouchesCells(l: Layout)
    ensures forall i :: l.Cell() <= i < l.Cell() + 4 ==> Touchable(l, i)
    ensures forall i :: l.base <= i < l.base + 4 ==> Touchable(l, i)
  {
  }

  // One turn of the loop in spin_clone.

  ghost predicate AtHead(l: Layout, m: Machine, n: nat, word: nat, cell: nat) {
    && m.pc == SPIN_HEAD && Words(l, m.memory, n, word, cell)
    && m.regs.rbp == l.Frame() && m.regs.rsp == l.Frame() - 0x30
    && m.regs.rsi == l.instance && m.regs.r13 == l.instance
  }

  /** Everything but the scratch registers is as it was. */
  predicate SameRegs(r: Regs, r': Regs) { r' == r.(rax := r'.rax, rcx := r'.rcx) }

  lemma LoopHead()
    ensures Fetch(26) == CmpMemQ(RSP, -0x60, R13) && Fetch(27) == Jna(SPIN_STACKFAIL)
    ensures Fetch(28) == LoadL(-0x24, RBP, RAX) && Fetch(29) == TestL(RAX) && Fetch(30) == Jz(SPIN_DONE)
  {
    CodeAt(26); CodeAt(27); CodeAt(28); CodeAt(29); CodeAt(30);
    hide Fetch, CODE, ENTRY, SPIN_PROLOGUE, SPIN_EXIT, BUMP;
  }

  lemma LoopMiddle()
    ensures Fetch(31) == LoadQ(-0x18, RBP, RAX) && Fetch(32) == AddMemL(1, 0x13, RAX) && Fetch(33) == Call(JT_BUMP)
  {
    CodeAt(31); CodeAt(32); CodeAt(33);
    hide Fetch, CODE, ENTRY, SPIN_PROLOGUE, SPIN_EXIT, BUMP;
  }

  lemma LoopTail()
    ensures Fetch(34) == LoadL(-0x24, RBP, RAX) && Fetch(35) == MovImmL(1, RCX) && Fetch(36) == SubL(RCX, RAX)
    ensures Fetch(37) == StoreL(RAX, -0x24, RBP) && Fetch(38) == LoadQ(-0x10, RBP, RSI) && Fetch(39) == Jmp(SPIN_HEAD)
  {
    CodeAt(34); CodeAt(35); CodeAt(36); CodeAt(37); CodeAt(38); CodeAt(39);
    hide Fetch, CODE, ENTRY, SPIN_PROLOGUE, SPIN_EXIT, BUMP;
  }

  lemma DoTest(m: Machine)
    requires m.pc >= 0 && m.regs.rax < TWO_TO_32
    ensures Execute(TestL(RAX), m) == Running(m.(pc := m.pc + 1, flags := Flags(false, m.regs.rax == 0)))
  {
    hide Load, Store, Mapped;
  }

  /** The stack check and the test of the counter. */
  lemma LoopTests(l: Layout, m: Machine, n: nat, word: nat, cell: nat)
    requires AtHead(l, m, n, word, cell) && n < TWO_TO_32
    ensures Run(Running(m), 5) ==
            Running(m.(pc := if n == 0 then SPIN_DONE else 31, regs := m.regs.(rax := n), flags := Flags(false, n == 0)))
  {
    hide Fetch, Run, Load, Store, Execute, Mapped, Placed, Instance, Wrap32;
    Bounds(l, m.memory);
    WordsAreMapped(l, m.memory);
    LoopHead();
    RunNone(Running(m));
    DoStackCheck(l, m);
    var m1 := m.(pc := 27, flags := Flags(false, false));
    Next(Running(m), 0, m, CmpMemQ(RSP, -0x60, R13), m1);
    DoSimple(m1, Jna(SPIN_STACKFAIL));
    Next(Running(m), 1, m1, Jna(SPIN_STACKFAIL), m1.(pc := 28));
    DoLoadL(m1.(pc := 28), -0x24, RBP, RAX);
    var m3 := m1.(pc := 29, regs := m.regs.(rax := n));
    Next(Running(m), 2, m1.(pc := 28), LoadL(-0x24, RBP, RAX), m3);
    DoTest(m3);
    var m4 := m3.(pc := 30, flags := Flags(false, n == 0));
    Next(Running(m), 3, m3, TestL(RAX), m4);
    DoSimple(m4, Jz(SPIN_DONE));
    Next(Running(m), 4, m4, Jz(SPIN_DONE), m4.(pc := if n == 0 then SPIN_DONE else 31));
  }

  /** The budget bump and the call. */
  lemma LoopCalls(l: Layout, m: Machine, n: nat, word: nat, cell: nat) returns (m': Machine)
    requires m.pc == 31 && Words(l, m.memory, n, word, cell)
    requires m.regs.rbp == l.Frame() && m.regs.rsp == l.Frame() - 0x30
    requires m.regs.rsi == l.instance && m.regs.r13 == l.instance
    ensures Run(Running(m), 3) == Running(m') && AtBump(l, m')
    ensures m'.regs == m.regs.(rax := l.budget, rsp := l.Frame() - 0x38)
    ensures Words(l, m'.memory, n, word, Wrap32(cell + 1)) && Kept(l, m.memory, m'.memory)
    ensures Mapped(m'.memory, l.Frame() - 0x38, 8) && Load(m'.memory, l.Frame() - 0x38, 8) == 34
  {
    hide Fetch, Run, Load, Store, Execute, Mapped, Placed, Instance, Touchable;
    Widths();
    Bounds(l, m.memory);
    WordsAreMapped(l, m.memory);
    LoopMiddle();
    RunNone(Running(m));
    DoLoadQ(m, -0x18, RBP, RAX);
    var m1 := m.(pc := 32, regs := m.regs.(rax := l.budget));
    Next(Running(m), 0, m, LoadQ(-0x18, RBP, RAX), m1);
    DoAddMem(m1, 0x13, RAX);
    assert Wrap32(cell + 1) < TWO_TO_32;
    var m2 := m1.(pc := 33, memory := Store(m.memory, l.Cell(), 4, Wrap32(cell + 1)));
    Next(Running(m), 1, m1, AddMemL(1, 0x13, RAX), m2);
    WordsAfterBudget(l, m.memory, n, word, cell, Wrap32(cell + 1));
    Bounds(l, m2.memory);
    WordsAreMapped(l, m2.memory);
    DoCall(m2, JT_BUMP);
    m' := m2.(pc := JT_BUMP, regs := m2.regs.(rsp := l.Frame() - 0x38),
              memory := Store(m2.memory, l.Frame() - 0x38, 8, 34));
    Next(Running(m), 2, m2, Call(JT_BUMP), m');
    CallIsKept(l, m.memory, m2.memory, n, word, cell);
  }

  lemma CallIsKept(l: Layout, mem: Memory, mem': Memory, n: nat, word: nat, cell: nat)
    requires Words(l, mem, n, word, cell) && Mapped(mem, l.Cell(), 4)
    requires mem' == Store(mem, l.Cell(), 4, Wrap32(cell + 1)) && Words(l, mem', n, word, Wrap32(cell + 1))
    ensures Mapped(mem', l.Frame() - 0x38, 8) && Mapped(Store(mem', l.Frame() - 0x38, 8, 34), l.Frame() - 0x38, 8)
    ensures Words(l, Store(mem', l.Frame() - 0x38, 8, 34), n, word, Wrap32(cell + 1))
    ensures Kept(l, mem, Store(mem', l.Frame() - 0x38, 8, 34))
    ensures Load(Store(mem', l.Frame() - 0x38, 8, 34), l.Frame() - 0x38, 8) == 34
  {
    hide Load, Store, Mapped, Placed, Instance, Touchable, Wrap32;
    Widths();
    Bounds(l, mem');
    WordsAreMapped(l, mem');
    WordsAfterPush(l, mem', n, word, Wrap32(cell + 1), l.Frame() - 0x38, 34);
    LoadStored(mem', l.Frame() - 0x38, 8, 34);
    assert Kept(l, mem, mem);
    TouchesStack(l, l.Frame() - 0x38);
    TouchesCells(l);
    KeptAfterStore(l, mem, mem, l.Cell(), 4, Wrap32(cell + 1));
    KeptAfterStore(l, mem, mem', l.Frame() - 0x38, 8, 34);
  }

  /** The counter goes down and the loop closes. */
  lemma LoopCloses(l: Layout, m: Machine, n: nat, word: nat, cell: nat) returns (m': Machine)
    requires m.pc == 34 && Words(l, m.memory, n, word, cell) && 0 < n < TWO_TO_32
    requires m.regs.rbp == l.Frame() && m.regs.rsp == l.Frame() - 0x30 && m.regs.r13 == l.instance
    ensures Run(Running(m), 6) == Running(m') && AtHead(l, m', n - 1, word, cell)
    ensures SameRegs(m.regs.(rsi := l.instance), m'.regs) && Kept(l, m.memory, m'.memory)
  {
    hide Fetch, Run, Load, Store, Execute, Mapped, Placed, Instance, Touchable;
    Bounds(l, m.memory);
    WordsAreMapped(l, m.memory);
    LoopTail();
    RunNone(Running(m));
    DoLoadL(m, -0x24, RBP, RAX);
    var m1 := m.(pc := 35, regs := m.regs.(rax := n));
    Next(Running(m), 0, m, LoadL(-0x24, RBP, RAX), m1);
    DoCount(m1);
    var m2 := m1.(pc := 36, regs := m1.regs.(rcx := 1));
    Next(Running(m), 1, m1, MovImmL(1, RCX), m2);
    var m3 := m2.(pc := 37, regs := m2.regs.(rax := n - 1));
    DoCount(m2);
    Next(Running(m), 2, m2, SubL(RCX, RAX), m3);
    DoStoreL(m3, RAX, -0x24, RBP);
    var m4 := m3.(pc := 38, memory := Store(m.memory, l.Frame() - 0x24, 4, n - 1));
    Next(Running(m), 3, m3, StoreL(RAX, -0x24, RBP), m4);
    CountIsKept(l, m.memory, n, word, cell);
    DoLoadQ(m4, -0x10, RBP, RSI);
    var m5 := m4.(pc := 39, regs := m4.regs.(rsi := l.instance));
    Next(Running(m), 4, m4, LoadQ(-0x10, RBP, RSI), m5);
    DoSimple(m5, Jmp(SPIN_HEAD));
    m' := m5.(pc := SPIN_HEAD);
    Next(Running(m), 5, m5, Jmp(SPIN_HEAD), m');
  }

  lemma DoCount(m: Machine)
    requires m.pc >= 0
    ensures Execute(MovImmL(1, RCX), m) == Running(m.(pc := m.pc + 1, regs := m.regs.(rcx := 1)))
    ensures 0 < m.regs.rax < TWO_TO_32 && m.regs.rcx == 1 ==>
              Execute(SubL(RCX, RAX), m) == Running(m.(pc := m.pc + 1, regs := m.regs.(rax := m.regs.rax - 1)))
  {
    hide Load, Store, Mapped;
  }

  lemma CountIsKept(l: Layout, mem: Memory, n: nat, word: nat, cell: nat)
    requires Words(l, mem, n, word, cell) && 0 < n < TWO_TO_32
    ensures Mapped(mem, l.Frame() - 0x24, 4)
    ensures var after := Store(mem, l.Frame() - 0x24, 4, n - 1);
      Words(l, after, n - 1, word, cell) && Kept(l, mem, after) && Mapped(after, l.Frame() - 0x10, 8)
  {
    hide Load, Store, Mapped, Placed, Instance;
    Bounds(l, mem);
    WordsAreMapped(l, mem);
    WordsAfterCount(l, mem, n, word, cell, n - 1);
    Bounds(l, Store(mem, l.Frame() - 0x24, 4, n - 1));
    WordsAreMapped(l, Store(mem, l.Frame() - 0x24, 4, n - 1));
    assert Kept(l, mem, mem);
    KeptAfterStore(l, mem, mem, l.Frame() - 0x24, 4, n - 1);
  }

  lemma KeptTwice(l: Layout, a: Memory, b: Memory, c: Memory)
    requires Kept(l, a, b) && Kept(l, b, c)
    ensures Kept(l, a, c)
  {
    hide Touchable;
  }

  /** A whole turn: 27 instructions that add one to the memory word and to the budget cell. */
  lemma Turn(l: Layout, m: Machine, n: nat, word: nat, cell: nat) returns (m': Machine)
    requires AtHead(l, m, n, word, cell) && 0 < n < TWO_TO_32
    ensures Run(Running(m), 27) == Running(m') && AtHead(l, m', n - 1, Wrap32(word + 1), Wrap32(cell + 1))
    ensures SameRegs(m.regs, m'.regs) && Kept(l, m.memory, m'.memory)
  {
    hide Run, Load, Mapped, Kept, Wrap32, Words;
    LoopTests(l, m, n, word, cell);
    var m5 := m.(pc := 31, regs := m.regs.(rax := n), flags := Flags(false, false));
    var m8 := LoopCalls(l, m5, n, word, cell);
    RunAdds(Running(m), 5, 3);
    var m21 := BumpCall(l, m8, n, word, Wrap32(cell + 1));
    RunAdds(Running(m), 8, 13);
    m' := LoopCloses(l, m21, n, Wrap32(word + 1), Wrap32(cell + 1));
    RunAdds(Running(m), 21, 6);
    KeptTwice(l, m.memory, m8.memory, m21.memory);
    KeptTwice(l, m.memory, m21.memory, m'.memory);
  }
}
