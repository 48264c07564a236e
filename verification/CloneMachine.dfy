/** The x86-64 instructions of clone_entry, spin_clone and bump_clone in repro-c.c, over
    byte-addressed memory. Each instruction occupies one code address. */
module CloneMachine {
  import opened Text
  import opened ByteMemory

  datatype Reg = RAX | RCX | RDX | RBP | RSP | RSI | RDI | R12 | R13 | R14

  /** AT&T operand order: the last operand is the destination. */
  datatype Instr =
    | Endbr64
    | PushQ(src: Reg) | PopQ(dst: Reg)
    | MovQ(src: Reg, dst: Reg)                          // mov  %src, %dst
    | LoadQ(disp: int, base: Reg, dst: Reg)             // mov  disp(%base), %dst
    | StoreQ(src: Reg, disp: int, base: Reg)            // mov  %src, disp(%base)
    | MovL(src: Reg, dst: Reg)                          // movl, clearing the upper half
    | LoadL(disp: int, base: Reg, dst: Reg)
    | StoreL(src: Reg, disp: int, base: Reg)
    | MovImmL(imm: nat, dst: Reg)
    | MovPatchedL(dst: Reg)                             // movl $spin_imm, %dst
    | AddImmQ(imm: nat, dst: Reg) | SubImmQ(imm: nat, dst: Reg)
    | AddImmL(imm: nat, dst: Reg) | SubL(src: Reg, dst: Reg)
    | AddMemL(imm: nat, disp: int, base: Reg)           // addl $imm, disp(%base)
    | CmpMemQ(src: Reg, disp: int, base: Reg)           // cmp  %src, disp(%base)
    | TestL(src: Reg)                                   // test %src, %src
    | Jna(to: nat) | Jz(to: nat) | Jmp(to: nat) | Call(to: nat) | CallReg(src: Reg)
    | Leave | Ret | Ud2

  /** below: the carry flag; zero: the zero flag. */
  datatype Flags = Flags(below: bool, zero: bool)

  datatype Regs = Regs(rax: nat, rcx: nat, rdx: nat, rbp: nat, rsp: nat, rsi: nat, rdi: nat, r12: nat, r13: nat,
                       r14: nat)
  {
    function Get(r: Reg): nat {
      match r
      case RAX => rax case RCX => rcx case RDX => rdx case RBP => rbp case RSP => rsp
      case RSI => rsi case RDI => rdi case R12 => r12 case R13 => r13 case R14 => r14
    }

    function Put(r: Reg, v: nat): Regs {
      match r
      case RAX => this.(rax := v) case RCX => this.(rcx := v) case RDX => this.(rdx := v)
      case RBP => this.(rbp := v) case RSP => this.(rsp := v) case RSI => this.(rsi := v)
      case RDI => this.(rdi := v) case R12 => this.(r12 := v) case R13 => this.(r13 := v)
      case R14 => this.(r14 := v)
    }
  }

  /** patch: the immediate written into the code at spin_imm. */
  datatype Machine = Machine(pc: int, regs: Regs, flags: Flags, memory: Memory, patch: nat)

  datatype Outcome = Running(m: Machine) | Fault

  function Wrap64(x: int): nat { x % TWO_TO_64 }

  function Wrap32(x: int): nat { x % TWO_TO_32 }

  function Address(m: Machine, disp: int, base: Reg): nat { Wrap64(m.regs.Get(base) + disp) }

  function Set(m: Machine, r: Reg, v: nat): Machine { m.(pc := m.pc + 1, regs := m.regs.Put(r, v)) }

  function Minus(a: nat, b: nat): int { a - b }

  function Write(m: Machine, a: int, size: nat, v: nat): Outcome {
    if Mapped(m.memory, a, size) then Running(m.(pc := m.pc + 1, memory := Store(m.memory, a, size, v))) else Fault
  }

  /** Push a 64-bit value. */
  function Pushed(m: Machine, v: nat): Outcome {
    var sp := Wrap64(Minus(m.regs.rsp, 8));
    Write(m.(regs := m.regs.(rsp := sp)), sp, 8, v)
  }

  function Popped(m: Machine, r: Reg): Outcome {
    var sp := m.regs.rsp;
    if Mapped(m.memory, sp, 8)
    then Running(m.(pc := m.pc + 1, regs := m.regs.(rsp := Wrap64(sp + 8)).Put(r, Load(m.memory, sp, 8))))
    else Fault
  }

  /** A call pushes the next code address and continues at the target. */
  function Called(m: Machine, to: int): Outcome
    requires m.pc >= 0
  {
    match Pushed(m, m.pc + 1)
    case Running(pushed) => Running(pushed.(pc := to))
    case Fault => Fault
  }

  function Execute(i: Instr, m: Machine): Outcome
    requires m.pc >= 0
  {
    match i
    case Endbr64 => Running(m.(pc := m.pc + 1))
    case PushQ(src) => Pushed(m, m.regs.Get(src))
    case PopQ(dst) => Popped(m, dst)
    case MovQ(src, dst) => Running(Set(m, dst, m.regs.Get(src)))
    case LoadQ(disp, base, dst) =>
      if Mapped(m.memory, Address(m, disp, base), 8)
      then Running(Set(m, dst, Load(m.memory, Address(m, disp, base), 8))) else Fault
    case StoreQ(src, disp, base) => Write(m, Address(m, disp, base), 8, m.regs.Get(src))
    case MovL(src, dst) => Running(Set(m, dst, Wrap32(m.regs.Get(src))))
    case LoadL(disp, base, dst) =>
      if Mapped(m.memory, Address(m, disp, base), 4)
      then Running(Set(m, dst, Load(m.memory, Address(m, disp, base), 4))) else Fault
    case StoreL(src, disp, base) => Write(m, Address(m, disp, base), 4, Wrap32(m.regs.Get(src)))
    case MovImmL(imm, dst) => Running(Set(m, dst, Wrap32(imm)))
    case MovPatchedL(dst) => Running(Set(m, dst, Wrap32(m.patch)))
    case AddImmQ(imm, dst) => Running(Set(m, dst, Wrap64(m.regs.Get(dst) + imm)))
    case SubImmQ(imm, dst) => Running(Set(m, dst, Wrap64(Minus(m.regs.Get(dst), imm))))
    case AddImmL(imm, dst) => Running(Set(m, dst, Wrap32(m.regs.Get(dst) + imm)))
    case SubL(src, dst) => Running(Set(m, dst, Wrap32(Minus(m.regs.Get(dst), m.regs.Get(src)))))
    case AddMemL(imm, disp, base) =>
      if Mapped(m.memory, Address(m, disp, base), 4)
      then Write(m, Address(m, disp, base), 4, Wrap32(Load(m.memory, Address(m, disp, base), 4) + imm)) else Fault
    case CmpMemQ(src, disp, base) =>
      if Mapped(m.memory, Address(m, disp, base), 8) then
        var v := Load(m.memory, Address(m, disp, base), 8);
        Running(m.(pc := m.pc + 1, flags := Flags(v < m.regs.Get(src), v == m.regs.Get(src))))
      else Fault
    case TestL(src) => Running(m.(pc := m.pc + 1, flags := Flags(false, Wrap32(m.regs.Get(src)) == 0)))
    case Jna(to) => Running(m.(pc := if m.flags.below || m.flags.zero then to else m.pc + 1))
    case Jz(to) => Running(m.(pc := if m.flags.zero then to else m.pc + 1))
    case Jmp(to) => Running(m.(pc := to))
    case Call(to) => Called(m, to)
    case CallReg(src) => Called(m, m.regs.Get(src))
    case Leave => Popped(m.(regs := m.regs.(rsp := m.regs.rbp)), RBP)
    case Ret =>
      var sp := m.regs.rsp;
      if Mapped(m.memory, sp, 8)
      then Running(m.(pc := Load(m.memory, sp, 8), regs := m.regs.(rsp := Wrap64(sp + 8)))) else Fault
    case Ud2 => Fault
  }

  // The code. The numbers are the code addresses of the labels.

  const SPIN_CLONE := 18
  const SPIN_HEAD := 26
  const SPIN_DONE := 40
  const SPIN_STACKFAIL := 46
  const JT_BUMP := 47
  const BUMP_CLONE := 48
  const BUMP_STACKFAIL := 60

  const CODE: seq<Instr> := ENTRY + SPIN_PROLOGUE + SPIN_LOOP + SPIN_EXIT + BUMP

  const ENTRY: seq<Instr> := [
    Endbr64, PushQ(RBP), PushQ(R12), PushQ(R13), PushQ(R14), SubImmQ(8, RSP),
    MovQ(RSI, R13), AddImmQ(0x100, R13), MovQ(R13, RSI), MovQ(RDX, R14), MovL(RCX, RAX), CallReg(RDI),
    AddImmQ(8, RSP), PopQ(R14), PopQ(R13), PopQ(R12), PopQ(RBP), Ret]

  const SPIN_PROLOGUE: seq<Instr> := [
    Endbr64, PushQ(RBP), MovQ(RSP, RBP), SubImmQ(0x30, RSP), MovPatchedL(R12),
    StoreL(RAX, -0x24, RBP), StoreQ(RSI, -0x10, RBP), StoreQ(R14, -0x18, RBP)]

  const SPIN_LOOP: seq<Instr> := [
    CmpMemQ(RSP, -0x60, R13), Jna(SPIN_STACKFAIL), LoadL(-0x24, RBP, RAX), TestL(RAX), Jz(SPIN_DONE),
    LoadQ(-0x18, RBP, RAX), AddMemL(1, 0x13, RAX), Call(JT_BUMP),
    LoadL(-0x24, RBP, RAX), MovImmL(1, RCX), SubL(RCX, RAX), StoreL(RAX, -0x24, RBP), LoadQ(-0x10, RBP, RSI),
    Jmp(SPIN_HEAD)]

  const SPIN_EXIT: seq<Instr> := [
    LoadQ(-0x10, RBP, RSI), LoadQ(0x1f, RSI, RAX), LoadL(0, RAX, RCX), MovL(RCX, RAX), Leave, Ret, Ud2]

  const BUMP: seq<Instr> := [
    Jmp(BUMP_CLONE),
    Endbr64, PushQ(RBP), MovQ(RSP, RBP), SubImmQ(8, RSP), CmpMemQ(RSP, -0x60, R13), Jna(BUMP_STACKFAIL),
    LoadQ(0x1f, RSI, RAX), LoadL(0, RAX, RCX), AddImmL(1, RCX), StoreL(RCX, 0, RAX), Leave, Ret, Ud2]

  /** The address the caller of clone_entry waits at. */
  const CALLER := 61

  function Step(o: Outcome): Outcome {
    match o
    case Fault => Fault
    case Running(m) =>
      if m.pc == CALLER then o
      else if 0 <= m.pc < CALLER then Execute(Fetch(m.pc), m)
      else Fault
  }

  function Run(o: Outcome, steps: nat): Outcome
    decreases steps
  {
    if steps == 0 then o else Run(Step(o), steps - 1)
  }

  lemma {:induction false} RunAdds(o: Outcome, a: nat, b: nat)
    ensures Run(o, a + b) == Run(Run(o, a), b)
    decreases a
  {
    hide Step;
    if a > 0 { RunAdds(Step(o), a - 1, b); }
  }

  /** The instruction at an address. */
  function Fetch(pc: int): Instr { if 0 <= pc < |CODE| then CODE[pc] else Ud2 }

  lemma CodeAt(k: nat)
    requires k < CALLER
    ensures |ENTRY| == 18 && |SPIN_PROLOGUE| == 8 && |SPIN_LOOP| == 14 && |SPIN_EXIT| == 7 && |BUMP| == 14
    ensures |CODE| == CALLER
    ensures Fetch(k) == if k < 18 then ENTRY[k] else if k < 26 then SPIN_PROLOGUE[k - 18]
                        else if k < 40 then SPIN_LOOP[k - 26] else if k < 47 then SPIN_EXIT[k - 40] else BUMP[k - 47]
  {
  }
}
