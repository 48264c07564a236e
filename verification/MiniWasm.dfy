/** The hand-encoded module of mini-wasm.mjs: its bytes, a decoder for the sections and
    instructions it uses (WebAssembly Core Specification, sections 5.4 and 5.5) and their
    execution (section 4.4). */
module MiniWasm {
  import opened Text
  import opened ByteMemory

  const HEADER: seq<Byte> := [0x00, 0x61, 0x73, 0x6d, 0x01, 0x00, 0x00, 0x00]
  const TYPES: seq<Byte> := [0x01, 0x09, 0x02, 0x60, 0x01, 0x7f, 0x01, 0x7f, 0x60, 0x00, 0x00]
  const FUNCTIONS: seq<Byte> := [0x03, 0x03, 0x02, 0x00, 0x01]
  const MEMORIES: seq<Byte> := [0x05, 0x03, 0x01, 0x00, 0x01]
  const EXPORTS: seq<Byte> :=
    [0x07, 0x0e, 0x02, 0x04, 0x73, 0x70, 0x69, 0x6e, 0x00, 0x00, 0x03, 0x6d, 0x65, 0x6d, 0x02, 0x00]
  const CODE_HEAD: seq<Byte> := [0x0a, 0x2f, 0x02]
  const SPIN_CODE: seq<Byte> :=
    [0x1d, 0x00, 0x02, 0x40, 0x03, 0x40, 0x20, 0x00, 0x45, 0x0d, 0x01, 0x10, 0x01, 0x20, 0x00, 0x41, 0x01, 0x6b,
     0x21, 0x00, 0x0c, 0x00, 0x0b, 0x0b, 0x41, 0x00, 0x28, 0x02, 0x00, 0x0b]
  const BUMP_CODE: seq<Byte> :=
    [0x0f, 0x00, 0x41, 0x00, 0x41, 0x00, 0x28, 0x02, 0x00, 0x41, 0x01, 0x6a, 0x36, 0x02, 0x00, 0x0b]

  const MODULE: seq<Byte> :=
    HEADER + TYPES + FUNCTIONS + MEMORIES + EXPORTS + CODE_HEAD + SPIN_CODE + BUMP_CODE

  datatype Instr = Block | Loop | End | Br(depth: nat) | BrIf(depth: nat) | Call(callee: nat)
    | LocalGet(index: nat) | LocalSet(index: nat) | Load(offset: nat) | Store(offset: nat)
    | Const(value: nat) | Eqz | Add | Sub

  datatype Func = Func(params: nat, results: nat, body: seq<Instr>)

  // Decoding. Every immediate of this module is a single byte; a longer one is refused.

  datatype Decoded = Decoded(instr: Instr, next: nat)

  function Small(bytes: seq<Byte>, p: nat): Option<nat> {
    if p < |bytes| && bytes[p] < 0x40 then Some(bytes[p]) else None
  }

  /** The instruction with one immediate that this opcode names. */
  function WithImmediate(op: Byte, v: nat): Option<Instr> {
    if op == 0x0c then Some(Br(v))
    else if op == 0x0d then Some(BrIf(v))
    else if op == 0x10 then Some(Call(v))
    else if op == 0x20 then Some(LocalGet(v))
    else if op == 0x21 then Some(LocalSet(v))
    else if op == 0x41 then Some(Const(v))
    else None
  }

  function Plain(op: Byte): Option<Instr> {
    if op == 0x0b then Some(End)
    else if op == 0x45 then Some(Eqz)
    else if op == 0x6a then Some(Add)
    else if op == 0x6b then Some(Sub)
    else None
  }

  /** Blocks have no result; a memory access has an alignment and an offset. */
  function DecodeInstr(bytes: seq<Byte>, p: nat): Option<Decoded>
    requires p < |bytes|
  {
    var op := bytes[p];
    if op == 0x02 || op == 0x03 then
      if p + 1 < |bytes| && bytes[p + 1] == 0x40
      then Some(Decoded(if op == 0x02 then Block else Loop, p + 2)) else None
    else if op == 0x28 || op == 0x36 then
      match (Small(bytes, p + 1), Small(bytes, p + 2))
      case (Some(align), Some(offset)) =>
        if align <= 2 then Some(Decoded(if op == 0x28 then Load(offset) else Store(offset), p + 3)) else None
      case _ => None
    else if Plain(op).Some? then Some(Decoded(Plain(op).value, p + 1))
    else
      match Small(bytes, p + 1)
      case None => None
      case Some(v) => if WithImmediate(op, v).Some? then Some(Decoded(WithImmediate(op, v).value, p + 2)) else None
  }

  function DecodeBody(bytes: seq<Byte>, p: nat, end: nat): Option<seq<Instr>>
    requires end <= |bytes|
    decreases end - p
  {
    if p == end then Some([])
    else if p > end then None
    else
      match DecodeInstr(bytes, p)
      case None => None
      case Some(d) =>
        if d.next <= p then None
        else
          match DecodeBody(bytes, d.next, end)
          case None => None
          case Some(rest) => Some([d.instr] + rest)
  }

  datatype Section = Section(start: nat, end: nat)

  /** The payload of the section with this number, at or after p. */
  function FindSection(bytes: seq<Byte>, p: nat, id: nat): (s: Option<Section>)
    ensures s.Some? ==> s.value.start <= s.value.end <= |bytes|
    decreases |bytes| - p
  {
    if p + 2 > |bytes| || bytes[p + 1] >= 0x80 || p + 2 + bytes[p + 1] > |bytes| then None
    else if bytes[p] == id then Some(Section(p + 2, p + 2 + bytes[p + 1]))
    else FindSection(bytes, p + 2 + bytes[p + 1], id)
  }

  /** A function type: its numbers of parameters and results, and where it ends. */
  datatype FuncType = FuncType(params: nat, results: nat, next: nat)

  function DecodeType(bytes: seq<Byte>, p: nat): Option<FuncType> {
    if p + 1 >= |bytes| || bytes[p] != 0x60 then None
    else
      var params := bytes[p + 1];
      if p + 2 + params >= |bytes| then None
      else
        var results := bytes[p + 2 + params];
        Some(FuncType(params, results, p + 3 + params + results))
  }

  /** A body in the code section: its size, no locals, then instructions. */
  function DecodeCode(bytes: seq<Byte>, p: nat): Option<seq<Instr>> {
    if p + 2 > |bytes| || bytes[p] >= 0x80 || p + 1 + bytes[p] > |bytes| || bytes[p + 1] != 0 || bytes[p] == 0
    then None else DecodeBody(bytes, p + 2, p + 1 + bytes[p])
  }

  /** A module of two functions whose types are listed in order. */
  function DecodeModule(bytes: seq<Byte>): Option<seq<Func>> {
    if |bytes| < 8 || bytes[..8] != [0x00, 0x61, 0x73, 0x6d, 0x01, 0x00, 0x00, 0x00] then None
    else
      match (FindSection(bytes, 8, 1), FindSection(bytes, 8, 3), FindSection(bytes, 8, 10))
      case (Some(types), Some(funcs), Some(code)) =>
        if types.start >= |bytes| || funcs.start + 3 != funcs.end || code.start >= |bytes|
          || bytes[types.start] != 2 || bytes[funcs.start..funcs.end] != [2, 0, 1] || bytes[code.start] != 2
        then None
        else
          (match DecodeType(bytes, types.start + 1)
           case None => None
           case Some(first) =>
             match (DecodeType(bytes, first.next), DecodeCode(bytes, code.start + 1))
             case (Some(second), Some(body)) =>
               (match DecodeCode(bytes, code.start + 2 + bytes[code.start + 1])
                case None => None
                case Some(body') =>
                  Some([Func(first.params, first.results, body), Func(second.params, second.results, body')]))
             case _ => None)
      case _ => None
  }

  const SPIN: seq<Instr> :=
    [Block, Loop, LocalGet(0), Eqz, BrIf(1), Call(1), LocalGet(0), Const(1), Sub, LocalSet(0), Br(0), End, End,
     Const(0), Load(0), End]

  const BUMP: seq<Instr> := [Const(0), Const(0), Load(0), Const(1), Add, Store(0), End]

  /** Decoding an instruction and the rest decodes the body. */
  lemma DecodeOne(bytes: seq<Byte>, p: nat, end: nat, d: Decoded, rest: seq<Instr>)
    requires p < end <= |bytes| && DecodeInstr(bytes, p) == Some(d) && p < d.next
    requires DecodeBody(bytes, d.next, end) == Some(rest)
    ensures DecodeBody(bytes, p, end) == Some([d.instr] + rest)
  {
    hide DecodeInstr;
  }

  /** Where each instruction of the two bodies begins. */
  const SPIN_AT: seq<nat> := [50, 52, 54, 56, 57, 59, 61, 63, 65, 66, 68, 70, 71, 72, 74, 77, 78]
  const BUMP_AT: seq<nat> := [80, 82, 84, 87, 89, 90, 93, 94]

  lemma ModuleParts()
    ensures |MODULE| == 94 && |SPIN_CODE| == 30 && |BUMP_CODE| == 16
    ensures MODULE[48..78] == SPIN_CODE && MODULE[78..94] == BUMP_CODE
  {
  }

  lemma SpinCodeHead(k: nat)
    requires k < 6
    ensures DecodeInstr(SPIN_CODE, SPIN_AT[k] - 48) == Some(Decoded(SPIN[k], SPIN_AT[k + 1] - 48))
  {
  }

  lemma SpinCodeMiddle(k: nat)
    requires 6 <= k < 11
    ensures DecodeInstr(SPIN_CODE, SPIN_AT[k] - 48) == Some(Decoded(SPIN[k], SPIN_AT[k + 1] - 48))
  {
  }

  lemma SpinCodeTail(k: nat)
    requires 11 <= k < |SPIN|
    ensures DecodeInstr(SPIN_CODE, SPIN_AT[k] - 48) == Some(Decoded(SPIN[k], SPIN_AT[k + 1] - 48))
  {
  }

  /** Decoding inside a module reads the same bytes as decoding the body alone. */
  lemma DecodeShifted(bytes: seq<Byte>, code: seq<Byte>, base: nat, p: nat)
    requires p < |code| && base + |code| <= |bytes| && bytes[base..base + |code|] == code
    requires DecodeInstr(code, p).Some?
    ensures DecodeInstr(bytes, base + p) ==
            Some(Decoded(DecodeInstr(code, p).value.instr, base + DecodeInstr(code, p).value.next))
  {
    forall i | 0 <= i < |code| ensures bytes[base + i] == code[i] {
      assert bytes[base..base + |code|][i] == bytes[base + i];
    }
    hide Plain, WithImmediate;
  }

  lemma SpinInstr(k: nat)
    requires k < |SPIN|
    ensures |MODULE| == 94 && |SPIN_AT| == |SPIN| + 1
    ensures SPIN_AT[k] < SPIN_AT[k + 1] <= 78
    ensures DecodeInstr(MODULE, SPIN_AT[k]) == Some(Decoded(SPIN[k], SPIN_AT[k + 1]))
  {
    ModuleParts();
    if k < 6 { SpinCodeHead(k); } else if k < 11 { SpinCodeMiddle(k); } else { SpinCodeTail(k); }
    hide MODULE, SPIN_CODE, DecodeInstr;
    DecodeShifted(MODULE, SPIN_CODE, 48, SPIN_AT[k] - 48);
  }

  lemma BumpInstr(k: nat)
    requires k < |BUMP|
    ensures |MODULE| == 94 && |BUMP_AT| == |BUMP| + 1
    ensures BUMP_AT[k] < BUMP_AT[k + 1] <= 94
    ensures DecodeInstr(MODULE, BUMP_AT[k]) == Some(Decoded(BUMP[k], BUMP_AT[k + 1]))
  {
    ModuleParts();
    assert DecodeInstr(BUMP_CODE, BUMP_AT[k] - 78) == Some(Decoded(BUMP[k], BUMP_AT[k + 1] - 78));
    hide MODULE, BUMP_CODE, DecodeInstr;
    DecodeShifted(MODULE, BUMP_CODE, 78, BUMP_AT[k] - 78);
  }

  lemma {:induction false} SpinDecodes(k: nat)
    requires k <= |SPIN|
    ensures |MODULE| == 94 && |SPIN_AT| == |SPIN| + 1
    ensures DecodeBody(MODULE, SPIN_AT[k], 78) == Some(SPIN[k..])
    decreases |SPIN| - k
  {
    ModuleParts();
    hide DecodeInstr, MODULE;
    if k < |SPIN| {
      SpinInstr(k);
      SpinDecodes(k + 1);
      DecodeOne(MODULE, SPIN_AT[k], 78, Decoded(SPIN[k], SPIN_AT[k + 1]), SPIN[k + 1..]);
      assert SPIN[k..] == [SPIN[k]] + SPIN[k + 1..];
    } else {
      assert SPIN_AT[k] == 78 && SPIN[k..] == [];
    }
  }

  lemma {:induction false} BumpDecodes(k: nat)
    requires k <= |BUMP|
    ensures |MODULE| == 94 && |BUMP_AT| == |BUMP| + 1
    ensures DecodeBody(MODULE, BUMP_AT[k], 94) == Some(BUMP[k..])
    decreases |BUMP| - k
  {
    ModuleParts();
    hide DecodeInstr, MODULE;
    if k < |BUMP| {
      BumpInstr(k);
      BumpDecodes(k + 1);
      DecodeOne(MODULE, BUMP_AT[k], 94, Decoded(BUMP[k], BUMP_AT[k + 1]), BUMP[k + 1..]);
      assert BUMP[k..] == [BUMP[k]] + BUMP[k + 1..];
    } else {
      assert BUMP_AT[k] == 94 && BUMP[k..] == [];
    }
  }

  lemma SectionsAreFound()
    ensures FindSection(MODULE, 8, 1) == Some(Section(10, 19))
    ensures FindSection(MODULE, 8, 3) == Some(Section(21, 24))
    ensures FindSection(MODULE, 8, 10) == Some(Section(47, 94))
  {
    assert FindSection(MODULE, 45, 10) == Some(Section(47, 94));
    assert FindSection(MODULE, 29, 10) == Some(Section(47, 94));
    assert FindSection(MODULE, 24, 10) == Some(Section(47, 94));
    assert FindSection(MODULE, 19, 10) == Some(Section(47, 94));
    assert FindSection(MODULE, 19, 3) == Some(Section(21, 24));
  }

  const PROGRAM: seq<Func> := [Func(1, 1, SPIN), Func(0, 0, BUMP)]

  lemma HeadParts()
    ensures |MODULE| == 94 && MODULE[..8] == [0x00, 0x61, 0x73, 0x6d, 0x01, 0x00, 0x00, 0x00]
    ensures MODULE[10] == 2 && MODULE[21..24] == [2, 0, 1] && MODULE[47] == 2
    ensures MODULE[48] == 0x1d && MODULE[49] == 0 && MODULE[78] == 0x0f && MODULE[79] == 0
  {
    assert MODULE[21] == FUNCTIONS[2] && MODULE[22] == FUNCTIONS[3] && MODULE[23] == FUNCTIONS[4];
    assert MODULE[48] == SPIN_CODE[0] && MODULE[49] == SPIN_CODE[1] && MODULE[78] == BUMP_CODE[0]
      && MODULE[79] == BUMP_CODE[1];
  }

  lemma TypesDecode()
    ensures DecodeType(MODULE, 11) == Some(FuncType(1, 1, 16)) && DecodeType(MODULE, 16) == Some(FuncType(0, 0, 19))
  {
    assert forall i :: 0 <= i < |TYPES| ==> MODULE[8 + i] == TYPES[i];
  }

  lemma CodesDecode()
    ensures DecodeCode(MODULE, 48) == Some(SPIN) && DecodeCode(MODULE, 78) == Some(BUMP)
  {
    HeadParts();
    SpinDecodes(0);
    BumpDecodes(0);
    assert SPIN[0..] == SPIN && BUMP[0..] == BUMP;
    hide DecodeBody, MODULE, SPIN, BUMP;
  }

  /** The bytes are spin(i32)->i32 and bump()->(). */
  lemma ModuleDecodes()
    ensures DecodeModule(MODULE) == Some(PROGRAM)
  {
    SectionsAreFound();
    HeadParts();
    TypesDecode();
    CodesDecode();
    hide FindSection, DecodeCode, DecodeType, MODULE, SPIN, BUMP;
  }
}
