// The 8080 instruction set as core/src/i8080.c numbers it: the opcode switch of `execute`, and the
// two tables CYCLES and LENGTHS that the switch does not look at.
module Isa {
  import opened Bits

  type Reg = r: int | 0 <= r < 8      // 0=B 1=C 2=D 3=E 4=H 5=L 6=M 7=A
  type Pair = r: int | 0 <= r < 4     // 0=B 1=D 2=H 3=SP, or PSW on the stack
  type Cond = r: int | 0 <= r < 8     // NZ Z NC C PO PE P M

  datatype Instr =
    | Nop | Hlt | Di | Ei
    | Lxi(rp: Pair) | Stax(rp: Pair) | Ldax(rp: Pair) | Shld | Lhld | Sta | Lda
    | Inx(rp: Pair) | Dcx(rp: Pair) | Dad(rp: Pair)
    | Rlc | Rrc | Ral | Rar | Daa | Cma | Stc | Cmc
    | Xchg | Xthl | Pchl | Sphl | Pop(rp: Pair) | Push(rp: Pair)
    | In | Out
    | Jmp | Call | Ret
    | Mov(dst: Reg, src: Reg) | Alu(k: Reg, src: Reg) | Inr(dst: Reg) | Dcr(dst: Reg)
    | Mvi(dst: Reg) | AluImm(k: Reg) | Rst(n: Reg) | Jcc(cc: Cond) | Ccc(cc: Cond) | Rcc(cc: Cond)

  /** The cases of the switch that name single opcodes below 40h. */
  function DecodeLow(op: byte): Instr
    requires op < 0x40
  {
    var rp := op / 16;
    var r := op / 8 % 8;
    match op % 8
    case 0 => Nop
    case 1 => if op / 8 % 2 == 0 then Lxi(rp) else Dad(rp)
    case 2 =>
      if op == 0x22 then Shld else if op == 0x2A then Lhld
      else if op == 0x32 then Sta else if op == 0x3A then Lda
      else if op / 8 % 2 == 0 then Stax(rp) else Ldax(rp)
    case 3 => if op / 8 % 2 == 0 then Inx(rp) else Dcx(rp)
    case 4 => Inr(r)
    case 5 => Dcr(r)
    case 6 => Mvi(r)
    case _ =>
      match r
      case 0 => Rlc case 1 => Rrc case 2 => Ral case 3 => Rar
      case 4 => Daa case 5 => Cma case 6 => Stc case _ => Cmc
  }

  /** The cases at and above C0h. */
  function DecodeHigh(op: byte): Instr
    requires 0xC0 <= op
  {
    var rp := op / 16 % 4;
    var r := op / 8 % 8;
    match op % 8
    case 0 => Rcc(r)
    case 1 =>
      if op / 8 % 2 == 0 then Pop(rp) else if op < 0xE0 then Ret else if op == 0xE9 then Pchl else Sphl
    case 2 => Jcc(r)
    case 3 => (
      match r
      case 0 => Jmp case 1 => Jmp case 2 => Out case 3 => In
      case 4 => Xthl case 5 => Xchg case 6 => Di case _ => Ei)
    case 4 => Ccc(r)
    case 5 => if op / 8 % 2 == 0 then Push(rp) else Call
    case 6 => AluImm(r)
    case _ => Rst(r)
  }

  function Decode(op: byte): Instr
  {
    if op < 0x40 then DecodeLow(op)
    else if op == 0x76 then Hlt
    else if op < 0x80 then Mov(op / 8 % 8, op % 8)
    else if op < 0xC0 then Alu(op / 8 % 8, op % 8)
    else DecodeHigh(op)
  }

  /** T states of each opcode, sixteen to a row; for conditional instructions the not-taken case. */
  function CYCLES(row: nat): (r: seq<nat>)
    requires row < 16
    ensures |r| == 16
  {
    match row
    case 0 => [4, 10,  7,  5,  5,  5,  7,  4,  4, 10,  7,  5,  5,  5,  7,  4]
    case 1 => [4, 10,  7,  5,  5,  5,  7,  4,  4, 10,  7,  5,  5,  5,  7,  4]
    case 2 => [4, 10, 16,  5,  5,  5,  7,  4,  4, 10, 16,  5,  5,  5,  7,  4]
    case 3 => [4, 10, 13,  5, 10, 10, 10,  4,  4, 10, 13,  5,  5,  5,  7,  4]
    case 4 => [5,  5,  5,  5,  5,  5,  7,  5,  5,  5,  5,  5,  5,  5,  7,  5]
    case 5 => [5,  5,  5,  5,  5,  5,  7,  5,  5,  5,  5,  5,  5,  5,  7,  5]
    case 6 => [5,  5,  5,  5,  5,  5,  7,  5,  5,  5,  5,  5,  5,  5,  7,  5]
    case 7 => [7,  7,  7,  7,  7,  7,  7,  7,  5,  5,  5,  5,  5,  5,  7,  5]
    case 8 => [4,  4,  4,  4,  4,  4,  7,  4,  4,  4,  4,  4,  4,  4,  7,  4]
    case 9 => [4,  4,  4,  4,  4,  4,  7,  4,  4,  4,  4,  4,  4,  4,  7,  4]
    case 10 => [4,  4,  4,  4,  4,  4,  7,  4,  4,  4,  4,  4,  4,  4,  7,  4]
    case 11 => [4,  4,  4,  4,  4,  4,  7,  4,  4,  4,  4,  4,  4,  4,  7,  4]
    case 12 => [5, 10, 10, 10, 11, 11,  7, 11,  5, 10, 10, 10, 11, 17,  7, 11]
    case 13 => [5, 10, 10, 10, 11, 11,  7, 11,  5, 10, 10, 10, 11, 17,  7, 11]
    case 14 => [5, 10, 10, 18, 11, 11,  7, 11,  5,  5, 10,  4, 11, 17,  7, 11]
    case _ => [5, 10, 10,  4, 11, 11,  7, 11,  5,  5, 10,  4, 11, 17,  7, 11]
  }

  /** Bytes of each opcode, sixteen to a row. */
  function LENGTHS(row: nat): (r: seq<nat>)
    requires row < 16
    ensures |r| == 16
  {
    match row
    case 0 => [1,  3,  1,  1,  1,  1,  2,  1,  1,  1,  1,  1,  1,  1,  2,  1]
    case 1 => [1,  3,  1,  1,  1,  1,  2,  1,  1,  1,  1,  1,  1,  1,  2,  1]
    case 2 => [1,  3,  3,  1,  1,  1,  2,  1,  1,  1,  3,  1,  1,  1,  2,  1]
    case 3 => [1,  3,  3,  1,  1,  1,  2,  1,  1,  1,  3,  1,  1,  1,  2,  1]
    case 4 => [1,  1,  1,  1,  1,  1,  1,  1,  1,  1,  1,  1,  1,  1,  1,  1]
    case 5 => [1,  1,  1,  1,  1,  1,  1,  1,  1,  1,  1,  1,  1,  1,  1,  1]
    case 6 => [1,  1,  1,  1,  1,  1,  1,  1,  1,  1,  1,  1,  1,  1,  1,  1]
    case 7 => [1,  1,  1,  1,  1,  1,  1,  1,  1,  1,  1,  1,  1,  1,  1,  1]
    case 8 => [1,  1,  1,  1,  1,  1,  1,  1,  1,  1,  1,  1,  1,  1,  1,  1]
    case 9 => [1,  1,  1,  1,  1,  1,  1,  1,  1,  1,  1,  1,  1,  1,  1,  1]
    case 10 => [1,  1,  1,  1,  1,  1,  1,  1,  1,  1,  1,  1,  1,  1,  1,  1]
    case 11 => [1,  1,  1,  1,  1,  1,  1,  1,  1,  1,  1,  1,  1,  1,  1,  1]
    case 12 => [1,  1,  3,  3,  3,  1,  2,  1,  1,  1,  3,  3,  3,  3,  2,  1]
    case 13 => [1,  1,  3,  2,  3,  1,  2,  1,  1,  1,  3,  2,  3,  3,  2,  1]
    case 14 => [1,  1,  3,  1,  3,  1,  2,  1,  1,  1,  3,  1,  3,  3,  2,  1]
    case _ => [1,  1,  3,  1,  3,  1,  2,  1,  1,  1,  3,  1,  3,  3,  2,  1]
  }

  function Cycles(op: byte): nat { CYCLES(op / 16)[op % 16] }

  function Length(op: byte): nat { LENGTHS(op / 16)[op % 16] }

  /** How many operand bytes the interpreter fetches for an instruction. */
  function OperandBytes(i: Instr): nat
  {
    if i.Lxi? || i.Shld? || i.Lhld? || i.Sta? || i.Lda? || i.Jmp? || i.Call? || i.Jcc? || i.Ccc? then 2
    else if i.Mvi? || i.AluImm? || i.In? || i.Out? then 1
    else 0
  }

  /** How many machine cycles it takes, the opcode fetch included and branches not taken. */
  function MachineCycles(i: Instr): nat
  {
    if i.Shld? || i.Lhld? || i.Xthl? || i.Call? then 5
    else if i.Sta? || i.Lda? then 4
    else if i.Lxi? || i.Pop? || i.Push? || i.In? || i.Out? || i.Jmp? || i.Ret? || i.Rst? || i.Jcc? || i.Ccc? then 3
    else if i.Stax? || i.Ldax? || i.AluImm? then 2
    else if i.Mvi? then if i.dst == 6 then 3 else 2
    else if i.Inr? || i.Dcr? then if i.dst == 6 then 3 else 1
    else if i.Mov? then if i.dst == 6 || i.src == 6 then 2 else 1
    else if i.Alu? then if i.src == 6 then 2 else 1
    else 1
  }

  /** T states beyond four for the fetch and three for every other machine cycle. */
  function Idle(i: Instr): (t: nat)
    ensures t <= 6
  {
    if i.Dad? then 6
    else if i.Hlt? then 3
    else if i.Xthl? then 2
    else if i.Inx? || i.Dcx? || i.Pchl? || i.Sphl? || i.Push? || i.Call? || i.Ccc? || i.Rcc? || i.Rst? then 1
    else if (i.Mov? && i.dst != 6 && i.src != 6) || ((i.Inr? || i.Dcr?) && i.dst != 6) then 1
    else 0
  }

  /** What both tables must agree with, for one opcode. */
  predicate TablesFit(op: byte)
  {
    && Length(op) == 1 + OperandBytes(Decode(op))
    && Cycles(op) == 3 * MachineCycles(Decode(op)) + 1 + Idle(Decode(op))
  }
}
