// The 8080 interpreter of core/src/i8080.c as a function from a processor and the board it drives
// to the same pair one instruction later.
module Cpu {
  import opened Bits
  import opened Board
  import opened Isa

  // Status words of the machine cycles.
  const FETCH: byte := 0xA2
  const MEMR: byte := 0x82
  const MEMW: byte := 0x00
  const STACKR: byte := 0x86
  const STACKW: byte := 0x04
  const INPR: byte := 0x42
  const OUTW: byte := 0x10
  const INTA: byte := 0x23
  const HALTA: byte := 0x8A
  const INTA_HALT: byte := 0x2B

  const TRACE_SLOTS := 6

  /** The five condition bits. Bits 1, 3 and 5 of the C byte are constants that `Psw` puts in. */
  datatype Flags = Flags(s: bool, z: bool, ac: bool, p: bool, cy: bool)

  function Psw(f: Flags): byte
  {
    128 * AsInt(f.s) + 64 * AsInt(f.z) + 16 * AsInt(f.ac) + 4 * AsInt(f.p) + 2 + AsInt(f.cy)
  }

  function FromPsw(v: byte): Flags
  {
    Flags(HasBit(v, 0x80), HasBit(v, 0x40), HasBit(v, 0x10), HasBit(v, 0x04), HasBit(v, 0x01))
  }

  /** One machine cycle of the trace. */
  datatype Mc = Mc(status: byte, addr: word, data: byte)

  datatype Regs = Regs(a: byte, f: Flags, b: byte, c: byte, d: byte, e: byte, h: byte, l: byte, sp: word)

  /** INTE, the halt state, the pending request with its vector, and EI's grace count. */
  datatype Irq = Irq(inte: bool, halted: bool, pending: bool, vector: byte, delay: byte)

  /** `i8080_t`. The trace holds the `mc_count` entries in use. */
  datatype Cpu = Cpu(r: Regs, pc: word, irq: Irq, cycles: nat, mc: seq<Mc>)

  /** The processor and its board. */
  datatype Sys = Sys(c: Cpu, w: World)

  function SetRegs(s: Sys, r: Regs): Sys { s.(c := s.c.(r := r)) }

  function SetIrq(s: Sys, irq: Irq): Sys { s.(c := s.c.(irq := irq)) }

  function SetPc(s: Sys, pc: word): Sys { s.(c := s.c.(pc := pc)) }

  // ---------- bus access ----------

  function Log(c: Cpu, status: byte, addr: word, data: byte): Cpu
  {
    if |c.mc| < TRACE_SLOTS then c.(mc := c.mc + [Mc(status, addr, data)]) else c
  }

  function Read(s: Sys, a: word, status: byte): (Sys, byte)
  {
    var v := Peek(s.w, a);
    (Sys(Log(s.c, status, a, v), s.w), v)
  }

  function Write(s: Sys, a: word, v: byte, status: byte): Sys
  {
    Sys(Log(s.c, status, a, v), Poke(s.w, a, v))
  }

  function Input(s: Sys, port: byte): (Sys, byte)
  {
    var v := PortIn(s.w, port);
    (Sys(Log(s.c, INPR, Word(port, port), v), s.w), v)
  }

  function Output(s: Sys, port: byte, v: byte): Sys
  {
    Sys(Log(s.c, OUTW, Word(port, port), v), PortOut(s.w, port, v))
  }

  function Fetch8(s: Sys): (Sys, byte)
  {
    Read(SetPc(s, Inc16(s.c.pc)), s.c.pc, MEMR)
  }

  function Fetch16(s: Sys): (Sys, word)
  {
    var (s1, lo) := Fetch8(s);
    var (s2, hi) := Fetch8(s1);
    (s2, Word(hi, lo))
  }

  function Push16(s: Sys, v: word): Sys
  {
    var sp := s.c.r.sp;
    var s1 := Write(s, Dec16(sp), Hi(v), STACKW);
    var s2 := Write(s1, Dec16(Dec16(sp)), Lo(v), STACKW);
    SetRegs(s2, s2.c.r.(sp := Dec16(Dec16(sp))))
  }

  function Pop16(s: Sys): (Sys, word)
  {
    var sp := s.c.r.sp;
    var (s1, lo) := Read(s, sp, STACKR);
    var (s2, hi) := Read(s1, Inc16(sp), STACKR);
    (SetRegs(s2, s2.c.r.(sp := Inc16(Inc16(sp)))), Word(hi, lo))
  }

  // ---------- registers ----------

  function GetPair(r: Regs, rp: Pair): word
  {
    match rp
    case 0 => Word(r.b, r.c)
    case 1 => Word(r.d, r.e)
    case 2 => Word(r.h, r.l)
    case _ => r.sp
  }

  function SetPair(r: Regs, rp: Pair, v: word): Regs
  {
    match rp
    case 0 => r.(b := Hi(v), c := Lo(v))
    case 1 => r.(d := Hi(v), e := Lo(v))
    case 2 => r.(h := Hi(v), l := Lo(v))
    case _ => r.(sp := v)
  }

  function HL(r: Regs): word { Word(r.h, r.l) }

  /** A register other than M. */
  function RegOf(r: Regs, n: Reg): byte
  {
    match n
    case 0 => r.b
    case 1 => r.c
    case 2 => r.d
    case 3 => r.e
    case 4 => r.h
    case 5 => r.l
    case _ => r.a
  }

  function WithReg(r: Regs, n: Reg, v: byte): Regs
  {
    match n
    case 0 => r.(b := v)
    case 1 => r.(c := v)
    case 2 => r.(d := v)
    case 3 => r.(e := v)
    case 4 => r.(h := v)
    case 5 => r.(l := v)
    case _ => r.(a := v)
  }

  function RegGet(s: Sys, n: Reg): (Sys, byte)
  {
    if n == 6 then Read(s, HL(s.c.r), MEMR) else (s, RegOf(s.c.r, n))
  }

  function RegSet(s: Sys, n: Reg, v: byte): Sys
  {
    if n == 6 then Write(s, HL(s.c.r), v, MEMW) else SetRegs(s, WithReg(s.c.r, n, v))
  }

  // ---------- arithmetic and logic ----------

  /** `carry_out`: bit `mask` of (sum ^ a ^ b), the carry into that bit. */
  predicate CarryOut(mask: nat, a: byte, b: byte, cy: bool)
    requires 0 < mask
  {
    HasBit(a + b + AsInt(cy), mask) != (HasBit(a, mask) != HasBit(b, mask))
  }

  function SetSzp(f: Flags, v: byte): Flags
  {
    f.(s := v >= 0x80, z := v == 0, p := EvenParity(v))
  }

  function AluAdd(r: Regs, v: byte, cy: bool): Regs
  {
    var res := (r.a + v + AsInt(cy)) % 256;
    r.(a := res, f := SetSzp(r.f.(cy := CarryOut(0x100, r.a, v, cy), ac := CarryOut(0x10, r.a, v, cy)), res))
  }

  function AluSub(r: Regs, v: byte, cy: bool): Regs
  {
    var t := AluAdd(r, 255 - v, !cy);
    t.(f := t.f.(cy := !t.f.cy))
  }

  function AluCmp(r: Regs, v: byte): Regs { AluSub(r, v, false).(a := r.a) }

  function AluAna(r: Regs, v: byte): Regs
  {
    var res := And8(r.a, v);
    r.(a := res, f := SetSzp(r.f, res).(cy := false, ac := HasBit(r.a, 8) || HasBit(v, 8)))
  }

  function AluXra(r: Regs, v: byte): Regs
  {
    var res := Xor8(r.a, v);
    r.(a := res, f := SetSzp(r.f, res).(cy := false, ac := false))
  }

  function AluOra(r: Regs, v: byte): Regs
  {
    var res := Or8(r.a, v);
    r.(a := res, f := SetSzp(r.f, res).(cy := false, ac := false))
  }

  function AluOp(r: Regs, k: Reg, v: byte): Regs
  {
    match k
    case 0 => AluAdd(r, v, false)
    case 1 => AluAdd(r, v, r.f.cy)
    case 2 => AluSub(r, v, false)
    case 3 => AluSub(r, v, r.f.cy)
    case 4 => AluAna(r, v)
    case 5 => AluXra(r, v)
    case 6 => AluOra(r, v)
    case _ => AluCmp(r, v)
  }

  function IncFlags(f: Flags, res: byte): Flags { SetSzp(f.(ac := res % 16 == 0), res) }

  function DecFlags(f: Flags, res: byte): Flags { SetSzp(f.(ac := res % 16 != 15), res) }

  function AluInr(s: Sys, n: Reg): Sys
  {
    var (s1, v) := RegGet(s, n);
    var res := (v + 1) % 256;
    RegSet(SetRegs(s1, s1.c.r.(f := IncFlags(s1.c.r.f, res))), n, res)
  }

  function AluDcr(s: Sys, n: Reg): Sys
  {
    var (s1, v) := RegGet(s, n);
    var res := (v + 255) % 256;
    RegSet(SetRegs(s1, s1.c.r.(f := DecFlags(s1.c.r.f, res))), n, res)
  }

  function AluDad(r: Regs, v: word): Regs
  {
    var res := HL(r) + v;
    SetPair(r, 2, res % 0x1_0000).(f := r.f.(cy := res >= 0x1_0000))
  }

  predicate DaaHigh(f: Flags, a: byte)
  {
    f.cy || a / 16 > 9 || (a / 16 >= 9 && a % 16 > 9)
  }

  function AluDaa(r: Regs): Regs
  {
    var low := if r.f.ac || r.a % 16 > 9 then 0x06 else 0;
    var high := DaaHigh(r.f, r.a);
    var t := AluAdd(r, low + (if high then 0x60 else 0), false);
    t.(f := t.f.(cy := high))
  }

  function Rotate(r: Regs, i: Instr): Regs
  {
    var top := r.a / 128 == 1;
    var bottom := r.a % 2 == 1;
    if i.Rlc? then r.(a := r.a * 2 % 256 + AsInt(top), f := r.f.(cy := top))
    else if i.Rrc? then r.(a := r.a / 2 + 128 * AsInt(bottom), f := r.f.(cy := bottom))
    else if i.Ral? then r.(a := r.a * 2 % 256 + AsInt(r.f.cy), f := r.f.(cy := top))
    else r.(a := r.a / 2 + 128 * AsInt(r.f.cy), f := r.f.(cy := bottom))
  }

  predicate CondTrue(f: Flags, cc: Cond)
  {
    match cc
    case 0 => !f.z
    case 1 => f.z
    case 2 => !f.cy
    case 3 => f.cy
    case 4 => !f.p
    case 5 => f.p
    case 6 => !f.s
    case _ => f.s
  }

  // ---------- instructions ----------

  /** Loads, stores and 16-bit register work. */
  function ExecMove(s: Sys, i: Instr): Sys
  {
    match i
    case Lxi(rp) => var (s1, v) := Fetch16(s); SetRegs(s1, SetPair(s1.c.r, rp, v))
    case Stax(rp) => Write(s, GetPair(s.c.r, rp), s.c.r.a, MEMW)
    case Ldax(rp) => var (s1, v) := Read(s, GetPair(s.c.r, rp), MEMR); SetRegs(s1, s1.c.r.(a := v))
    case Shld =>
      var (s1, a) := Fetch16(s);
      Write(Write(s1, a, s1.c.r.l, MEMW), Inc16(a), s1.c.r.h, MEMW)
    case Lhld =>
      var (s1, a) := Fetch16(s);
      var (s2, l) := Read(s1, a, MEMR);
      var (s3, h) := Read(s2, Inc16(a), MEMR);
      SetRegs(s3, s3.c.r.(l := l, h := h))
    case Sta => var (s1, a) := Fetch16(s); Write(s1, a, s1.c.r.a, MEMW)
    case Lda =>
      var (s1, a) := Fetch16(s);
      var (s2, v) := Read(s1, a, MEMR);
      SetRegs(s2, s2.c.r.(a := v))
    case Inx(rp) => SetRegs(s, SetPair(s.c.r, rp, Inc16(GetPair(s.c.r, rp))))
    case Dcx(rp) => SetRegs(s, SetPair(s.c.r, rp, Dec16(GetPair(s.c.r, rp))))
    case Mov(d, r) => var (s1, v) := RegGet(s, r); RegSet(s1, d, v)
    case Mvi(d) => var (s1, v) := Fetch8(s); RegSet(s1, d, v)
    case Xchg => SetRegs(s, s.c.r.(d := s.c.r.h, e := s.c.r.l, h := s.c.r.d, l := s.c.r.e))
    case Sphl => SetRegs(s, s.c.r.(sp := HL(s.c.r)))
    case _ => s
  }

  /** Arithmetic, logic and flags. */
  function ExecAlu(s: Sys, i: Instr): Sys
  {
    match i
    case Dad(rp) => SetRegs(s, AluDad(s.c.r, GetPair(s.c.r, rp)))
    case Daa => SetRegs(s, AluDaa(s.c.r))
    case Cma => SetRegs(s, s.c.r.(a := 255 - s.c.r.a))
    case Stc => SetRegs(s, s.c.r.(f := s.c.r.f.(cy := true)))
    case Cmc => SetRegs(s, s.c.r.(f := s.c.r.f.(cy := !s.c.r.f.cy)))
    case Alu(k, r) => var (s1, v) := RegGet(s, r); SetRegs(s1, AluOp(s1.c.r, k, v))
    case AluImm(k) => var (s1, v) := Fetch8(s); SetRegs(s1, AluOp(s1.c.r, k, v))
    case Inr(r) => AluInr(s, r)
    case Dcr(r) => AluDcr(s, r)
    case _ => SetRegs(s, Rotate(s.c.r, i))
  }

  /** The stack, jumps, calls and returns. */
  function ExecFlow(s: Sys, i: Instr): Sys
  {
    match i
    case Pop(rp) =>
      var (s1, v) := Pop16(s);
      SetRegs(s1, if rp == 3 then s1.c.r.(a := Hi(v), f := FromPsw(Lo(v))) else SetPair(s1.c.r, rp, v))
    case Push(rp) => Push16(s, if rp == 3 then Word(s.c.r.a, Psw(s.c.r.f)) else GetPair(s.c.r, rp))
    case Xthl =>
      var (s1, v) := Pop16(s);
      var s2 := Push16(s1, HL(s1.c.r));
      SetRegs(s2, SetPair(s2.c.r, 2, v))
    case Pchl => SetPc(s, HL(s.c.r))
    case Jmp => var (s1, a) := Fetch16(s); SetPc(s1, a)
    case Jcc(cc) =>
      var (s1, a) := Fetch16(s);
      if CondTrue(s1.c.r.f, cc) then SetPc(s1, a) else s1
    case Call =>
      var (s1, a) := Fetch16(s);
      var s2 := Push16(s1, s1.c.pc);
      SetPc(s2, a)
    case Ccc(cc) =>
      var (s1, a) := Fetch16(s);
      if CondTrue(s1.c.r.f, cc) then
        var s2 := Push16(s1, s1.c.pc);
        SetPc(s2, a)
      else s1
    case Ret => var (s1, a) := Pop16(s); SetPc(s1, a)
    case Rcc(cc) =>
      if CondTrue(s.c.r.f, cc) then var (s1, a) := Pop16(s); SetPc(s1, a) else s
    case Rst(n) =>
      var s1 := Push16(s, s.c.pc);
      SetPc(s1, 8 * n)
    case _ => s
  }

  /** Input, output, halting and the interrupt flip-flop. */
  function ExecControl(s: Sys, i: Instr): Sys
  {
    match i
    case In =>
      var (s1, port) := Fetch8(s);
      var (s2, v) := Input(s1, port);
      SetRegs(s2, s2.c.r.(a := v))
    case Out => var (s1, port) := Fetch8(s); Output(s1, port, s1.c.r.a)
    case Hlt => SetIrq(s, s.c.irq.(halted := true))
    case Di => SetIrq(s, s.c.irq.(inte := false, delay := 0))
    case Ei => SetIrq(s, s.c.irq.(inte := true, delay := 1))
    case _ => s
  }

  predicate IsMove(i: Instr)
  {
    i.Lxi? || i.Stax? || i.Ldax? || i.Shld? || i.Lhld? || i.Sta? || i.Lda? || i.Inx? || i.Dcx?
    || i.Mov? || i.Mvi? || i.Xchg? || i.Sphl?
  }

  predicate IsAlu(i: Instr)
  {
    i.Dad? || i.Daa? || i.Cma? || i.Stc? || i.Cmc? || i.Alu? || i.AluImm? || i.Inr? || i.Dcr?
    || i.Rlc? || i.Rrc? || i.Ral? || i.Rar?
  }

  predicate IsFlow(i: Instr)
  {
    i.Pop? || i.Push? || i.Xthl? || i.Pchl? || i.Jmp? || i.Jcc? || i.Call? || i.Ccc? || i.Ret?
    || i.Rcc? || i.Rst?
  }

  function Execute(s: Sys, i: Instr): Sys
  {
    if IsMove(i) then ExecMove(s, i)
    else if IsAlu(i) then ExecAlu(s, i)
    else if IsFlow(i) then ExecFlow(s, i)
    else ExecControl(s, i)
  }

  /** A conditional call or return whose condition holds. */
  predicate Taken(f: Flags, i: Instr)
  {
    (i.Ccc? && CondTrue(f, i.cc)) || (i.Rcc? && CondTrue(f, i.cc))
  }

  /** What `execute` returns: the table, except for conditional calls and returns taken. */
  function Cost(f: Flags, op: byte): nat
  {
    var i := Decode(op);
    if !Taken(f, i) then Cycles(op) else if i.Ccc? then 17 else 11
  }

  // ---------- one step ----------

  predicate Accepts(c: Cpu) { c.irq.pending && c.irq.inte && c.irq.delay == 0 }

  /** The machine once INTA has put the vector on the bus. */
  function Acknowledged(s: Sys): Sys
  {
    var irq := s.c.irq.(pending := false, inte := false, halted := false);
    s.(c := Log(s.c.(mc := [], irq := irq), if s.c.irq.halted then INTA_HALT else INTA, s.c.pc, irq.vector))
  }

  /** The machine once the opcode at PC has been fetched. */
  function Fetched(s: Sys): (Sys, byte)
  {
    var (s1, op) := Read(s.(c := s.c.(mc := [])), s.c.pc, FETCH);
    (SetPc(s1, Inc16(s1.c.pc)), op)
  }

  /** EI's grace instruction is used up, unless this instruction armed or cancelled it. */
  function Grace(before: byte, c: Cpu): Cpu
  {
    if before > 0 && c.irq.delay == before then c.(irq := c.irq.(delay := before - 1)) else c
  }

  function Spend(s: Sys, t: nat): Sys { s.(c := s.c.(cycles := s.c.cycles + t)) }

  function Halting(s: Sys): Sys { Spend(s.(c := Log(s.c.(mc := []), HALTA, s.c.pc, 0)), 4) }

  /** `i8080_step`. */
  function Step(s: Sys): Sys
  {
    if Accepts(s.c) then
      var s1 := Acknowledged(s);
      Spend(Execute(s1, Decode(s.c.irq.vector)), Cost(s1.c.r.f, s.c.irq.vector))
    else if s.c.irq.halted then Halting(s)
    else
      var (s1, op) := Fetched(s);
      var s2 := Execute(s1, Decode(op));
      Spend(s2.(c := Grace(s.c.irq.delay, s2.c)), Cost(s1.c.r.f, op))
  }

  /** The opcode a step executes, if it is not a halt cycle. */
  predicate Executes(s: Sys) { Accepts(s.c) || !s.c.irq.halted }

  function Opcode(s: Sys): byte
  {
    if Accepts(s.c) then s.c.irq.vector else Peek(s.w, s.c.pc)
  }

  // ---------- reset and requests ----------

  /** `i8080_reset`. */
  const RESET: Cpu := Cpu(
    Regs(0, Flags(false, false, false, false, false), 0, 0, 0, 0, 0, 0, 0), 0,
    Irq(false, false, false, 0, 0), 0, [])

  /** `i8080_interrupt`. */
  function Request(c: Cpu, vector: byte): Cpu {
    c.(irq := c.irq.(pending := true, vector := vector))
  }
}
