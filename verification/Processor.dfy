// i8080_t updated in place: the interpreter of core/src/i8080.c, each routine against its function
// in Cpu. The bus is the board.
module Processor {
  import opened Bits
  import opened Isa
  import C = Cpu
  import BoardUnit

  class I8080 {
    var r: C.Regs
    var pc: word
    var irq: C.Irq
    var cycles: nat
    var mc: seq<C.Mc>

    ghost function State(): C.Cpu
      reads this
    {
      C.Cpu(r, pc, irq, cycles, mc)
    }

    /** The processor and the board it drives. */
    ghost function Now(bus: BoardUnit.Bus): C.Sys
      reads this, bus, bus.Repr(), bus.rom
      requires bus.Valid()
    {
      C.Sys(State(), bus.View())
    }

    constructor ()
      ensures State() == C.RESET
    {
      r := C.Regs(0, C.Flags(false, false, false, false, false), 0, 0, 0, 0, 0, 0, 0);
      pc := 0;
      irq := C.Irq(false, false, false, 0, 0);
      cycles, mc := 0, [];
    }

    /** `i8080_reset`. */
    method Reset()
      modifies this
      ensures State() == C.RESET
    {
      r := C.Regs(0, C.Flags(false, false, false, false, false), 0, 0, 0, 0, 0, 0, 0);
      pc := 0;
      irq := C.Irq(false, false, false, 0, 0);
      cycles, mc := 0, [];
    }

    /** `i8080_interrupt`. */
    method Interrupt(vector: byte)
      modifies this`irq
      ensures State() == C.Request(old(State()), vector)
    {
      irq := irq.(pending := true, vector := vector);
    }

    // ---------- bus access ----------

    method Log(status: byte, addr: word, data: byte)
      modifies this`mc
      ensures State() == C.Log(old(State()), status, addr, data)
    {
      if |mc| < C.TRACE_SLOTS {
        mc := mc + [C.Mc(status, addr, data)];
      }
    }

    method Read(bus: BoardUnit.Bus, at: word, status: byte) returns (v: byte)
      requires bus.Valid()
      modifies this`mc
      ensures (Now(bus), v) == C.Read(old(Now(bus)), at, status)
    {
      v := bus.Peek(at);
      Log(status, at, v);
    }

    method Write(bus: BoardUnit.Bus, at: word, v: byte, status: byte)
      requires bus.Valid()
      modifies this`mc, bus.Repr()
      ensures bus.Valid() && Now(bus) == C.Write(old(Now(bus)), at, v, status)
    {
      bus.Poke(at, v);
      Log(status, at, v);
    }

    method Input(bus: BoardUnit.Bus, port: byte) returns (v: byte)
      requires bus.Valid()
      modifies this`mc
      ensures (Now(bus), v) == C.Input(old(Now(bus)), port)
    {
      v := bus.PortIn(port);
      Log(C.INPR, Word(port, port), v);
    }

    method Output(bus: BoardUnit.Bus, port: byte, v: byte)
      requires bus.Valid()
      modifies this`mc, bus.Repr()
      ensures bus.Valid() && Now(bus) == C.Output(old(Now(bus)), port, v)
    {
      bus.PortOut(port, v);
      Log(C.OUTW, Word(port, port), v);
    }

    method Fetch8(bus: BoardUnit.Bus) returns (v: byte)
      requires bus.Valid()
      modifies this`mc, this`pc
      ensures (Now(bus), v) == C.Fetch8(old(Now(bus)))
    {
      var at := pc;
      pc := Inc16(pc);
      v := Read(bus, at, C.MEMR);
    }

    method Fetch16(bus: BoardUnit.Bus) returns (v: word)
      requires bus.Valid()
      modifies this`mc, this`pc
      ensures (Now(bus), v) == C.Fetch16(old(Now(bus)))
    {
      hide BoardUnit.Bus.View, C.Fetch8;
      var lo := Fetch8(bus);
      var hi := Fetch8(bus);
      v := Word(hi, lo);
    }

    method Push16(bus: BoardUnit.Bus, v: word)
      requires bus.Valid()
      modifies this`mc, this`r, bus.Repr()
      ensures bus.Valid() && Now(bus) == C.Push16(old(Now(bus)), v)
    {
      Write(bus, Dec16(r.sp), Hi(v), C.STACKW);
      Write(bus, Dec16(Dec16(r.sp)), Lo(v), C.STACKW);
      r := r.(sp := Dec16(Dec16(r.sp)));
    }

    method Pop16(bus: BoardUnit.Bus) returns (v: word)
      requires bus.Valid()
      modifies this`mc, this`r
      ensures (Now(bus), v) == C.Pop16(old(Now(bus)))
    {
      var lo := Read(bus, r.sp, C.STACKR);
      var hi := Read(bus, Inc16(r.sp), C.STACKR);
      r := r.(sp := Inc16(Inc16(r.sp)));
      v := Word(hi, lo);
    }

    // ---------- registers ----------

    method SetPair(rp: Pair, v: word)
      modifies this`r
      ensures r == C.SetPair(old(r), rp, v)
    {
      match rp
      case 0 => r := r.(b := Hi(v), c := Lo(v));
      case 1 => r := r.(d := Hi(v), e := Lo(v));
      case 2 => r := r.(h := Hi(v), l := Lo(v));
      case _ => r := r.(sp := v);
    }

    method RegGet(bus: BoardUnit.Bus, n: Reg) returns (v: byte)
      requires bus.Valid()
      modifies this`mc
      ensures (Now(bus), v) == C.RegGet(old(Now(bus)), n)
    {
      hide BoardUnit.Bus.View, C.Read;
      match n
      case 0 => v := r.b;
      case 1 => v := r.c;
      case 2 => v := r.d;
      case 3 => v := r.e;
      case 4 => v := r.h;
      case 5 => v := r.l;
      case 6 => v := Read(bus, Word(r.h, r.l), C.MEMR);
      case _ => v := r.a;
    }

    method RegSet(bus: BoardUnit.Bus, n: Reg, v: byte)
      requires bus.Valid()
      modifies this`r, this`mc, bus.Repr()
      ensures bus.Valid() && Now(bus) == C.RegSet(old(Now(bus)), n, v)
    {
      hide BoardUnit.Bus.View, C.Write;
      match n
      case 0 => r := r.(b := v);
      case 1 => r := r.(c := v);
      case 2 => r := r.(d := v);
      case 3 => r := r.(e := v);
      case 4 => r := r.(h := v);
      case 5 => r := r.(l := v);
      case 6 => Write(bus, Word(r.h, r.l), v, C.MEMW);
      case _ => r := r.(a := v);
    }

    // ---------- arithmetic and logic ----------

    /** `set_szp`. */
    method SetSzp(v: byte)
      modifies this`r
      ensures r == old(r).(f := C.SetSzp(old(r).f, v))
    {
      var even := Parity8(v);
      r := r.(f := r.f.(s := v >= 0x80, z := v == 0, p := even));
    }

    method AluAdd(v: byte, cy: bool)
      modifies this`r
      ensures r == C.AluAdd(old(r), v, cy)
    {
      hide EvenParity, C.CarryOut;
      var res := (r.a + v + AsInt(cy)) % 256;
      r := r.(f := r.f.(cy := C.CarryOut(0x100, r.a, v, cy)));
      r := r.(f := r.f.(ac := C.CarryOut(0x10, r.a, v, cy)));
      SetSzp(res);
      r := r.(a := res);
    }

    /** a + ~v + !cy, with the final carry inverted. */
    method AluSub(v: byte, cy: bool)
      modifies this`r
      ensures r == C.AluSub(old(r), v, cy)
    {
      hide BoardUnit.Bus.View, C.AluAdd;
      AluAdd(255 - v, !cy);
      r := r.(f := r.f.(cy := !r.f.cy));
    }

    method AluCmp(v: byte)
      modifies this`r
      ensures r == C.AluCmp(old(r), v)
    {
      hide BoardUnit.Bus.View, C.AluSub;
      var saved := r.a;
      AluSub(v, false);
      r := r.(a := saved);
    }

    method AluAna(v: byte)
      modifies this`r
      ensures r == C.AluAna(old(r), v)
    {
      hide EvenParity, And8;
      var ac := HasBit(r.a, 8) || HasBit(v, 8);
      r := r.(a := And8(r.a, v));
      SetSzp(r.a);
      r := r.(f := r.f.(cy := false, ac := ac));
    }

    method AluXra(v: byte)
      modifies this`r
      ensures r == C.AluXra(old(r), v)
    {
      hide EvenParity, Xor8;
      r := r.(a := Xor8(r.a, v));
      SetSzp(r.a);
      r := r.(f := r.f.(cy := false, ac := false));
    }

    method AluOra(v: byte)
      modifies this`r
      ensures r == C.AluOra(old(r), v)
    {
      hide EvenParity, Or8;
      r := r.(a := Or8(r.a, v));
      SetSzp(r.a);
      r := r.(f := r.f.(cy := false, ac := false));
    }

    method AluOp(k: Reg, v: byte)
      modifies this`r
      ensures r == C.AluOp(old(r), k, v)
    {
      hide BoardUnit.Bus.View, C.AluAdd, C.AluSub, C.AluAna, C.AluXra, C.AluOra, C.AluCmp;
      match k
      case 0 => AluAdd(v, false);
      case 1 => AluAdd(v, r.f.cy);
      case 2 => AluSub(v, false);
      case 3 => AluSub(v, r.f.cy);
      case 4 => AluAna(v);
      case 5 => AluXra(v);
      case 6 => AluOra(v);
      case _ => AluCmp(v);
    }

    method AluInr(bus: BoardUnit.Bus, n: Reg)
      requires bus.Valid()
      modifies this`r, this`mc, bus.Repr()
      ensures bus.Valid() && Now(bus) == C.AluInr(old(Now(bus)), n)
    {
      hide EvenParity, C.RegGet, C.RegSet;
      var v := RegGet(bus, n);
      var res: byte := (v as int + 1) % 256;
      r := r.(f := r.f.(ac := res % 16 == 0));
      SetSzp(res);
      RegSet(bus, n, res);
    }

    method AluDcr(bus: BoardUnit.Bus, n: Reg)
      requires bus.Valid()
      modifies this`r, this`mc, bus.Repr()
      ensures bus.Valid() && Now(bus) == C.AluDcr(old(Now(bus)), n)
    {
      hide EvenParity, C.RegGet, C.RegSet;
      var v := RegGet(bus, n);
      var res: byte := (v as int + 255) % 256;
      r := r.(f := r.f.(ac := res % 16 != 15));
      SetSzp(res);
      RegSet(bus, n, res);
    }

    method AluDad(v: word)
      modifies this`r
      ensures r == C.AluDad(old(r), v)
    {
      var res := Word(r.h, r.l) + v;
      r := r.(f := r.f.(cy := res >= 0x1_0000));
      SetPair(2, res % 0x1_0000);
    }

    method AluDaa()
      modifies this`r
      ensures r == C.AluDaa(old(r))
    {
      hide BoardUnit.Bus.View, C.AluAdd;
      var cy := r.f.cy;
      var corr: byte := 0;
      var lsb, msb := r.a % 16, r.a / 16;
      if r.f.ac || lsb > 9 {
        corr := corr + 0x06;
      }
      if cy || msb > 9 || (msb >= 9 && lsb > 9) {
        corr := corr + 0x60;
        cy := true;
      }
      AluAdd(corr, false);
      r := r.(f := r.f.(cy := cy));
    }

    method Rotate(i: Instr)
      modifies this`r
      ensures r == C.Rotate(old(r), i)
    {
      var carry := r.f.cy;
      if i.Rlc? {
        var cy := r.a / 128 == 1;
        r := r.(a := r.a * 2 % 256 + AsInt(cy));
        r := r.(f := r.f.(cy := cy));
      } else if i.Rrc? {
        var cy := r.a % 2 == 1;
        r := r.(a := r.a / 2 + 128 * AsInt(cy));
        r := r.(f := r.f.(cy := cy));
      } else if i.Ral? {
        var cy := r.a / 128 == 1;
        r := r.(a := r.a * 2 % 256 + AsInt(carry));
        r := r.(f := r.f.(cy := cy));
      } else {
        var cy := r.a % 2 == 1;
        r := r.(a := r.a / 2 + 128 * AsInt(carry));
        r := r.(f := r.f.(cy := cy));
      }
    }

    // ---------- execute ----------

    /** LXI, STA and LDA. */
    method ExecDirect(bus: BoardUnit.Bus, i: Instr)
      requires bus.Valid() && (i.Lxi? || i.Sta? || i.Lda?)
      modifies this`r, this`pc, this`irq, this`mc, bus.Repr()
      ensures bus.Valid() && Now(bus) == C.ExecMove(old(Now(bus)), i)
    {
      hide BoardUnit.Bus.View, C.Fetch16, C.Fetch8, C.Read, C.Write, C.RegGet, C.RegSet, C.SetPair, C.GetPair;
      hide Word, Inc16, Dec16;
      match i {
        case Lxi(rp) =>
          var v := Fetch16(bus);
          SetPair(rp, v);
        case Sta =>
          var at := Fetch16(bus);
          Write(bus, at, r.a, C.MEMW);
        case Lda =>
          var at := Fetch16(bus);
          var v := Read(bus, at, C.MEMR);
          r := r.(a := v);
      }
    }

    /** SHLD and LHLD. */
    method ExecDirectPair(bus: BoardUnit.Bus, i: Instr)
      requires bus.Valid() && (i.Shld? || i.Lhld?)
      modifies this`r, this`pc, this`irq, this`mc, bus.Repr()
      ensures bus.Valid() && Now(bus) == C.ExecMove(old(Now(bus)), i)
    {
      hide BoardUnit.Bus.View, C.Fetch16, C.Fetch8, C.Read, C.Write, C.RegGet, C.RegSet, C.SetPair, C.GetPair;
      hide Word, Inc16, Dec16;
      match i {
        case Shld =>
          var at := Fetch16(bus);
          Write(bus, at, r.l, C.MEMW);
          Write(bus, Inc16(at), r.h, C.MEMW);
        case Lhld =>
          var at := Fetch16(bus);
          var lo := Read(bus, at, C.MEMR);
          var hi := Read(bus, Inc16(at), C.MEMR);
          r := r.(l := lo, h := hi);
      }
    }

    /** STAX and LDAX. */
    method ExecIndirect(bus: BoardUnit.Bus, i: Instr)
      requires bus.Valid() && (i.Stax? || i.Ldax?)
      modifies this`r, this`pc, this`irq, this`mc, bus.Repr()
      ensures bus.Valid() && Now(bus) == C.ExecMove(old(Now(bus)), i)
    {
      hide BoardUnit.Bus.View, C.Fetch16, C.Fetch8, C.Read, C.Write, C.RegGet, C.RegSet, C.SetPair, C.GetPair;
      hide Word, Inc16, Dec16;
      match i {
        case Stax(rp) =>
          Write(bus, C.GetPair(r, rp), r.a, C.MEMW);
        case Ldax(rp) =>
          var v := Read(bus, C.GetPair(r, rp), C.MEMR);
          r := r.(a := v);
      }
    }

    /** MOV and MVI. */
    method ExecCopy(bus: BoardUnit.Bus, i: Instr)
      requires bus.Valid() && (i.Mov? || i.Mvi?)
      modifies this`r, this`pc, this`irq, this`mc, bus.Repr()
      ensures bus.Valid() && Now(bus) == C.ExecMove(old(Now(bus)), i)
    {
      hide BoardUnit.Bus.View, C.Fetch16, C.Fetch8, C.Read, C.Write, C.RegGet, C.RegSet, C.SetPair, C.GetPair;
      hide Word, Inc16, Dec16;
      match i {
        case Mov(dst, src) =>
          var v := RegGet(bus, src);
          RegSet(bus, dst, v);
        case Mvi(dst) =>
          var v := Fetch8(bus);
          RegSet(bus, dst, v);
      }
    }

    /** 16-bit register work. */
    method ExecPair(bus: BoardUnit.Bus, i: Instr)
      requires bus.Valid() && (i.Inx? || i.Dcx? || i.Xchg? || i.Sphl?)
      modifies this`r, this`pc, this`irq, this`mc, bus.Repr()
      ensures bus.Valid() && Now(bus) == C.ExecMove(old(Now(bus)), i)
    {
      hide BoardUnit.Bus.View, C.Fetch16, C.Fetch8, C.Read, C.Write, C.RegGet, C.RegSet, C.SetPair, C.GetPair;
      hide Word, Inc16, Dec16;
      match i {
        case Inx(rp) =>
          SetPair(rp, Inc16(C.GetPair(r, rp)));
        case Dcx(rp) =>
          SetPair(rp, Dec16(C.GetPair(r, rp)));
        case Xchg =>
          r := r.(d := r.h, e := r.l, h := r.d, l := r.e);
        case Sphl =>
          r := r.(sp := Word(r.h, r.l));
      }
    }

    method ExecMove(bus: BoardUnit.Bus, i: Instr)
      requires bus.Valid() && C.IsMove(i)
      modifies this`r, this`pc, this`irq, this`mc, bus.Repr()
      ensures bus.Valid() && Now(bus) == C.ExecMove(old(Now(bus)), i)
    {
      hide BoardUnit.Bus.View, C.ExecMove;
      if i.Lxi? || i.Sta? || i.Lda? {
        ExecDirect(bus, i);
      } else if i.Shld? || i.Lhld? {
        ExecDirectPair(bus, i);
      } else if i.Stax? || i.Ldax? {
        ExecIndirect(bus, i);
      } else if i.Mov? || i.Mvi? {
        ExecCopy(bus, i);
      } else {
        ExecPair(bus, i);
      }
    }

    /** ALU operations on a register or M. */
    method ExecOperand(bus: BoardUnit.Bus, i: Instr)
      requires bus.Valid() && i.Alu?
      modifies this`r, this`pc, this`irq, this`mc, bus.Repr()
      ensures bus.Valid() && Now(bus) == C.ExecAlu(old(Now(bus)), i)
    {
      hide BoardUnit.Bus.View, C.Fetch8, C.RegGet, C.AluDad, C.AluDaa, C.AluOp, C.AluInr, C.AluDcr, C.Rotate, C.GetPair;
      var v := RegGet(bus, i.src);
      AluOp(i.k, v);
    }

    /** ALU operations on an immediate byte. */
    method ExecImmediate(bus: BoardUnit.Bus, i: Instr)
      requires bus.Valid() && i.AluImm?
      modifies this`r, this`pc, this`irq, this`mc, bus.Repr()
      ensures bus.Valid() && Now(bus) == C.ExecAlu(old(Now(bus)), i)
    {
      hide BoardUnit.Bus.View, C.Fetch8, C.RegGet, C.AluDad, C.AluDaa, C.AluOp, C.AluInr, C.AluDcr, C.Rotate, C.GetPair;
      var v := Fetch8(bus);
      AluOp(i.k, v);
    }

    /** INR and DCR. */
    method ExecCount(bus: BoardUnit.Bus, i: Instr)
      requires bus.Valid() && (i.Inr? || i.Dcr?)
      modifies this`r, this`pc, this`irq, this`mc, bus.Repr()
      ensures bus.Valid() && Now(bus) == C.ExecAlu(old(Now(bus)), i)
    {
      hide BoardUnit.Bus.View, C.Fetch8, C.RegGet, C.AluDad, C.AluDaa, C.AluOp, C.AluInr, C.AluDcr, C.Rotate, C.GetPair;
      match i {
        case Inr(n) => AluInr(bus, n);
        case Dcr(n) => AluDcr(bus, n);
      }
    }

    /** DAD and DAA. */
    method ExecWide(bus: BoardUnit.Bus, i: Instr)
      requires bus.Valid() && (i.Dad? || i.Daa?)
      modifies this`r, this`pc, this`irq, this`mc, bus.Repr()
      ensures bus.Valid() && Now(bus) == C.ExecAlu(old(Now(bus)), i)
    {
      hide BoardUnit.Bus.View, C.Fetch8, C.RegGet, C.AluDad, C.AluDaa, C.AluOp, C.AluInr, C.AluDcr, C.Rotate, C.GetPair;
      match i {
        case Dad(rp) => AluDad(C.GetPair(r, rp));
        case Daa => AluDaa();
      }
    }

    /** CMA and the carry. */
    method ExecFlags(bus: BoardUnit.Bus, i: Instr)
      requires bus.Valid() && (i.Cma? || i.Stc? || i.Cmc?)
      modifies this`r, this`pc, this`irq, this`mc, bus.Repr()
      ensures bus.Valid() && Now(bus) == C.ExecAlu(old(Now(bus)), i)
    {
      hide BoardUnit.Bus.View, C.Fetch8, C.RegGet, C.AluDad, C.AluDaa, C.AluOp, C.AluInr, C.AluDcr, C.Rotate, C.GetPair;
      match i {
        case Cma => r := r.(a := 255 - r.a);
        case Stc => r := r.(f := r.f.(cy := true));
        case Cmc => r := r.(f := r.f.(cy := !r.f.cy));
      }
    }

    /** Rotations. */
    method ExecRotate(bus: BoardUnit.Bus, i: Instr)
      requires bus.Valid() && (i.Rlc? || i.Rrc? || i.Ral? || i.Rar?)
      modifies this`r, this`pc, this`irq, this`mc, bus.Repr()
      ensures bus.Valid() && Now(bus) == C.ExecAlu(old(Now(bus)), i)
    {
      hide BoardUnit.Bus.View, C.Fetch8, C.RegGet, C.AluDad, C.AluDaa, C.AluOp, C.AluInr, C.AluDcr, C.Rotate, C.GetPair;
      Rotate(i);
    }

    method ExecAlu(bus: BoardUnit.Bus, i: Instr)
      requires bus.Valid() && C.IsAlu(i)
      modifies this`r, this`pc, this`irq, this`mc, bus.Repr()
      ensures bus.Valid() && Now(bus) == C.ExecAlu(old(Now(bus)), i)
    {
      hide BoardUnit.Bus.View, C.ExecAlu;
      if i.Alu? {
        ExecOperand(bus, i);
      } else if i.AluImm? {
        ExecImmediate(bus, i);
      } else if i.Inr? || i.Dcr? {
        ExecCount(bus, i);
      } else if i.Dad? || i.Daa? {
        ExecWide(bus, i);
      } else if i.Cma? || i.Stc? || i.Cmc? {
        ExecFlags(bus, i);
      } else {
        ExecRotate(bus, i);
      }
    }

    /** PUSH and POP. */
    method ExecStack(bus: BoardUnit.Bus, i: Instr)
      requires bus.Valid() && (i.Pop? || i.Push?)
      modifies this`r, this`pc, this`irq, this`mc, bus.Repr()
      ensures bus.Valid() && Now(bus) == C.ExecFlow(old(Now(bus)), i)
    {
      hide BoardUnit.Bus.View, C.Fetch16, C.Push16, C.Pop16, C.SetPair, C.GetPair;
      hide C.CondTrue, C.Psw, C.FromPsw, Word, Hi, Lo;
      match i {
        case Pop(rp) =>
          var v := Pop16(bus);
          if rp == 3 {
            r := r.(a := Hi(v), f := C.FromPsw(Lo(v)));
          } else {
            SetPair(rp, v);
          }
        case Push(rp) =>
          Push16(bus, if rp == 3 then Word(r.a, C.Psw(r.f)) else C.GetPair(r, rp));
      }
    }

    /** XTHL. */
    method ExecXthl(bus: BoardUnit.Bus, i: Instr)
      requires bus.Valid() && i.Xthl?
      modifies this`r, this`pc, this`irq, this`mc, bus.Repr()
      ensures bus.Valid() && Now(bus) == C.ExecFlow(old(Now(bus)), i)
    {
      hide BoardUnit.Bus.View, C.Fetch16, C.Push16, C.Pop16, C.SetPair, C.GetPair;
      hide C.CondTrue, C.Psw, C.FromPsw, Word, Hi, Lo;
      var v := Pop16(bus);
      Push16(bus, Word(r.h, r.l));
      SetPair(2, v);
    }

    /** PCHL. */
    method ExecPchl(bus: BoardUnit.Bus, i: Instr)
      requires bus.Valid() && i.Pchl?
      modifies this`r, this`pc, this`irq, this`mc, bus.Repr()
      ensures bus.Valid() && Now(bus) == C.ExecFlow(old(Now(bus)), i)
    {
      hide BoardUnit.Bus.View, C.Fetch16, C.Push16, C.Pop16, C.SetPair, C.GetPair;
      hide C.CondTrue, C.Psw, C.FromPsw, Word, Hi, Lo;
      pc := Word(r.h, r.l);
    }

    /** Jumps. */
    method ExecJump(bus: BoardUnit.Bus, i: Instr)
      requires bus.Valid() && (i.Jmp? || i.Jcc?)
      modifies this`r, this`pc, this`irq, this`mc, bus.Repr()
      ensures bus.Valid() && Now(bus) == C.ExecFlow(old(Now(bus)), i)
    {
      hide BoardUnit.Bus.View, C.Fetch16, C.Push16, C.Pop16, C.SetPair, C.GetPair;
      hide C.CondTrue, C.Psw, C.FromPsw, Word, Hi, Lo;
      match i {
        case Jmp =>
          pc := Fetch16(bus);
        case Jcc(cc) =>
          var at := Fetch16(bus);
          if C.CondTrue(r.f, cc) { pc := at; }
      }
    }

    /** Returns; `taken` reports a conditional one whose condition held. */
    method ExecReturn(bus: BoardUnit.Bus, i: Instr) returns (taken: bool)
      requires bus.Valid() && (i.Ret? || i.Rcc?)
      modifies this`r, this`pc, this`irq, this`mc, bus.Repr()
      ensures bus.Valid() && Now(bus) == C.ExecFlow(old(Now(bus)), i) && taken == C.Taken(old(r).f, i)
    {
      hide BoardUnit.Bus.View, C.Fetch16, C.Push16, C.Pop16, C.SetPair, C.GetPair;
      hide C.CondTrue, C.Psw, C.FromPsw, Word, Hi, Lo;
      taken := false;
      match i {
        case Ret =>
          pc := Pop16(bus);
        case Rcc(cc) =>
          if C.CondTrue(r.f, cc) {
            pc := Pop16(bus);
            taken := true;
          }
      }
    }

    /** Calls; `taken` as for returns. */
    method ExecCall(bus: BoardUnit.Bus, i: Instr) returns (taken: bool)
      requires bus.Valid() && (i.Call? || i.Ccc?)
      modifies this`r, this`pc, this`irq, this`mc, bus.Repr()
      ensures bus.Valid() && Now(bus) == C.ExecFlow(old(Now(bus)), i) && taken == C.Taken(old(r).f, i)
    {
      hide BoardUnit.Bus.View, C.Fetch16, C.Push16, C.Pop16, C.SetPair, C.GetPair;
      hide C.CondTrue, C.Psw, C.FromPsw, Word, Hi, Lo;
      taken := false;
      match i {
        case Call =>
          var at := Fetch16(bus);
          Push16(bus, pc);
          pc := at;
        case Ccc(cc) =>
          var at := Fetch16(bus);
          if C.CondTrue(r.f, cc) {
            Push16(bus, pc);
            pc := at;
            taken := true;
          }
      }
    }

    /** Restarts. */
    method ExecRestart(bus: BoardUnit.Bus, i: Instr)
      requires bus.Valid() && i.Rst?
      modifies this`r, this`pc, this`irq, this`mc, bus.Repr()
      ensures bus.Valid() && Now(bus) == C.ExecFlow(old(Now(bus)), i)
    {
      hide BoardUnit.Bus.View, C.Fetch16, C.Push16, C.Pop16, C.SetPair, C.GetPair;
      hide C.CondTrue, C.Psw, C.FromPsw, Word, Hi, Lo;
      Push16(bus, pc);
      pc := 8 * i.n;
    }

    method ExecFlow(bus: BoardUnit.Bus, i: Instr) returns (taken: bool)
      requires bus.Valid() && C.IsFlow(i)
      modifies this`r, this`pc, this`irq, this`mc, bus.Repr()
      ensures bus.Valid() && Now(bus) == C.ExecFlow(old(Now(bus)), i) && taken == C.Taken(old(r).f, i)
    {
      hide BoardUnit.Bus.View, C.ExecFlow, C.CondTrue;
      taken := false;
      if i.Pop? || i.Push? {
        ExecStack(bus, i);
      } else if i.Xthl? {
        ExecXthl(bus, i);
      } else if i.Pchl? {
        ExecPchl(bus, i);
      } else if i.Call? || i.Ccc? {
        taken := ExecCall(bus, i);
      } else if i.Rst? {
        ExecRestart(bus, i);
      } else if i.Ret? || i.Rcc? {
        taken := ExecReturn(bus, i);
      } else {
        ExecJump(bus, i);
      }
    }

    method ExecControl(bus: BoardUnit.Bus, i: Instr)
      requires bus.Valid() && !C.IsMove(i) && !C.IsAlu(i) && !C.IsFlow(i)
      modifies this`r, this`pc, this`irq, this`mc, bus.Repr()
      ensures bus.Valid() && Now(bus) == C.ExecControl(old(Now(bus)), i)
    {
      hide BoardUnit.Bus.View, C.Fetch8, C.Input, C.Output;
      match i {
        case In =>
          var port := Fetch8(bus);
          var v := Input(bus, port);
          r := r.(a := v);
        case Out =>
          var port := Fetch8(bus);
          Output(bus, port, r.a);
        case Hlt => irq := irq.(halted := true);
        case Di => irq := irq.(inte := false, delay := 0);
        case Ei => irq := irq.(inte := true, delay := 1);
        case _ =>
      }
    }

    /** `execute`, with the T states it returns. */
    method Execute(bus: BoardUnit.Bus, op: byte) returns (cyc: nat)
      requires bus.Valid()
      modifies this`r, this`pc, this`irq, this`mc, bus.Repr()
      ensures bus.Valid() && Now(bus) == C.Execute(old(Now(bus)), Decode(op))
      ensures cyc == C.Cost(old(r).f, op)
    {
      hide BoardUnit.Bus.View, C.ExecMove, C.ExecAlu, C.ExecFlow, C.ExecControl, C.CondTrue, Decode, Cycles;
      var i := Decode(op);
      cyc := Cycles(op);
      if C.IsMove(i) {
        ExecMove(bus, i);
      } else if C.IsAlu(i) {
        ExecAlu(bus, i);
      } else if C.IsFlow(i) {
        var taken := ExecFlow(bus, i);
        if taken {
          cyc := if i.Ccc? then 17 else 11;
        }
      } else {
        ExecControl(bus, i);
      }
    }

    /** The INTA cycle and the jammed instruction. */
    method Service(bus: BoardUnit.Bus) returns (cyc: nat)
      requires bus.Valid() && C.Accepts(State())
      modifies this, bus.Repr()
      ensures bus.Valid() && Now(bus) == C.Step(old(Now(bus)))
      ensures cycles == old(cycles) + cyc
    {
      hide BoardUnit.Bus.View, C.Execute, Decode, C.Cost;
      mc := [];
      var vec := irq.vector;
      irq := irq.(pending := false, inte := false);
      Log(if irq.halted then C.INTA_HALT else C.INTA, pc, vec);
      irq := irq.(halted := false);
      assert Now(bus) == C.Acknowledged(old(Now(bus)));
      cyc := Execute(bus, vec);
      cycles := cycles + cyc;
    }

    /** Fetch, execute, and use up EI's grace instruction. */
    method RunOne(bus: BoardUnit.Bus) returns (cyc: nat)
      requires bus.Valid() && !C.Accepts(State()) && !irq.halted
      modifies this, bus.Repr()
      ensures bus.Valid() && Now(bus) == C.Step(old(Now(bus)))
      ensures cycles == old(cycles) + cyc
    {
      hide BoardUnit.Bus.View, C.Execute, Decode, C.Cost, C.Acknowledged, C.Halting, C.Read;
      mc := [];
      var op := Read(bus, pc, C.FETCH);
      var delayBefore := irq.delay;
      pc := Inc16(pc);
      assert (Now(bus), op) == C.Fetched(old(Now(bus)));
      cyc := Execute(bus, op);
      if delayBefore > 0 && irq.delay == delayBefore {
        irq := irq.(delay := irq.delay - 1);
      }
      cycles := cycles + cyc;
    }

    /** `i8080_step`: service an interrupt, idle in HLT, or run one instruction. */
    method Step(bus: BoardUnit.Bus) returns (cyc: nat)
      requires bus.Valid()
      modifies this, bus.Repr()
      ensures bus.Valid() && Now(bus) == C.Step(old(Now(bus)))
      ensures cycles == old(cycles) + cyc
    {
      if irq.pending && irq.inte && irq.delay == 0 {
        hide BoardUnit.Bus.View, C.Step;
        cyc := Service(bus);
      } else if irq.halted {
        hide BoardUnit.Bus.View, C.Execute;
        mc := [];
        Log(C.HALTA, pc, 0);
        cyc := 4;
        cycles := cycles + 4;
      } else {
        hide BoardUnit.Bus.View, C.Step;
        cyc := RunOne(bus);
      }
    }
  }

  /** Whether an odd number of the `n` bits from bit `k` up are set. */
  predicate OddBits(v: nat, k: nat, n: nat)
    decreases n
  {
    n != 0 && BitAt(v, k) != OddBits(v, k + 1, n - 1)
  }

  lemma {:induction false} OddBitsShift(v: nat, k: nat, n: nat)
    ensures OddBits(v, k + 1, n) == OddBits(v / 2, k, n)
    decreases n
  {
    if n > 0 {
      OddBitsShift(v, k + 1, n - 1);
    }
  }

  lemma {:induction false} OddBitsCount(v: nat, w: nat)
    requires v < Pow2(w)
    ensures OddBits(v, 0, w) <==> Ones(v) % 2 == 1
    decreases w
  {
    if w > 0 {
      OddBitsCount(v / 2, w - 1);
      OddBitsShift(v, 0, w - 1);
    }
  }

  lemma Shift2(v: nat, k: nat)
    ensures BitAt(v / 4, k) == BitAt(v, k + 2)
  {
    assert v / 2 / 2 == v / 4;
    assert BitAt(v, k + 2) == BitAt(v / 2, k + 1) == BitAt(v / 2 / 2, k);
  }

  lemma Shift4(v: nat, k: nat)
    ensures BitAt(v / 16, k) == BitAt(v, k + 4)
  {
    hide BitAt;
    assert v / 4 / 4 == v / 16;
    Shift2(v, k + 2);
    Shift2(v / 4, k);
  }

  lemma XorBit8(a: byte, b: byte, k: nat)
    requires k < 8
    ensures BitAt(Xor8(a, b), k) == (BitAt(a, k) != BitAt(b, k))
  {
    XorBit(a, b, 8, k);
  }

  /** `parity8`: fold the byte onto its low bit. */
  method Parity8(v: byte) returns (even: bool)
    ensures even == EvenParity(v)
  {
    var x := Xor8(v, v / 16);
    var y := Xor8(x, x / 4);
    var z := Xor8(y, y / 2);
    even := z % 2 == 0;
    FoldCountsBits(v, x, y, z);
  }

  /** The fold leaves the parity of the bit count in the low bit. */
  lemma FoldCountsBits(v: byte, x: byte, y: byte, z: byte)
    requires x == Xor8(v, v / 16) && y == Xor8(x, x / 4) && z == Xor8(y, y / 2)
    ensures z % 2 == 0 <==> EvenParity(v)
  {
    hide Xor8, Ones;
    assert z % 2 == 1 <==> BitAt(z, 0);
    assert BitAt(y / 2, 0) == BitAt(y, 1);
    assert OddBits(v, 0, 8) ==
      (BitAt(v, 0) != (BitAt(v, 1) != (BitAt(v, 2) != (BitAt(v, 3) !=
       (BitAt(v, 4) != (BitAt(v, 5) != (BitAt(v, 6) != BitAt(v, 7)))))))) by { hide BitAt; }
    hide BitAt, OddBits;
    forall k | 0 <= k < 4 ensures BitAt(x, k) == (BitAt(v, k) != BitAt(v, k + 4)) {
      XorBit8(v, v / 16, k);
      Shift4(v, k);
    }
    forall k | 0 <= k < 2 ensures BitAt(y, k) == (BitAt(x, k) != BitAt(x, k + 2)) {
      XorBit8(x, x / 4, k);
      Shift2(x, k);
    }
    XorBit8(y, y / 2, 0);
    assert Pow2(8) == 256;
    OddBitsCount(v, 8);
  }
}
