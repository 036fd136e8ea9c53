// What every instruction does and does not do: its machine cycles, its operand bytes, its program
// counter, its interrupt state and its effect on the board.
module CpuLaws {
  import opened Bits
  import opened Board
  import opened Isa
  import opened Cpu
  import IsaTables

  /** Machine cycles of an instruction, branches included. */
  function McCount(f: Flags, i: Instr): nat
  {
    MachineCycles(i) + (if Taken(f, i) then 2 else 0)
  }

  predicate Jumps(f: Flags, i: Instr)
  {
    i.Pchl? || i.Jmp? || i.Call? || i.Ret? || i.Rst? || Taken(f, i) || (i.Jcc? && CondTrue(f, i.cc))
  }

  predicate Pushes(f: Flags, i: Instr)
  {
    i.Call? || i.Rst? || (i.Ccc? && CondTrue(f, i.cc))
  }

  /** The operand bytes are fetched from PC onwards, right after the first cycle. */
  ghost predicate Operands(s: Sys, i: Instr, t: Sys)
  {
    forall k :: 1 <= k <= OperandBytes(i) && k < |t.c.mc| ==>
      t.c.mc[k] == Mc(MEMR, Plus16(s.c.pc, k - 1), Peek(s.w, Plus16(s.c.pc, k - 1)))
  }

  ghost predicate Traced(s: Sys, i: Instr, t: Sys)
  {
    && |t.c.mc| == McCount(s.c.r.f, i)
    && OperandBytes(i) < |t.c.mc|
    && |s.c.mc| == 1 && t.c.mc[0] == s.c.mc[0]
    && Operands(s, i, t)
  }

  /** PC moves over the operand bytes, and that is the return address of a call. */
  ghost predicate Sequenced(s: Sys, i: Instr, t: Sys)
  {
    var n := OperandBytes(i);
    var next := Plus16(s.c.pc, n);
    && (!Jumps(s.c.r.f, i) ==> t.c.pc == next)
    && (Pushes(s.c.r.f, i) ==>
          && |t.c.mc| == n + 3
          && t.c.mc[n + 1] == Mc(STACKW, Dec16(s.c.r.sp), Hi(next))
          && t.c.mc[n + 2] == Mc(STACKW, Dec16(Dec16(s.c.r.sp)), Lo(next))
          && t.c.r.sp == Dec16(Dec16(s.c.r.sp)))
  }

  /** Only EI, DI and HLT touch the interrupt state, and no instruction touches the clock. */
  ghost predicate InterruptKept(c: Cpu, i: Instr, d: Cpu)
  {
    && d.cycles == c.cycles
    && d.irq == if i.Ei? then c.irq.(inte := true, delay := 1)
                else if i.Di? then c.irq.(inte := false, delay := 0)
                else if i.Hlt? then c.irq.(halted := true) else c.irq
  }

  ghost predicate Lawful(s: Sys, i: Instr, t: Sys)
  {
    Traced(s, i, t) && Sequenced(s, i, t) && InterruptKept(s.c, i, t.c)
  }

  lemma Fetch16Law(s: Sys)
    requires |s.c.mc| == 1
    ensures var (t, v) := Fetch16(s);
            && t == Sys(s.c.(pc := Plus16(s.c.pc, 2), mc := t.c.mc), s.w)
            && t.c.mc == [s.c.mc[0],
                 Mc(MEMR, s.c.pc, Peek(s.w, s.c.pc)), Mc(MEMR, Plus16(s.c.pc, 1), Peek(s.w, Plus16(s.c.pc, 1)))]
  {
    hide Peek;
  }

  lemma LxiLaw(s: Sys, i: Instr)
    requires i.Lxi? && |s.c.mc| == 1
    ensures Lawful(s, i, ExecMove(s, i))
  {
    hide Fetch16, Peek, Poke, Psw, FromPsw, CondTrue;
    Fetch16Law(s);
  }

  lemma StaLaw(s: Sys, i: Instr)
    requires i.Sta? && |s.c.mc| == 1
    ensures Lawful(s, i, ExecMove(s, i))
  {
    hide Fetch16, Peek, Poke, Psw, FromPsw, CondTrue;
    Fetch16Law(s);
  }

  lemma LdaLaw(s: Sys, i: Instr)
    requires i.Lda? && |s.c.mc| == 1
    ensures Lawful(s, i, ExecMove(s, i))
  {
    hide Fetch16, Peek, Poke, Psw, FromPsw, CondTrue;
    Fetch16Law(s);
  }

  lemma ShldLaw(s: Sys, i: Instr)
    requires i.Shld? && |s.c.mc| == 1
    ensures Lawful(s, i, ExecMove(s, i))
  {
    hide Fetch16, Peek, Poke, Psw, FromPsw, CondTrue;
    Fetch16Law(s);
  }

  lemma LhldLaw(s: Sys, i: Instr)
    requires i.Lhld? && |s.c.mc| == 1
    ensures Lawful(s, i, ExecMove(s, i))
  {
    hide Fetch16, Peek, Poke, Psw, FromPsw, CondTrue;
    Fetch16Law(s);
  }

  lemma StaxLaw(s: Sys, i: Instr)
    requires (i.Stax? || i.Ldax?) && |s.c.mc| == 1
    ensures Lawful(s, i, ExecMove(s, i))
  {
    hide Peek, Poke, Psw, FromPsw, CondTrue;
  }

  lemma InxLaw(s: Sys, i: Instr)
    requires (i.Inx? || i.Dcx? || i.Xchg? || i.Sphl?) && |s.c.mc| == 1
    ensures Lawful(s, i, ExecMove(s, i))
  {
    hide Peek, Poke, SetPair, GetPair, CondTrue;
  }

  lemma MovLaw(s: Sys, i: Instr)
    requires (i.Mov? && (i.dst != 6 || i.src != 6)) && |s.c.mc| == 1
    ensures Lawful(s, i, ExecMove(s, i))
  {
    hide Peek, Poke, Psw, FromPsw, CondTrue;
  }

  lemma MviLaw(s: Sys, i: Instr)
    requires i.Mvi? && |s.c.mc| == 1
    ensures Lawful(s, i, ExecMove(s, i))
  {
    hide Peek, Poke, Psw, FromPsw, CondTrue;
  }

  lemma FlagLaw(s: Sys, i: Instr)
    requires (i.Cma? || i.Stc? || i.Cmc?) && |s.c.mc| == 1
    ensures Lawful(s, i, ExecAlu(s, i))
  {
    hide Peek, Poke, AluOp, AluInr, AluDcr, RegGet, Fetch8, Rotate, AluDaa, AluDad;
  }

  lemma DadLaw(s: Sys, i: Instr)
    requires (i.Dad? || i.Daa?) && |s.c.mc| == 1
    ensures Lawful(s, i, ExecAlu(s, i))
  {
    hide AluDad, AluDaa;
  }

  lemma RotLaw(s: Sys, i: Instr)
    requires (i.Rlc? || i.Rrc? || i.Ral? || i.Rar?) && |s.c.mc| == 1
    ensures Lawful(s, i, ExecAlu(s, i))
  {
    hide Rotate;
  }

  lemma AluLaw(s: Sys, i: Instr)
    requires i.Alu? && |s.c.mc| == 1
    ensures Lawful(s, i, ExecAlu(s, i))
  {
    hide AluOp;
  }

  lemma AluImmLaw(s: Sys, i: Instr)
    requires i.AluImm? && |s.c.mc| == 1
    ensures Lawful(s, i, ExecAlu(s, i))
  {
    hide AluOp;
  }

  lemma InrLaw(s: Sys, i: Instr)
    requires i.Inr? && |s.c.mc| == 1
    ensures Lawful(s, i, ExecAlu(s, i))
  {
    hide IncFlags, DecFlags;
  }

  lemma DcrLaw(s: Sys, i: Instr)
    requires i.Dcr? && |s.c.mc| == 1
    ensures Lawful(s, i, ExecAlu(s, i))
  {
    hide IncFlags, DecFlags;
  }

  lemma PopLaw(s: Sys, i: Instr)
    requires i.Pop? && |s.c.mc| == 1
    ensures Lawful(s, i, ExecFlow(s, i))
  {
    hide Peek, Poke, Psw, FromPsw, CondTrue;
  }

  lemma PushLaw(s: Sys, i: Instr)
    requires i.Push? && |s.c.mc| == 1
    ensures Lawful(s, i, ExecFlow(s, i))
  {
    hide Peek, Poke, Psw, FromPsw, CondTrue;
  }

  lemma XthlLaw(s: Sys, i: Instr)
    requires i.Xthl? && |s.c.mc| == 1
    ensures Lawful(s, i, ExecFlow(s, i))
  {
    hide Peek, Poke, Psw, FromPsw, CondTrue;
  }

  lemma JmpLaw(s: Sys, i: Instr)
    requires (i.Jmp? || i.Pchl?) && |s.c.mc| == 1
    ensures Lawful(s, i, ExecFlow(s, i))
  {
    hide Fetch16, Peek, Poke, Psw, FromPsw, CondTrue;
    Fetch16Law(s);
  }

  lemma JccLaw(s: Sys, i: Instr)
    requires i.Jcc? && |s.c.mc| == 1
    ensures Lawful(s, i, ExecFlow(s, i))
  {
    hide Fetch16, Peek, Poke, Psw, FromPsw, CondTrue;
    Fetch16Law(s);
  }

  lemma CallLaw(s: Sys, i: Instr)
    requires i.Call? && |s.c.mc| == 1
    ensures Lawful(s, i, ExecFlow(s, i))
  {
    hide Fetch16, Peek, Poke, Psw, FromPsw, CondTrue;
    Fetch16Law(s);
  }

  lemma CccLaw(s: Sys, i: Instr)
    requires i.Ccc? && |s.c.mc| == 1
    ensures Lawful(s, i, ExecFlow(s, i))
  {
    hide Fetch16, Peek, Poke, Psw, FromPsw, CondTrue, Pop16, SetPair, GetPair;
    Fetch16Law(s);
    if !CondTrue(s.c.r.f, i.cc) {
      hide Push16;
    }
  }

  lemma RetLaw(s: Sys, i: Instr)
    requires (i.Ret? || i.Rcc?) && |s.c.mc| == 1
    ensures Lawful(s, i, ExecFlow(s, i))
  {
    hide Peek, Poke, Psw, FromPsw, CondTrue;
  }

  lemma RstLaw(s: Sys, i: Instr)
    requires i.Rst? && |s.c.mc| == 1
    ensures Lawful(s, i, ExecFlow(s, i))
  {
    hide Peek, Poke, Psw, FromPsw, CondTrue;
  }

  lemma CtlLaw(s: Sys, i: Instr)
    requires (!IsMove(i) && !IsAlu(i) && !IsFlow(i)) && |s.c.mc| == 1
    ensures Lawful(s, i, ExecControl(s, i))
  {
    hide Peek, PortIn, PortOut, Psw, FromPsw, CondTrue;
  }

  lemma MoveLaw(s: Sys, i: Instr)
    requires IsMove(i) && |s.c.mc| == 1 && (i.Mov? ==> i.dst != 6 || i.src != 6)
    ensures Lawful(s, i, ExecMove(s, i))
  {
    if i.Lxi? { LxiLaw(s, i); }
    else if i.Sta? { StaLaw(s, i); }
    else if i.Lda? { LdaLaw(s, i); }
    else if i.Shld? { ShldLaw(s, i); }
    else if i.Lhld? { LhldLaw(s, i); }
    else if i.Stax? || i.Ldax? { StaxLaw(s, i); }
    else if i.Mov? { MovLaw(s, i); }
    else if i.Mvi? { MviLaw(s, i); }
    else { InxLaw(s, i); }
  }

  lemma ArithmeticLaw(s: Sys, i: Instr)
    requires IsAlu(i) && |s.c.mc| == 1
    ensures Lawful(s, i, ExecAlu(s, i))
  {
    if i.Dad? || i.Daa? { DadLaw(s, i); }
    else if i.Cma? || i.Stc? || i.Cmc? { FlagLaw(s, i); }
    else if i.Alu? { AluLaw(s, i); }
    else if i.AluImm? { AluImmLaw(s, i); }
    else if i.Inr? { InrLaw(s, i); }
    else if i.Dcr? { DcrLaw(s, i); }
    else { RotLaw(s, i); }
  }

  lemma FlowLaw(s: Sys, i: Instr)
    requires IsFlow(i) && |s.c.mc| == 1
    ensures Lawful(s, i, ExecFlow(s, i))
  {
    if i.Pop? { PopLaw(s, i); }
    else if i.Push? { PushLaw(s, i); }
    else if i.Xthl? { XthlLaw(s, i); }
    else if i.Jmp? || i.Pchl? { JmpLaw(s, i); }
    else if i.Jcc? { JccLaw(s, i); }
    else if i.Call? { CallLaw(s, i); }
    else if i.Ccc? { CccLaw(s, i); }
    else if i.Rst? { RstLaw(s, i); }
    else { RetLaw(s, i); }
  }

  lemma ExecuteLaw(s: Sys, op: byte)
    requires |s.c.mc| == 1
    ensures Lawful(s, Decode(op), Execute(s, Decode(op)))
  {
    var i := Decode(op);
    IsaTables.NoMoveFromMemoryToMemory(op);
    if IsMove(i) { MoveLaw(s, i); }
    else if IsAlu(i) { ArithmeticLaw(s, i); }
    else if IsFlow(i) { FlowLaw(s, i); }
    else { CtlLaw(s, i); }
  }

  // ---------- the board ----------

  /** Nothing but RAM and the journal changes, and a journal with room undoes it. */
  ghost predicate Journalled(w: World, v: World)
  {
    && v == w.(ram := v.ram, journal := v.journal)
    && (w.trial && |w.journal| + 2 <= JOURNAL_SLOTS ==>
          |v.journal| <= |w.journal| + 2 && Undone(v.ram, v.journal) == Undone(w.ram, w.journal))
  }

  /** The system outside a dry run. */
  function Plain(s: Sys): Sys { s.(w := s.w.(trial := false, journal := [])) }

  /** An instruction either writes RAM at most twice or drives one port, and a dry run sees the same. */
  ghost predicate Contained(s: Sys, i: Instr, t: Sys)
  {
    if i.Out? then t.w == PortOut(s.w, Peek(s.w, s.c.pc), s.c.r.a) else Journalled(s.w, t.w)
  }

  lemma OneWrite(w: World, a: word, v: byte)
    ensures Journalled(w, Poke(w, a, v))
  {
    if w.trial && |w.journal| + 2 <= JOURNAL_SLOTS {
      PokeIsUndone(w, a, v);
    }
  }

  lemma TwoWrites(w: World, a: word, v: byte, b: word, u: byte)
    ensures Journalled(w, Poke(Poke(w, a, v), b, u))
  {
    if w.trial && |w.journal| + 2 <= JOURNAL_SLOTS {
      PokeIsUndone(w, a, v);
      PokeIsUndone(Poke(w, a, v), b, u);
    }
  }

  lemma StoreContained(s: Sys, i: Instr)
    requires i.Shld? || i.Sta?
    ensures Contained(s, i, ExecMove(s, i))
  {
    var at := Fetch16(s).1;
    OneWrite(s.w, at, s.c.r.a);
    TwoWrites(s.w, at, s.c.r.l, Inc16(at), s.c.r.h);
  }

  lemma MoveContained(s: Sys, i: Instr)
    requires IsMove(i)
    ensures Contained(s, i, ExecMove(s, i))
  {
    if i.Shld? || i.Sta? {
      StoreContained(s, i);
    } else if i.Stax? {
      OneWrite(s.w, GetPair(s.c.r, i.rp), s.c.r.a);
    } else if i.Mov? {
      OneWrite(s.w, HL(s.c.r), RegGet(s, i.src).1);
    } else if i.Mvi? {
      OneWrite(s.w, HL(s.c.r), Peek(s.w, s.c.pc));
    }
  }

  lemma InrContained(s: Sys, n: Reg)
    ensures Journalled(s.w, AluInr(s, n).w)
  {
    hide AluOp, AluDad, AluDaa, Rotate, SetSzp;
    if n == 6 {
      var v: int := Peek(s.w, HL(s.c.r));
      OneWrite(s.w, HL(s.c.r), (v + 1) % 256);
      assert AluInr(s, n).w == Poke(s.w, HL(s.c.r), (v + 1) % 256);
    } else {
      assert AluInr(s, n).w == s.w;
    }
  }

  lemma DcrContained(s: Sys, n: Reg)
    ensures Journalled(s.w, AluDcr(s, n).w)
  {
    hide AluOp, AluDad, AluDaa, Rotate, SetSzp;
    if n == 6 {
      var v: int := Peek(s.w, HL(s.c.r));
      OneWrite(s.w, HL(s.c.r), (v + 255) % 256);
      assert AluDcr(s, n).w == Poke(s.w, HL(s.c.r), (v + 255) % 256);
    } else {
      assert AluDcr(s, n).w == s.w;
    }
  }

  lemma AluContained(s: Sys, i: Instr)
    requires IsAlu(i)
    ensures Contained(s, i, ExecAlu(s, i))
  {
    hide AluOp, AluDad, AluDaa, Rotate, AluInr, AluDcr, Peek, Undone;
    if i.Inr? {
      InrContained(s, i.dst);
    } else if i.Dcr? {
      DcrContained(s, i.dst);
    } else {
      assert ExecAlu(s, i).w == s.w;
    }
  }

  lemma PushContained(s: Sys, v: word)
    ensures Journalled(s.w, Push16(s, v).w)
  {
    TwoWrites(s.w, Dec16(s.c.r.sp), Hi(v), Dec16(Dec16(s.c.r.sp)), Lo(v));
  }

  lemma FlowContained(s: Sys, i: Instr)
    requires IsFlow(i)
    ensures Contained(s, i, ExecFlow(s, i))
  {
    hide Peek, Poke, CondTrue, Undone;
    var (s1, a) := Fetch16(s);
    PushContained(s1, s1.c.pc);
    PushContained(s, s.c.pc);
    PushContained(Pop16(s).0, HL(s.c.r));
    if i.Push? {
      PushContained(s, if i.rp == 3 then Word(s.c.r.a, Psw(s.c.r.f)) else GetPair(s.c.r, i.rp));
    }
  }

  lemma ExecuteContained(s: Sys, i: Instr)
    ensures Contained(s, i, Execute(s, i))
  {
    if IsMove(i) { MoveContained(s, i); }
    else if IsAlu(i) { AluContained(s, i); }
    else if IsFlow(i) { FlowContained(s, i); }
  }

  // ---------- dry runs see the same ----------

  lemma ReadPlain(s: Sys, a: word, status: byte)
    ensures Read(Plain(s), a, status) == (Plain(Read(s, a, status).0), Read(s, a, status).1)
  {
  }

  lemma WritePlain(s: Sys, a: word, v: byte, status: byte)
    ensures Write(Plain(s), a, v, status) == Plain(Write(s, a, v, status))
  {
  }

  lemma Fetch16Plain(s: Sys)
    ensures Fetch16(Plain(s)) == (Plain(Fetch16(s).0), Fetch16(s).1)
  {
  }

  lemma FetchMovePlain(s: Sys, i: Instr)
    requires i.Lxi? || i.Shld? || i.Lhld? || i.Sta? || i.Lda?
    ensures ExecMove(Plain(s), i) == Plain(ExecMove(s, i))
  {
    hide Fetch16, Read, Write, SetPair;
    Fetch16Plain(s);
    var (s1, a) := Fetch16(s);
    ReadPlain(s1, a, MEMR);
    ReadPlain(Read(s1, a, MEMR).0, Inc16(a), MEMR);
    WritePlain(s1, a, s1.c.r.a, MEMW);
    WritePlain(s1, a, s1.c.r.l, MEMW);
    WritePlain(Write(s1, a, s1.c.r.l, MEMW), Inc16(a), s1.c.r.h, MEMW);
  }

  lemma MovePlain(s: Sys, i: Instr)
    requires IsMove(i)
    ensures ExecMove(Plain(s), i) == Plain(ExecMove(s, i))
  {
    if i.Lxi? || i.Shld? || i.Lhld? || i.Sta? || i.Lda? {
      FetchMovePlain(s, i);
      hide ExecMove;
    } else if i.Mov? || i.Mvi? || i.Stax? || i.Ldax? {
      CopyPlain(s, i);
      hide ExecMove;
    } else {
      hide Fetch16, Fetch8, RegGet, RegSet, Read, Write, SetPair, GetPair;
    }
  }

  lemma CopyPlain(s: Sys, i: Instr)
    requires i.Mov? || i.Mvi? || i.Stax? || i.Ldax?
    ensures ExecMove(Plain(s), i) == Plain(ExecMove(s, i))
  {
    hide Fetch16, Read, Write, SetPair, GetPair, WithReg, RegOf;
    match i
    case Mov(d, n) =>
      ReadPlain(s, HL(s.c.r), MEMR);
      var (s1, v) := RegGet(s, n);
      WritePlain(s1, HL(s1.c.r), v, MEMW);
    case Mvi(d) =>
      ReadPlain(SetPc(s, Inc16(s.c.pc)), s.c.pc, MEMR);
      var (s1, v) := Fetch8(s);
      WritePlain(s1, HL(s1.c.r), v, MEMW);
    case Stax(rp) => WritePlain(s, GetPair(s.c.r, rp), s.c.r.a, MEMW);
    case Ldax(rp) => ReadPlain(s, GetPair(s.c.r, rp), MEMR);
  }

  lemma InrPlain(s: Sys, n: Reg)
    ensures AluInr(Plain(s), n) == Plain(AluInr(s, n))
  {
    hide AluOp, AluDad, AluDaa, Rotate, SetSzp;
  }

  lemma DcrPlain(s: Sys, n: Reg)
    ensures AluDcr(Plain(s), n) == Plain(AluDcr(s, n))
  {
    hide AluOp, AluDad, AluDaa, Rotate, SetSzp;
  }

  lemma CountPlain(s: Sys, i: Instr)
    requires i.Inr? || i.Dcr?
    ensures ExecAlu(Plain(s), i) == Plain(ExecAlu(s, i))
  {
    hide AluInr, AluDcr, AluOp, Rotate;
    InrPlain(s, i.dst);
    DcrPlain(s, i.dst);
  }

  lemma OperandPlain(s: Sys, i: Instr)
    requires i.Alu? || i.AluImm?
    ensures ExecAlu(Plain(s), i) == Plain(ExecAlu(s, i))
  {
    hide AluOp, AluInr, AluDcr, Rotate;
  }

  lemma FlagPlain(s: Sys, i: Instr)
    requires i.Dad? || i.Daa? || i.Cma? || i.Stc? || i.Cmc?
    ensures ExecAlu(Plain(s), i) == Plain(ExecAlu(s, i))
  {
    hide AluOp, AluDad, AluDaa, AluInr, AluDcr, Rotate, RegGet, Fetch8, GetPair;
  }

  lemma RotatePlain(s: Sys, i: Instr)
    requires i.Rlc? || i.Rrc? || i.Ral? || i.Rar?
    ensures ExecAlu(Plain(s), i) == Plain(ExecAlu(s, i))
  {
    hide AluOp, AluDad, AluDaa, AluInr, AluDcr, Rotate, RegGet, Fetch8, GetPair;
  }

  lemma AluPlain(s: Sys, i: Instr)
    requires IsAlu(i)
    ensures ExecAlu(Plain(s), i) == Plain(ExecAlu(s, i))
  {
    hide ExecAlu;
    if i.Inr? || i.Dcr? {
      CountPlain(s, i);
    } else if i.Alu? || i.AluImm? {
      OperandPlain(s, i);
    } else if i.Rlc? || i.Rrc? || i.Ral? || i.Rar? {
      RotatePlain(s, i);
    } else {
      FlagPlain(s, i);
    }
  }

  lemma PushPlain(s: Sys, v: word)
    ensures Push16(Plain(s), v) == Plain(Push16(s, v))
  {
  }

  lemma StackPlain(s: Sys, i: Instr)
    requires i.Pop? || i.Push? || i.Xthl?
    ensures ExecFlow(Plain(s), i) == Plain(ExecFlow(s, i))
  {
    hide Push16, SetPair, GetPair, Psw, FromPsw, Fetch16, CondTrue;
    if i.Push? {
      PushPlain(s, if i.rp == 3 then Word(s.c.r.a, Psw(s.c.r.f)) else GetPair(s.c.r, i.rp));
    } else if i.Xthl? {
      PushPlain(Pop16(s).0, HL(s.c.r));
    }
  }

  lemma CallPlain(s: Sys, i: Instr)
    requires i.Call? || i.Ccc? || i.Rst?
    ensures ExecFlow(Plain(s), i) == Plain(ExecFlow(s, i))
  {
    if i.Rst? {
      PushPlain(s, s.c.pc);
    } else {
      var s1 := Fetch16(s).0;
      assert Fetch16(Plain(s)) == (Plain(s1), Fetch16(s).1);
      PushPlain(s1, s1.c.pc);
    }
  }

  lemma FlowPlain(s: Sys, i: Instr)
    requires IsFlow(i)
    ensures ExecFlow(Plain(s), i) == Plain(ExecFlow(s, i))
  {
    if i.Pop? || i.Push? || i.Xthl? {
      StackPlain(s, i);
    } else if i.Call? || i.Ccc? || i.Rst? {
      CallPlain(s, i);
    }
  }

  lemma ControlPlain(s: Sys, i: Instr)
    requires !IsMove(i) && !IsAlu(i) && !IsFlow(i)
    ensures ExecControl(Plain(s), i) == Plain(ExecControl(s, i))
  {
    hide KeyScan, Latch, Psw, FromPsw, Add32;
  }

  /** Journalling does not change what an instruction does. */
  lemma ExecutePlain(s: Sys, i: Instr)
    ensures Execute(Plain(s), i) == Plain(Execute(s, i))
  {
    hide AluOp, AluDad, AluDaa, Rotate, SetSzp;
    if IsMove(i) { MovePlain(s, i); }
    else if IsAlu(i) { AluPlain(s, i); }
    else if IsFlow(i) { FlowPlain(s, i); }
    else { ControlPlain(s, i); }
  }
}
