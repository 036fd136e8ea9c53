// Running machine code: the steps of the processor while no interrupt is pending, as steps of
// registers, program counter and board alone.
module MachineCode {
  import opened Bits
  import opened Board
  import opened Isa
  import opened Cpu

  datatype Core = Core(r: Regs, pc: word, w: World)

  function CoreOf(s: Sys): Core { Core(s.c.r, s.c.pc, s.w) }

  predicate Quiet(s: Sys) { !s.c.irq.pending && !s.c.irq.halted }

  /** The instructions used below; none touches a port or the interrupt flip-flop. */
  predicate Straight(i: Instr)
  {
    || i.Stax? || i.Ldax? || i.Inx? || i.Stc? || i.Ret? || i.Rcc? || i.Call? || i.Jcc? || i.Alu? || i.Mov?
    || ((i.Mvi? || i.Dcr?) && i.dst != 6) || (i.Pop? && i.rp != 3)
  }

  function Operand(k: Core, n: Reg): byte { if n == 6 then Peek(k.w, HL(k.r)) else RegOf(k.r, n) }

  function Word16(w: World, a: word): word { Word(Peek(w, Inc16(a)), Peek(w, a)) }

  function Pushed(w: World, sp: word, v: word): World
  {
    Poke(Poke(w, Dec16(sp), Hi(v)), Dec16(Dec16(sp)), Lo(v))
  }

  function Returned(k: Core): Core
  {
    Core(k.r.(sp := Inc16(Inc16(k.r.sp))), Word16(k.w, k.r.sp), k.w)
  }

  /** One instruction, with the program counter just past its opcode. */
  function Does(k: Core, i: Instr): Core
    requires Straight(i)
  {
    match i
    case Mov(d, n) =>
      var v := Operand(k, n);
      if d == 6 then k.(w := Poke(k.w, HL(k.r), v)) else k.(r := WithReg(k.r, d, v))
    case Mvi(d) => k.(r := WithReg(k.r, d, Peek(k.w, k.pc)), pc := Inc16(k.pc))
    case Stax(rp) => k.(w := Poke(k.w, GetPair(k.r, rp), k.r.a))
    case Ldax(rp) => k.(r := k.r.(a := Peek(k.w, GetPair(k.r, rp))))
    case Inx(rp) => k.(r := SetPair(k.r, rp, Inc16(GetPair(k.r, rp))))
    case Stc => k.(r := k.r.(f := k.r.f.(cy := true)))
    case Alu(op, n) => k.(r := AluOp(k.r, op, Operand(k, n)))
    case Dcr(d) =>
      var res := (RegOf(k.r, d) + 255) % 256;
      k.(r := WithReg(k.r.(f := DecFlags(k.r.f, res)), d, res))
    case Pop(rp) => k.(r := SetPair(k.r.(sp := Inc16(Inc16(k.r.sp))), rp, Word16(k.w, k.r.sp)))
    case Jcc(cc) => k.(pc := if CondTrue(k.r.f, cc) then Word16(k.w, k.pc) else Inc16(Inc16(k.pc)))
    case Call =>
      Core(k.r.(sp := Dec16(Dec16(k.r.sp))), Word16(k.w, k.pc), Pushed(k.w, k.r.sp, Inc16(Inc16(k.pc))))
    case Rcc(cc) => if CondTrue(k.r.f, cc) then Returned(k) else k
    case _ => Returned(k)
  }

  function At(k: Core): Instr { Decode(Peek(k.w, k.pc)) }

  function Next(k: Core): Core
    requires Straight(At(k))
  {
    Does(k.(pc := Inc16(k.pc)), At(k))
  }

  /** `k` becomes `t` in exactly `n` instructions. */
  predicate Leads(k: Core, n: nat, t: Core)
    decreases n
  {
    hide Straight, At, Next;
    if n == 0 then k == t else Straight(At(k)) && Leads(Next(k), n - 1, t)
  }

  function Steps(s: Sys, n: nat): Sys
    decreases n
  {
    hide Step;
    if n == 0 then s else Steps(Step(s), n - 1)
  }

  // ---------- the connection with the processor ----------

  lemma MovDoes(s: Sys, i: Instr)
    requires i.Mov?
    ensures CoreOf(ExecMove(s, i)) == Does(CoreOf(s), i) && ExecMove(s, i).c.irq == s.c.irq
  {
    hide Peek, Poke, RegOf, WithReg, GetPair, SetPair, Fetch8, Fetch16;
  }

  lemma LoadDoes(s: Sys, i: Instr)
    requires i.Stax? || i.Ldax? || i.Inx? || (i.Mvi? && i.dst != 6)
    ensures CoreOf(ExecMove(s, i)) == Does(CoreOf(s), i) && ExecMove(s, i).c.irq == s.c.irq
  {
    hide Peek, Poke, RegOf, WithReg, GetPair, SetPair, Fetch16;
  }

  lemma MoveDoes(s: Sys, i: Instr)
    requires Straight(i) && IsMove(i)
    ensures CoreOf(Execute(s, i)) == Does(CoreOf(s), i) && Execute(s, i).c.irq == s.c.irq
  {
    hide ExecMove, ExecAlu, ExecFlow, ExecControl, Does;
    if i.Mov? {
      MovDoes(s, i);
    } else {
      LoadDoes(s, i);
    }
  }

  lemma CountDoes(s: Sys, i: Instr)
    requires i.Dcr? && i.dst != 6
    ensures CoreOf(ExecAlu(s, i)) == Does(CoreOf(s), i) && ExecAlu(s, i).c.irq == s.c.irq
  {
    hide Peek, AluOp, DecFlags, RegOf, WithReg, AluInr, Rotate, AluDaa, AluDad;
  }

  lemma OperandDoes(s: Sys, i: Instr)
    requires i.Alu? || i.Stc?
    ensures CoreOf(ExecAlu(s, i)) == Does(CoreOf(s), i) && ExecAlu(s, i).c.irq == s.c.irq
  {
    hide Peek, AluOp, DecFlags, RegOf, AluInr, AluDcr, Rotate, AluDaa, AluDad;
  }

  lemma AluDoes(s: Sys, i: Instr)
    requires Straight(i) && IsAlu(i)
    ensures CoreOf(Execute(s, i)) == Does(CoreOf(s), i) && Execute(s, i).c.irq == s.c.irq
  {
    hide ExecMove, ExecAlu, ExecFlow, ExecControl, Does;
    if i.Dcr? {
      CountDoes(s, i);
    } else {
      OperandDoes(s, i);
    }
  }

  lemma CallDoes(s: Sys, i: Instr)
    requires i.Call?
    ensures CoreOf(ExecFlow(s, i)) == Does(CoreOf(s), i) && ExecFlow(s, i).c.irq == s.c.irq
  {
    hide Peek, Poke, SetPair, GetPair, CondTrue, Psw, FromPsw, Pop16;
  }

  lemma JumpDoes(s: Sys, i: Instr)
    requires i.Jcc?
    ensures CoreOf(ExecFlow(s, i)) == Does(CoreOf(s), i) && ExecFlow(s, i).c.irq == s.c.irq
  {
    hide Peek, Poke, SetPair, GetPair, CondTrue, Psw, FromPsw, Pop16, Push16;
  }

  lemma PopDoes(s: Sys, i: Instr)
    requires (i.Pop? && i.rp != 3) || i.Ret? || i.Rcc?
    ensures CoreOf(ExecFlow(s, i)) == Does(CoreOf(s), i) && ExecFlow(s, i).c.irq == s.c.irq
  {
    hide Peek, Poke, SetPair, GetPair, CondTrue, Psw, FromPsw, Push16, Fetch16;
  }

  lemma FlowDoes(s: Sys, i: Instr)
    requires Straight(i) && IsFlow(i)
    ensures CoreOf(Execute(s, i)) == Does(CoreOf(s), i) && Execute(s, i).c.irq == s.c.irq
  {
    hide ExecMove, ExecAlu, ExecFlow, ExecControl, Does;
    if i.Call? {
      CallDoes(s, i);
    } else if i.Jcc? {
      JumpDoes(s, i);
    } else {
      PopDoes(s, i);
    }
  }

  /** With nothing pending, a step of the processor is a step of the core. */
  lemma StepIsNext(s: Sys)
    requires Quiet(s) && Straight(At(CoreOf(s)))
    ensures Quiet(Step(s)) && CoreOf(Step(s)) == Next(CoreOf(s))
  {
    hide Decode, Execute, Does, Peek, Cost;
    var i := At(CoreOf(s));
    var s1 := Fetched(s).0;
    if IsMove(i) {
      MoveDoes(s1, i);
    } else if IsAlu(i) {
      AluDoes(s1, i);
    } else {
      FlowDoes(s1, i);
    }
  }

  lemma {:induction false} StepsFollow(s: Sys, n: nat, t: Core)
    requires Quiet(s) && Leads(CoreOf(s), n, t)
    ensures Quiet(Steps(s, n)) && CoreOf(Steps(s, n)) == t
    decreases n
  {
    hide Step, Next, Straight;
    if n > 0 {
      StepIsNext(s);
      StepsFollow(Step(s), n - 1, t);
    }
  }

  // ---------- composing runs ----------

  lemma {:induction false} Then(k: Core, m: nat, t: Core, n: nat, u: Core)
    requires Leads(k, m, t) && Leads(t, n, u)
    ensures Leads(k, m + n, u)
    decreases m
  {
    hide Next, Straight;
    if m > 0 {
      Then(Next(k), m - 1, t, n, u);
    }
  }

  /** One instruction more. */
  lemma Go(k: Core, m: nat, t: Core, i: Instr) returns (u: Core)
    requires Leads(k, m, t) && At(t) == i && Straight(i)
    ensures u == Does(t.(pc := Inc16(t.pc)), i) && Leads(k, m + 1, u)
  {
    u := Next(t);
    hide Next;
    assert Leads(u, 0, u);
    assert Leads(t, 1, u);
    Then(k, m, t, 1, u);
  }

  // ---------- one instruction more, by kind ----------

  lemma GoMov(k: Core, m: nat, t: Core, d: Reg, n: Reg) returns (u: Core)
    requires Leads(k, m, t) && At(t) == Mov(d, n) && d != 6 && n != 6
    ensures u == t.(pc := Inc16(t.pc), r := WithReg(t.r, d, RegOf(t.r, n))) && Leads(k, m + 1, u)
  {
    hide Leads, WithReg, RegOf, At;
    u := Go(k, m, t, Mov(d, n));
  }

  lemma GoAlu(k: Core, m: nat, t: Core, op: Reg, n: Reg) returns (u: Core)
    requires Leads(k, m, t) && At(t) == Alu(op, n)
    ensures u == t.(pc := Inc16(t.pc), r := AluOp(t.r, op, Operand(t, n))) && Leads(k, m + 1, u)
  {
    hide Leads, AluOp, At;
    u := Go(k, m, t, Alu(op, n));
  }

  lemma GoRet(k: Core, m: nat, t: Core) returns (u: Core)
    requires Leads(k, m, t) && At(t) == Ret
    ensures u == Returned(t) && Leads(k, m + 1, u)
  {
    hide Leads, At;
    u := Go(k, m, t, Ret);
  }

  lemma GoInx(k: Core, m: nat, t: Core, rp: Pair) returns (u: Core)
    requires Leads(k, m, t) && At(t) == Inx(rp)
    ensures u == t.(pc := Inc16(t.pc), r := SetPair(t.r, rp, Inc16(GetPair(t.r, rp)))) && Leads(k, m + 1, u)
  {
    hide Leads, SetPair, GetPair, At;
    u := Go(k, m, t, Inx(rp));
  }

  lemma GoStc(k: Core, m: nat, t: Core) returns (u: Core)
    requires Leads(k, m, t) && At(t) == Stc
    ensures u == t.(pc := Inc16(t.pc), r := t.r.(f := t.r.f.(cy := true))) && Leads(k, m + 1, u)
  {
    hide Leads, At;
    u := Go(k, m, t, Stc);
  }

  lemma GoRcc(k: Core, m: nat, t: Core, cc: Cond) returns (u: Core)
    requires Leads(k, m, t) && At(t) == Rcc(cc)
    ensures u == if CondTrue(t.r.f, cc) then Returned(t) else t.(pc := Inc16(t.pc))
    ensures Leads(k, m + 1, u)
  {
    hide Leads, At, CondTrue;
    u := Go(k, m, t, Rcc(cc));
  }

  /** Past an opcode and two operand bytes. */
  lemma Past(pc: word)
    ensures Inc16(pc) == Plus16(pc, 1) && Inc16(Inc16(Inc16(pc))) == Plus16(pc, 3)
  {
    IncPlus(pc, 0);
    IncPlus(Inc16(pc), 0);
    IncPlus(pc, 1);
    IncPlus(Inc16(Inc16(pc)), 0);
    IncPlus(Inc16(pc), 1);
    IncPlus(pc, 2);
    hide Inc16;
  }

  lemma GoCall(k: Core, m: nat, t: Core) returns (u: Core)
    requires Leads(k, m, t) && At(t) == Call
    ensures var to := Word16(t.w, Plus16(t.pc, 1));
            u == Core(t.r.(sp := Dec16(Dec16(t.r.sp))), to, Pushed(t.w, t.r.sp, Plus16(t.pc, 3)))
    ensures Leads(k, m + 1, u)
  {
    hide Leads, At, Word16, Pushed, Inc16, Plus16, Dec16;
    Past(t.pc);
    u := Go(k, m, t, Call);
  }

  lemma GoJcc(k: Core, m: nat, t: Core, cc: Cond) returns (u: Core)
    requires Leads(k, m, t) && At(t) == Jcc(cc)
    ensures u == t.(pc := if CondTrue(t.r.f, cc) then Word16(t.w, Plus16(t.pc, 1)) else Plus16(t.pc, 3))
    ensures Leads(k, m + 1, u)
  {
    hide Leads, At, Word16, CondTrue, Inc16, Plus16;
    Past(t.pc);
    u := Go(k, m, t, Jcc(cc));
  }

  lemma PushedReads(w: World, sp: word, v: word)
    requires IsRam(Dec16(sp)) && IsRam(Dec16(Dec16(sp)))
    ensures Word16(Pushed(w, sp, v), Dec16(Dec16(sp))) == v && Pushed(w, sp, v).rom == w.rom
  {
  }

  lemma GoStore(k: Core, m: nat, t: Core, n: Reg) returns (u: Core)
    requires Leads(k, m, t) && At(t) == Mov(6, n) && n != 6
    ensures u == t.(pc := Inc16(t.pc), w := Poke(t.w, HL(t.r), RegOf(t.r, n))) && Leads(k, m + 1, u)
  {
    hide Leads, RegOf, At, Poke;
    u := Go(k, m, t, Mov(6, n));
  }

  lemma GoLoad(k: Core, m: nat, t: Core, d: Reg) returns (u: Core)
    requires Leads(k, m, t) && At(t) == Mov(d, 6) && d != 6
    ensures u == t.(pc := Inc16(t.pc), r := WithReg(t.r, d, Peek(t.w, HL(t.r)))) && Leads(k, m + 1, u)
  {
    hide Leads, WithReg, At, Peek;
    u := Go(k, m, t, Mov(d, 6));
  }

  lemma GoStax(k: Core, m: nat, t: Core, rp: Pair) returns (u: Core)
    requires Leads(k, m, t) && At(t) == Stax(rp)
    ensures u == t.(pc := Inc16(t.pc), w := Poke(t.w, GetPair(t.r, rp), t.r.a)) && Leads(k, m + 1, u)
  {
    hide Leads, GetPair, At, Poke;
    u := Go(k, m, t, Stax(rp));
  }

  lemma GoMvi(k: Core, m: nat, t: Core, d: Reg) returns (u: Core)
    requires Leads(k, m, t) && At(t) == Mvi(d) && d != 6
    ensures u == t.(pc := Plus16(t.pc, 2), r := WithReg(t.r, d, Peek(t.w, Plus16(t.pc, 1)))) && Leads(k, m + 1, u)
  {
    hide Leads, WithReg, At, Peek;
    u := Go(k, m, t, Mvi(d));
  }

  lemma GoLdax(k: Core, m: nat, t: Core, rp: Pair) returns (u: Core)
    requires Leads(k, m, t) && At(t) == Ldax(rp)
    ensures u == t.(pc := Inc16(t.pc), r := t.r.(a := Peek(t.w, GetPair(t.r, rp)))) && Leads(k, m + 1, u)
  {
    hide Leads, GetPair, At, Peek;
    u := Go(k, m, t, Ldax(rp));
  }

  lemma GoPop(k: Core, m: nat, t: Core, rp: Pair) returns (u: Core)
    requires Leads(k, m, t) && At(t) == Pop(rp) && rp != 3
    ensures u == t.(pc := Inc16(t.pc), r := SetPair(t.r.(sp := Plus16(t.r.sp, 2)), rp, Word16(t.w, t.r.sp)))
    ensures Leads(k, m + 1, u)
  {
    hide Leads, SetPair, At, Word16;
    u := Go(k, m, t, Pop(rp));
  }

  lemma GoDcr(k: Core, m: nat, t: Core, d: Reg) returns (u: Core)
    requires Leads(k, m, t) && At(t) == Dcr(d) && d != 6
    ensures Leads(k, m + 1, u)
    ensures var res := (RegOf(t.r, d) + 255) % 256;
            u == t.(pc := Inc16(t.pc), r := WithReg(t.r.(f := u.r.f), d, res)) && (u.r.f.z <==> res == 0)
  {
    hide Leads, RegOf, At;
    u := Go(k, m, t, Dcr(d));
  }
}
