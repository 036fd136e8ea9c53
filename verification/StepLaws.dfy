// One i8080_step: its machine cycles against its T states, the length table against the bytes
// really fetched, and the interrupt protocol over whole runs.
module StepLaws {
  import opened Bits
  import opened Board
  import opened Isa
  import opened Cpu
  import opened CpuLaws
  import IsaTables

  /** The system as `execute` finds it. */
  function Entered(s: Sys): Sys
    requires Executes(s)
  {
    if Accepts(s.c) then Acknowledged(s) else Fetched(s).0
  }

  lemma EnteredLaw(s: Sys)
    requires Executes(s)
    ensures |Entered(s).c.mc| == 1 && Entered(s).w == s.w && Entered(s).c.r == s.c.r
    ensures Entered(s).c.cycles == s.c.cycles
    ensures Entered(s).c.pc == if Accepts(s.c) then s.c.pc else Inc16(s.c.pc)
    ensures var t := Execute(Entered(s), Decode(Opcode(s)));
            && Step(s).c.mc == t.c.mc && Step(s).c.r == t.c.r && Step(s).c.pc == t.c.pc && Step(s).w == t.w
            && Step(s).c.cycles == t.c.cycles + Cost(s.c.r.f, Opcode(s))
            && Step(s).c.irq == (if Accepts(s.c) then t.c else Grace(s.c.irq.delay, t.c)).irq
  {
  }

  /** What the first machine cycle of a step is. */
  function FirstCycle(s: Sys): Mc
  {
    if Accepts(s.c) then Mc(if s.c.irq.halted then INTA_HALT else INTA, s.c.pc, s.c.irq.vector)
    else if s.c.irq.halted then Mc(HALTA, s.c.pc, 0)
    else Mc(FETCH, s.c.pc, Peek(s.w, s.c.pc))
  }

  /** Four T states for the fetch, three for every other cycle, and what the instruction idles besides. */
  lemma CostFits(f: Flags, op: byte)
    ensures var n := McCount(f, Decode(op));
            1 <= n <= 5 && Cost(f, op) == 3 * n + 1 + Idle(Decode(op)) && 4 <= Cost(f, op) <= 18
  {
    IsaTables.TablesAgree(op);
  }

  /** Trace and timing agree: a step logs 1 to 5 cycles, so no slot overflows, and its T states are theirs. */
  lemma TraceMatchesTime(s: Sys)
    ensures var n := |Step(s).c.mc|;
            var cost := Step(s).c.cycles - s.c.cycles;
            && 1 <= n <= 5
            && Step(s).c.mc[0] == FirstCycle(s)
            && cost == 3 * n + 1 + (if Executes(s) then Idle(Decode(Opcode(s))) else 0)
            && 4 <= cost <= 18
            && (Executes(s) ==> n == McCount(s.c.r.f, Decode(Opcode(s))))
  {
    if Executes(s) {
      EnteredLaw(s);
      ExecuteLaw(Entered(s), Opcode(s));
      CostFits(s.c.r.f, Opcode(s));
      assert Entered(s).c.mc[0] == FirstCycle(s);
    }
  }

  /** The address `k` bytes into the instruction; INTA does not move PC over the opcode. */
  function At(s: Sys, k: nat): word
  {
    if !Accepts(s.c) then Plus16(s.c.pc, k) else if k == 0 then s.c.pc else Plus16(s.c.pc, k - 1)
  }

  lemma AtEntered(s: Sys, k: nat)
    requires Executes(s)
    ensures Plus16(Entered(s).c.pc, k) == At(s, k + 1)
  {
    EnteredLaw(s);
    IncPlus(s.c.pc, k);
  }

  /** The operand bytes that LENGTHS announces are the ones fetched, one after another from PC. */
  lemma LengthIsFetched(s: Sys)
    requires Executes(s)
    ensures var t := Step(s);
            var n := Length(Opcode(s));
            && 1 <= n <= |t.c.mc|
            && forall k :: 1 <= k < n ==> t.c.mc[k] == Mc(MEMR, At(s, k), Peek(s.w, At(s, k)))
  {
    hide Step, Execute, Entered, Decode, Cycles, Length, Cost, Accepts, InterruptKept, Sequenced;
    var e := Entered(s);
    var i := Decode(Opcode(s));
    EnteredLaw(s);
    ExecuteLaw(e, Opcode(s));
    IsaTables.TablesAgree(Opcode(s));
    forall k | 1 <= k <= OperandBytes(i)
      ensures Step(s).c.mc[k] == Mc(MEMR, At(s, k), Peek(s.w, At(s, k)))
    {
      AtEntered(s, k - 1);
      assert Operands(e, i, Execute(e, i));
    }
  }

  /** Execution falls through to the address after them, and calls and restarts push that address. */
  lemma LengthIsReturnAddress(s: Sys)
    requires Executes(s)
    ensures var t := Step(s);
            var i := Decode(Opcode(s));
            var n := Length(Opcode(s));
            var next := At(s, n);
            && (!Jumps(s.c.r.f, i) ==> t.c.pc == next)
            && (Pushes(s.c.r.f, i) ==>
                  && |t.c.mc| == n + 2
                  && t.c.mc[n] == Mc(STACKW, Dec16(s.c.r.sp), Hi(next))
                  && t.c.mc[n + 1] == Mc(STACKW, Dec16(Dec16(s.c.r.sp)), Lo(next)))
  {
    var e := Entered(s);
    var i := Decode(Opcode(s));
    EnteredLaw(s);
    ExecuteLaw(e, Opcode(s));
    IsaTables.TablesAgree(Opcode(s));
    AtEntered(s, OperandBytes(i));
    assert Sequenced(e, i, Execute(e, i));
  }

  /** A restart jammed during INTA pushes the PC it interrupted. */
  lemma JammedRestart(s: Sys)
    requires Accepts(s.c) && Decode(s.c.irq.vector).Rst?
    ensures var t := Step(s);
            && t.c.pc == 8 * Decode(s.c.irq.vector).n
            && t.c.mc[1..] == [Mc(STACKW, Dec16(s.c.r.sp), Hi(s.c.pc)),
                               Mc(STACKW, Dec16(Dec16(s.c.r.sp)), Lo(s.c.pc))]
  {
    EnteredLaw(s);
    ExecuteLaw(Entered(s), s.c.irq.vector);
    assert Entered(s).c.pc == s.c.pc;
  }

  // ---------- interrupt protocol ----------

  ghost predicate IrqSound(q: Irq)
  {
    && q.delay <= 1
    && (q.delay == 1 ==> q.inte)
    && (q.halted ==> q.delay == 0)
  }

  predicate RunsEi(s: Sys) { Executes(s) && Decode(Opcode(s)).Ei? }

  predicate RunsDi(s: Sys) { Executes(s) && Decode(Opcode(s)).Di? }

  /** What a step does to the interrupt state, whatever the instruction. */
  lemma StepIrq(s: Sys)
    requires IrqSound(s.c.irq)
    ensures IrqSound(Step(s).c.irq)
    ensures Step(s).c.irq.pending == (s.c.irq.pending && !Accepts(s.c))
    ensures Step(s).c.irq.inte ==
            if RunsEi(s) then true else if RunsDi(s) || Accepts(s.c) then false else s.c.irq.inte
    ensures Step(s).c.irq.delay == AsInt(RunsEi(s) && s.c.irq.delay == 0)
    ensures Step(s).c.irq.halted == (Executes(s) ==> Decode(Opcode(s)).Hlt?)
    ensures Step(s).c.irq.vector == s.c.irq.vector
  {
    hide Decode, Execute, Cost;
    if Executes(s) {
      EnteredLaw(s);
      ExecuteLaw(Entered(s), Opcode(s));
    }
  }

  /** While halted, and with no interrupt to take, a step only waits: one halt cycle of four T states. */
  lemma HaltedWaits(s: Sys)
    requires !Executes(s)
    ensures Step(s) == s.(c := s.c.(cycles := s.c.cycles + 4, mc := [Mc(0x8A, s.c.pc, 0)]))
  {
  }

  /**
   * A request is served with its own vector, put on the bus in the INTA cycle at the interrupted PC; the
   * latest one counts. Vector FFH is RST 7: it pushes PC and goes on at 38H.
   */
  lemma RequestIsServed(s: Sys, v: byte)
    requires s.c.irq.inte && s.c.irq.delay == 0
    ensures var u := s.(c := Request(s.c, v));
            var t := Step(u);
            && Executes(u) && Opcode(u) == v
            && t.c.mc != [] && t.c.mc[0] == Mc(if s.c.irq.halted then 0x2B else 0x23, s.c.pc, v)
            && (v == 0xFF ==>
                  && t.c.pc == 0x38
                  && t.c.mc[1..] == [Mc(0x04, Dec16(s.c.r.sp), Hi(s.c.pc)),
                                     Mc(0x04, Dec16(Dec16(s.c.r.sp)), Lo(s.c.pc))])
  {
    hide Step, Decode;
    var u := s.(c := Request(s.c, v));
    TraceMatchesTime(u);
    if v == 0xFF {
      SevenRestarts();
      JammedRestart(u);
    }
  }

  lemma SevenRestarts()
    ensures Decode(0xFF) == Rst(7)
  {
  }

  /** What drives a processor from outside between two steps. */
  datatype Event = Clock | Ask(vector: byte)

  function React(s: Sys, e: Event): Sys
  {
    match e
    case Clock => Step(s)
    case Ask(v) => s.(c := Request(s.c, v))
  }

  function Drive(s: Sys, es: seq<Event>): Sys
  {
    if es == [] then s else React(Drive(s, es[..|es| - 1]), es[|es| - 1])
  }

  /** Requests made, interrupts accepted and EIs executed along a run. */
  datatype Tally = Tally(asked: nat, accepted: nat, eis: nat)

  function Count(s: Sys, es: seq<Event>): Tally
  {
    if es == [] then Tally(0, 0, 0)
    else
      var n := Count(s, es[..|es| - 1]);
      var t := Drive(s, es[..|es| - 1]);
      match es[|es| - 1]
      case Ask(_) => n.(asked := n.asked + 1)
      case Clock => n.(accepted := n.accepted + AsInt(Accepts(t.c)), eis := n.eis + AsInt(RunsEi(t)))
  }

  /** Over every run from reset: a sound state, and no interrupt without its own request and its own EI. */
  lemma {:induction false} InterruptBudget(s: Sys, es: seq<Event>)
    requires s.c == RESET
    ensures IrqSound(Drive(s, es).c.irq)
    ensures var n := Count(s, es);
            var q := Drive(s, es).c.irq;
            n.accepted + AsInt(q.pending) <= n.asked && n.accepted + AsInt(q.inte) <= n.eis
  {
    if es != [] {
      var t := Drive(s, es[..|es| - 1]);
      InterruptBudget(s, es[..|es| - 1]);
      StepIrq(t);
    }
  }

  /** With INTE set a request is accepted now, or one step later unless that step is a DI. */
  lemma RequestIsTaken(s: Sys)
    requires IrqSound(s.c.irq) && s.c.irq.pending && s.c.irq.inte
    ensures Accepts(s.c) || RunsDi(s) || Accepts(Step(s).c)
    ensures s.c.irq.halted ==> Accepts(s.c)
  {
    StepIrq(s);
  }

  /** After an EI that found no grace pending, one more instruction runs before any interrupt. */
  lemma GraceInstruction(s: Sys)
    requires IrqSound(s.c.irq) && RunsEi(s)
    ensures s.c.irq.delay == 0 ==> !Accepts(Step(s).c) && Executes(Step(s))
    ensures s.c.irq.delay == 1 && s.c.irq.pending ==> Accepts(Step(s).c)
  {
    StepIrq(s);
  }
}
