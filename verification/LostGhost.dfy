// A machine on which a ghost is lost: three instructions that take a segment away from the digit on
// display, then the digit itself, and halt.
module LostGhost {
  import opened Bits
  import opened BitLaws
  import opened Board
  import opened Isa
  import opened Cpu
  import opened Machine
  import opened MachineLaws
  import opened DisplayLaws
  import opened RunLaws
  import opened Ghosts
  import D = Display

  /** OUT to port B, OUT to port A and HLT come next, with segment k of digit p lit and A without either. */
  ghost predicate AtCode(s: Sys, p: nat, k: nat)
    requires p < D.DIGITS
  {
    && !s.c.irq.pending && !s.c.irq.halted
    && Peek(s.w, s.c.pc) == 0xD3 && Peek(s.w, Plus16(s.c.pc, 1)) == PORT_B
    && Peek(s.w, Plus16(s.c.pc, 2)) == 0xD3 && Peek(s.w, Plus16(s.c.pc, 3)) == PORT_A
    && Peek(s.w, Plus16(s.c.pc, 4)) == 0x76
    && s.w.ppi.aIsOut && s.w.ppi.bIsOut
    && Lit(s.w.screen.bit0IsLeft, s.w.ppi.outA, s.w.ppi.outB, p, k)
    && !D.Selected(s.w.screen.bit0IsLeft, s.c.r.a, p) && !BitAt(s.c.r.a, k)
  }

  // ---------- the three instructions ----------

  lemma Opcodes()
    ensures Decode(0xD3) == Out && Decode(0x76) == Hlt && Cycles(0x76) == 7
  {
  }

  /** The processor's side of an OUT. */
  lemma OutCpu(s: Sys)
    requires !s.c.irq.pending && !s.c.irq.halted && Peek(s.w, s.c.pc) == 0xD3
    ensures Drives(s) && OutPort(s) == Peek(s.w, Plus16(s.c.pc, 1))
    ensures var t := Step(s);
            t.c.r == s.c.r && t.c.pc == Plus16(s.c.pc, 2) && !t.c.irq.pending && !t.c.irq.halted
  {
    hide Decode, PortOut, Peek, Cycles, ExecMove, ExecAlu, ExecFlow, CondTrue;
    Opcodes();
  }

  lemma HltCpu(s: Sys)
    requires !s.c.irq.pending && !s.c.irq.halted && Peek(s.w, s.c.pc) == 0x76
    ensures !Drives(s) && Step(s).c.irq.halted && !Step(s).c.irq.pending && Step(s).c.cycles == s.c.cycles + 7
  {
    hide Decode, PortOut, Peek, Cycles, ExecMove, ExecAlu, ExecFlow, CondTrue;
    Opcodes();
  }

  lemma SameMemory(w: World, port: byte, v: byte, x: word)
    ensures Peek(PortOut(w, port, v), x) == Peek(w, x) && PortOut(w, port, v).ppi == Latch(w.ppi, port, v)
  {
    hide D.Advance, WriteControl;
  }

  lemma OutStep(s: Sys)
    requires !s.c.irq.pending && !s.c.irq.halted && Peek(s.w, s.c.pc) == 0xD3
    ensures Drives(s) && OutPort(s) == Peek(s.w, Plus16(s.c.pc, 1))
    ensures var t := ExecOne(s);
            && t.c.r == s.c.r && t.c.pc == Plus16(s.c.pc, 2) && !t.c.irq.pending && !t.c.irq.halted
            && t.w.ppi == Latch(s.w.ppi, OutPort(s), s.c.r.a)
            && forall x: word :: Peek(t.w, x) == Peek(s.w, x)
  {
    hide Step, Drives, OutPort, PortOut, Latch, D.Advance, Peek;
    var u := s.(w := s.w.(start := s.c.cycles));
    Started(s);
    OutCpu(u);
    StepContained(u);
    forall x: word ensures Peek(ExecOne(s).w, x) == Peek(s.w, x) {
      SameMemory(u.w, OutPort(u), s.c.r.a, x);
      Unseen(s.w, s.c.cycles, x);
      Unseen(Step(u).w, 0, x);
    }
    SameMemory(u.w, OutPort(u), s.c.r.a, 0);
  }

  /** Neither the start time nor the display is read by an instruction. */
  lemma Unseen(w: World, start: nat, x: word)
    ensures Peek(w.(start := start), x) == Peek(w, x)
    ensures forall to :: Peek(Integrate(w, to), x) == Peek(w, x)
  {
    hide D.Advance;
  }

  lemma Started(s: Sys)
    requires !s.c.irq.pending && !s.c.irq.halted
    ensures var u := s.(w := s.w.(start := s.c.cycles));
            && Peek(u.w, s.c.pc) == Peek(s.w, s.c.pc) && Peek(u.w, Plus16(s.c.pc, 1)) == Peek(s.w, Plus16(s.c.pc, 1))
            && (Drives(u) <==> Drives(s)) && (Drives(s) ==> OutPort(u) == OutPort(s))
  {
    hide Decode;
  }

  lemma HltStep(s: Sys)
    requires !s.c.irq.pending && !s.c.irq.halted && Peek(s.w, s.c.pc) == 0x76
    ensures !Drives(s)
    ensures var t := ExecOne(s);
            && t.c.irq.halted && !t.c.irq.pending && t.w.ppi == s.w.ppi && t.c.cycles == s.c.cycles + 7
  {
    hide Step, Drives, OutPort, PortOut, D.Advance, Peek;
    var u := s.(w := s.w.(start := s.c.cycles));
    Started(s);
    HltCpu(u);
    StepContained(u);
  }

  // ---------- what they do to the display ----------

  function Units(on: bool, t: nat): nat { if on then 256 * t else 0 }

  /** An OUT to a display port with no decay step due: seven T states under the old ports, three under the new. */
  lemma OutCharges(s: Sys, tau: u32, left: bool, p: nat, k: nat)
    requires Live(s, tau, left) && Fits(tau, 18) && Splits(s) && p < D.DIGITS && k < D.SEGMENTS
    requires s.w.screen.decayAcc + 10 < D.StepSize(tau)
    ensures var (d, e) := (s.w.screen, ExecOne(s).w.screen);
            var (u, v) := (PortsAt(s, 0), PortsAt(s, OUT_WRITE_OFFSET));
            && e.decayAcc == d.decayAcc + 10
            && Energy(e, p, k) == Energy(d, p, k) + Units(Lit(left, u.outA, u.outB, p, k), 7)
                                                  + Units(Lit(left, v.outA, v.outB, p, k), 3)
            && e.energyDigit[p] == d.energyDigit[p] + Units(D.Selected(left, u.outA, p), 7)
                                                    + Units(D.Selected(left, v.outA, p), 3)
  {
    hide Fits, BitAt, Drives, OutPort, Splits, PortsAt, D.Advance, D.Selected, D.StepSize, ExecOne, Sound;
    var d, now := s.w.screen, s.c.cycles;
    var u, v := PortsAt(s, 0), PortsAt(s, OUT_WRITE_OFFSET);
    StepIsNormal(s, tau, left);
    ChargeAdds(d, now + 7, u.outA, u.outB, p, k);
    NoDecay(d, now + 7, u.outA, u.outB, p, k);
    var e := D.Advance(d, now + 7, u.outA, u.outB);
    ChargeAdds(e, now + 10, v.outA, v.outB, p, k);
    NoDecay(e, now + 10, v.outA, v.outB, p, k);
  }

  lemma OutSplits(s: Sys)
    requires Drives(s) && (OutPort(s) == PORT_A || OutPort(s) == PORT_B)
    ensures Splits(s) && PortsAt(s, 0) == s.w.ppi
    ensures PortsAt(s, OUT_WRITE_OFFSET) == Latch(s.w.ppi, OutPort(s), s.c.r.a)
  {
  }

  lemma StartsCleared(s: Sys, p: nat, k: nat)
    requires JustCleared(s) && p < D.DIGITS && k < D.SEGMENTS
    ensures s.w.screen.decayAcc == 0 && Energy(s.w.screen, p, k) == 0 && s.w.screen.energyDigit[p] == 0
  {
  }

  /** After the first OUT the digit is on without the segment, and the second comes next. */
  lemma FirstOut(s: Sys, p: nat, k: nat)
    requires JustCleared(s) && Fits(s.w.screen.tau, 18) && 20 < D.StepSize(s.w.screen.tau)
    requires p < D.DIGITS && k < D.SEGMENTS && AtCode(s, p, k)
    ensures var u := ExecOne(s);
            var left := s.w.screen.bit0IsLeft;
            && Live(u, s.w.screen.tau, left)
            && u.w.screen.decayAcc == 10 && Energy(u.w.screen, p, k) == 7 * 256 && u.w.screen.energyDigit[p] == 10 * 256
            && !u.c.irq.pending && !u.c.irq.halted && u.c.pc == Plus16(s.c.pc, 2) && u.c.r.a == s.c.r.a
            && u.w.ppi == s.w.ppi.(outB := s.c.r.a) && forall x: word :: Peek(u.w, x) == Peek(s.w, x)
  {
    hide Fits, BitAt, Drives, OutPort, Splits, D.Selected, D.StepSize, ExecOne, Peek;
    assert Run(s, []) == s;
    RunKeepsLive(s, []);
    OutStep(s);
    StartsCleared(s, p, k);
    hide JustCleared, Live;
    OutSplits(s);
    OutCharges(s, s.w.screen.tau, s.w.screen.bit0IsLeft, p, k);
    StepKeepsLive(s, s.w.screen.tau, s.w.screen.bit0IsLeft);
  }

  /** After the second the digit is off, and HLT comes next. */
  lemma SecondOut(s: Sys, p: nat, k: nat)
    requires JustCleared(s) && Fits(s.w.screen.tau, 18) && 20 < D.StepSize(s.w.screen.tau)
    requires p < D.DIGITS && k < D.SEGMENTS && AtCode(s, p, k)
    ensures var v := ExecOne(ExecOne(s));
            && Energy(v.w.screen, p, k) == 7 * 256 && v.w.screen.energyDigit[p] == 17 * 256
            && v.w.screen.tau == s.w.screen.tau && v.w.screen.bit0IsLeft == s.w.screen.bit0IsLeft
            && !v.c.irq.pending && !v.c.irq.halted && Peek(v.w, v.c.pc) == 0x76 && v.w.ppi.outA == s.c.r.a
  {
    hide Fits, BitAt, Drives, OutPort, Splits, D.Selected, D.StepSize, ExecOne, Peek, JustCleared, Sound;
    var u := ExecOne(s);
    var tau, left := s.w.screen.tau, s.w.screen.bit0IsLeft;
    FirstOut(s, p, k);
    Plus16Twice(s.c.pc);
    OutStep(u);
    hide Live;
    OutSplits(u);
    OutCharges(u, tau, left, p, k);
    StepKeepsLive(u, tau, left);
    LiveSettings(ExecOne(u), tau, left);
  }

  lemma LiveSettings(s: Sys, tau: u32, left: bool)
    requires Live(s, tau, left)
    ensures s.w.screen.tau == tau && s.w.screen.bit0IsLeft == left
  {
  }

  lemma Plus16Twice(pc: word)
    ensures Plus16(Plus16(pc, 2), 1) == Plus16(pc, 3) && Plus16(Plus16(pc, 2), 2) == Plus16(pc, 4)
  {
  }

  // ---------- the whole run ----------

  lemma {:induction false} EverSelectedOn(s: Sys, es: seq<Event>, fs: seq<Event>, p: nat)
    requires p < D.DIGITS
    ensures EverSelected(s, es + fs, p) <==> EverSelected(s, es, p) || EverSelected(Run(s, es), fs, p)
  {
    hide StepSelects;
    if fs == [] {
      assert es + fs == es;
    } else {
      var gs := fs[..|fs| - 1];
      assert (es + fs)[..|es + fs| - 1] == es + gs;
      EverSelectedOn(s, es, gs, p);
      RunOn(s, es, gs);
    }
  }

  /** HLT and what follows leave a digit dark that port A does not select. */
  lemma HaltsInTheDark(v: Sys, m: nat, p: nat)
    requires !v.c.irq.pending && !v.c.irq.halted && Peek(v.w, v.c.pc) == 0x76 && Current(v)
    requires p < D.DIGITS && !D.Selected(v.w.screen.bit0IsLeft, v.w.ppi.outA, p)
    ensures !EverSelected(v, Steps(1 + m), p) && Elapsed(v, Run(v, Steps(1 + m))) == 7 + 4 * m
  {
    hide ExecOne, D.Selected, Drives, Peek;
    HltStep(v);
    StepKeepsClock(v);
    assert Steps(1) == [Exec] && Steps(1 + m) == [Exec] + Steps(m);
    OneEvent(v);
    assert !StepSelects(v, p);
    assert [Exec][..0] == [] && !EverSelected(v, [], p) && Before(v, [Exec]) == v;
    HaltedInTheDark(ExecOne(v), m, p);
    EverSelectedOn(v, [Exec], Steps(m), p);
    RunOn(v, [Exec], Steps(m));
  }

  lemma OneEvent(s: Sys)
    ensures Run(s, [Exec]) == ExecOne(s)
  {
    hide ExecOne;
    assert [Exec][..0] == [] && Run(s, []) == s;
  }

  lemma TwoEvents(s: Sys)
    ensures Run(s, Steps(2)) == ExecOne(ExecOne(s))
  {
    hide ExecOne;
    assert Steps(2) == [Exec] + [Exec];
    RunOn(s, [Exec], [Exec]);
    OneEvent(s);
    OneEvent(ExecOne(s));
  }

  /**
   * A ghost that is lost. After the two OUTs the segment, lit for 7 of its digit's 17 T states, reads 105;
   * once the halted processor has left the digit dark for 4289 decay steps it reads 255.
   */
  lemma GhostIsLost(s: Sys, m: nat, p: nat, k: nat)
    requires JustCleared(s) && Fits(s.w.screen.tau, 18) && 20 < D.StepSize(s.w.screen.tau)
    requires p < D.DIGITS && k < D.SEGMENTS && AtCode(s, p, k)
    requires 4289 * D.StepSize(s.w.screen.tau) <= 7 + 4 * m
    ensures D.Relative(Run(s, Steps(2)).w.screen, p, k) == 105
    ensures D.Relative(Run(s, Steps(3 + m)).w.screen, p, k) == 255
  {
    hide Fits, Elapsed, EverSelected, EverLit, D.StepSize, ExecOne, Partial, Fade, D.Selected, Peek, Lit, BitAt;
    var v := Run(s, Steps(2));
    TwoEvents(s);
    SecondOut(s, p, k);
    assert (8 * p + k) / 8 == p;
    RunLights(s, Steps(2), p);
    SegmentReads(s, Steps(2), p, k);
    RunKeepsLive(s, Steps(2));
    HaltsInTheDark(v, m, p);
    GhostsFade(s, Steps(2), Steps(1 + m), p, k);
    assert Steps(3 + m) == Steps(2) + Steps(1 + m);
    RunOn(s, Steps(2), Steps(1 + m));
    StepsAtLeast(v.w.screen, 7 + 4 * m, 4289);
  }

  // ---------- a machine that does it ----------

  /** Revision 2 with that program at address 0, ports A and B driving, and a 1 in both. */
  function GhostMachine(): Sys
  {
    var rom := seq(2048, i =>
      if i == 0 || i == 2 then 0xD3 else if i == 1 then PORT_B else if i == 3 then PORT_A else 0x76);
    Sys(RESET, PowerOn(true).(rom := rom, ppi := Ppi(0x80, 1, 1, 0, true, true, true, true)))
  }

  lemma GhostMachineIsReady()
    ensures var s := GhostMachine();
            && JustCleared(s) && Fits(s.w.screen.tau, 18) && D.StepSize(s.w.screen.tau) == 625 && AtCode(s, 0, 0)
  {
    ZeroBit(0);
  }

  /** At the default persistence the reading is wrong after 670158 steps and for good. */
  lemma GhostMachineLosesIt(n: nat)
    requires 670158 <= n
    ensures D.Relative(Run(GhostMachine(), Steps(2)).w.screen, 0, 0) == 105
    ensures D.Relative(Run(GhostMachine(), Steps(n)).w.screen, 0, 0) == 255
  {
    hide JustCleared, Fits, D.StepSize, AtCode, Run, D.Relative, GhostMachine;
    GhostMachineIsReady();
    GhostIsLost(GhostMachine(), n - 3, 0, 0);
  }
}
