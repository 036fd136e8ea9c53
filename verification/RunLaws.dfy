// The displays over whole runs of the machine: every T state integrated once, no overflow, exact
// patterns for clean multiplexing and one digit's worth of light for one-hot selection.
module RunLaws {
  import opened Bits
  import opened Board
  import opened Cpu
  import opened CpuLaws
  import opened Machine
  import opened MachineLaws
  import opened StepLaws
  import opened DisplayLaws
  import D = Display
  import opened Isa
  import IsaTables

  // ---------- one instruction ----------

  function Cost(s: Sys): nat
  {
    var t := ExecOne(s);
    if t.c.cycles < s.c.cycles then 0 else t.c.cycles - s.c.cycles
  }

  /** The 8255 at T state `t` of the step: an OUT reaches it at T state 7. */
  function PortsAt(s: Sys, t: nat): Ppi
  {
    if Drives(s) && t >= OUT_WRITE_OFFSET then Latch(s.w.ppi, OutPort(s), s.c.r.a) else s.w.ppi
  }

  /** The display integrator has been brought up to the processor's clock. */
  predicate Current(s: Sys) { s.w.screen.integratedTo == s.c.cycles }

  /** A write to a port that drives the displays splits the step's interval at T state 7. */
  predicate Splits(s: Sys)
  {
    Drives(s) && (OutPort(s) == PORT_A || OutPort(s) == PORT_B || OutPort(s) == PORT_CTRL)
  }

  lemma AdvanceKeepsSettings(d: D.Screen, to: nat, outA: byte, outB: byte)
    ensures var e := D.Advance(d, to, outA, outB);
            && e.tau == d.tau && e.bit0IsLeft == d.bit0IsLeft
            && e.integratedTo == if to <= d.integratedTo then d.integratedTo else to
  {
    if d.integratedTo < to {
      LoopKeepsSettings(D.Charge(d.(integratedTo := to), D.Clamped(to - d.integratedTo), outA, outB), 0);
    }
  }

  lemma {:induction false} LoopKeepsSettings(d: D.Screen, steps: nat)
    ensures var e := D.DecayLoop(d, steps).0;
            e.tau == d.tau && e.bit0IsLeft == d.bit0IsLeft && e.integratedTo == d.integratedTo
    decreases d.decayAcc
  {
    var s := D.StepSize(d.tau);
    if d.decayAcc >= s && steps < D.MAX_STEPS {
      LoopKeepsSettings(D.DecayAll(d.(decayAcc := d.decayAcc - s)), steps + 1);
    }
  }

  /** The screen after a step: one interval, or two split where the OUT reaches the ports. */
  ghost predicate Integrated(d: D.Screen, now: nat, cost: nat, split: bool, u: Ppi, v: Ppi, e: D.Screen)
  {
    if split then
      && cost == 10
      && e == D.Advance(D.Advance(d, now + 7, u.outA, u.outB), now + 10, v.outA, v.outB)
    else
      e == D.Advance(d, now + cost, u.outA, u.outB) && v.outA == u.outA && v.outB == u.outB
  }

  /**
   * Time conservation: the step integrates each of its T states once, in at most two intervals
   * under the ports in force, and leaves the integrator at the processor's clock.
   */
  lemma StepIntegrates(s: Sys)
    requires Current(s)
    ensures var t := ExecOne(s);
            var now := s.c.cycles;
            var before := s.w.ppi;
            var after := PortsAt(s, OUT_WRITE_OFFSET);
            && Current(t) && 4 <= Cost(s) <= 18 && t.c.cycles == now + Cost(s)
            && t.w.ppi == after
            && Integrated(s.w.screen, now, Cost(s), Splits(s), before, after, t.w.screen)
  {
    hide D.Advance, Latch, Step;
    var s' := s.(w := s.w.(start := s.c.cycles));
    var u, v := s.w.ppi, PortsAt(s, OUT_WRITE_OFFSET);
    TraceMatchesTime(s');
    AdvanceKeepsSettings(s.w.screen, s.c.cycles + 7, u.outA, u.outB);
    AdvanceKeepsSettings(D.Advance(s.w.screen, s.c.cycles + 7, u.outA, u.outB), s.c.cycles + 10, v.outA, v.outB);
    AdvanceKeepsSettings(s.w.screen, ExecOne(s).c.cycles, u.outA, u.outB);
    if Drives(s) {
      OutReachesPorts(s);
    } else {
      StepContained(s');
    }
  }

  /** An OUT takes 10 T states and drives its port from inside the step. */
  lemma OutReachesPorts(s: Sys)
    requires Drives(s)
    ensures var t := Step(s.(w := s.w.(start := s.c.cycles)));
            && t.c.cycles == s.c.cycles + 10
            && t.w.ppi == Latch(s.w.ppi, OutPort(s), s.c.r.a)
            && t.w.screen == (if Splits(s)
                              then D.Advance(s.w.screen, s.c.cycles + 7, s.w.ppi.outA, s.w.ppi.outB)
                              else s.w.screen)
            && (!Splits(s) ==> t.w.ppi.outA == s.w.ppi.outA && t.w.ppi.outB == s.w.ppi.outB)
  {
    hide D.Advance, WriteControl, Step, Execute, Decode;
    var s' := s.(w := s.w.(start := s.c.cycles));
    OutCosts(s');
    StepContained(s');
    assert Drives(s') && OutPort(s') == OutPort(s);
  }

  lemma OutCosts(s: Sys)
    requires Drives(s)
    ensures Step(s).c.cycles == s.c.cycles + 10
  {
    hide Execute, Decode, Step, Cycles;
    EnteredLaw(s);
    ExecuteLaw(Entered(s), Opcode(s));
    IsaTables.OutTakesTen(Opcode(s));
  }

  /** Neither the clamp on long intervals nor the blackout can act on an instruction's interval. */
  lemma NoBlackout(d: D.Screen, to: nat, outA: byte, outB: byte)
    requires Sound(d) && Fits(d.tau, 18) && d.integratedTo < to <= d.integratedTo + 18
    ensures D.Clamped(to - d.integratedTo) == to - d.integratedTo
    ensures Fits(d.tau, to - d.integratedTo) && Short(d.tau, to - d.integratedTo)
    ensures D.DecayLoop(D.Charge(d.(integratedTo := to), to - d.integratedTo, outA, outB), 0).1 < D.MAX_STEPS
  {
    var dt := to - d.integratedTo;
    NothingWraps(d, dt);
    FewSteps(D.Charge(d.(integratedTo := to), dt, outA, outB), 0);
  }

  // ---------- runs ----------

  /** What can happen to a machine between two looks at its displays. */
  datatype Event =
    | Exec
    | Interrupt(vector: byte)
    | Press(keys: set<(int, int)>)
    | Store(addr: word, value: byte)

  function Apply(s: Sys, e: Event): Sys
  {
    match e
    case Exec => ExecOne(s)
    case Interrupt(v) => s.(c := Request(s.c, v))
    case Press(keys) => s.(w := s.w.(keys := keys))
    case Store(a, v) => s.(w := Poke(s.w, a, v))
  }

  function Run(s: Sys, es: seq<Event>): Sys
  {
    if es == [] then s else Apply(Run(s, es[..|es| - 1]), es[|es| - 1])
  }

  /** The state in which the last event of a non-empty run happens. */
  function Before(s: Sys, es: seq<Event>): Sys
    requires es != []
  {
    Run(s, es[..|es| - 1])
  }

  /** A window just opened by umk_display_clear_accumulator. */
  predicate JustCleared(s: Sys)
  {
    s.w.screen == D.Cleared(s.w.screen, s.c.cycles)
  }

  /** What holds throughout a run while tau is left alone. */
  ghost predicate Live(s: Sys, tau: u32, left: bool)
  {
    Current(s) && Sound(s.w.screen) && s.w.screen.tau == tau && s.w.screen.bit0IsLeft == left
  }

  /** One interval inside a step keeps everything the run relies on. */
  lemma IntervalKeepsLive(d: D.Screen, to: nat, outA: byte, outB: byte)
    requires Sound(d) && Fits(d.tau, 18) && d.integratedTo < to <= d.integratedTo + 18
    ensures var e := D.Advance(d, to, outA, outB);
            Sound(e) && e.tau == d.tau && e.bit0IsLeft == d.bit0IsLeft && e.integratedTo == to
  {
    NoBlackout(d, to, outA, outB);
    AdvanceKeepsSound(d, to, outA, outB);
    AdvanceKeepsSettings(d, to, outA, outB);
  }

  lemma StepKeepsLive(s: Sys, tau: u32, left: bool)
    requires Live(s, tau, left) && Fits(tau, 18)
    ensures Live(ExecOne(s), tau, left)
  {
    hide Step, Latch, D.Advance;
    StepIntegrates(s);
    var d := s.w.screen;
    var p, q := s.w.ppi, PortsAt(s, OUT_WRITE_OFFSET);
    if Splits(s) {
      IntervalKeepsLive(d, s.c.cycles + 7, p.outA, p.outB);
      IntervalKeepsLive(D.Advance(d, s.c.cycles + 7, p.outA, p.outB), s.c.cycles + 10, q.outA, q.outB);
    } else {
      IntervalKeepsLive(d, s.c.cycles + Cost(s), p.outA, p.outB);
    }
  }

  /** Over any run from a cleared window: clocks agree, energies are ordered and bounded, nothing wraps. */
  lemma {:induction false} RunKeepsLive(s: Sys, es: seq<Event>)
    requires JustCleared(s) && Fits(s.w.screen.tau, 18)
    ensures Live(Run(s, es), s.w.screen.tau, s.w.screen.bit0IsLeft)
  {
    if es != [] {
      RunKeepsLive(s, es[..|es| - 1]);
      if es[|es| - 1].Exec? {
        StepKeepsLive(Before(s, es), s.w.screen.tau, s.w.screen.bit0IsLeft);
      }
    }
  }

  // ---------- no ghosting ----------

  /** At every T state of the step, port B carries the mask of every digit selected. */
  predicate CleanStep(s: Sys, P: Masks)
  {
    forall t :: 0 <= t < Cost(s) ==>
      CleanPorts(s.w.screen.bit0IsLeft, P, PortsAt(s, t).outA, PortsAt(s, t).outB)
  }

  predicate CleanRun(s: Sys, es: seq<Event>, P: Masks)
  {
    es == [] ||
    (CleanRun(s, es[..|es| - 1], P) && (es[|es| - 1].Exec? ==> CleanStep(Before(s, es), P)))
  }

  /** Some T state of the step selects the digit. */
  predicate StepSelects(s: Sys, p: nat)
    requires p < D.DIGITS
  {
    exists t :: 0 <= t < Cost(s) && D.Selected(s.w.screen.bit0IsLeft, PortsAt(s, t).outA, p)
  }

  predicate EverSelected(s: Sys, es: seq<Event>, p: nat)
    requires p < D.DIGITS
  {
    es != [] &&
    (EverSelected(s, es[..|es| - 1], p) || (es[|es| - 1].Exec? && StepSelects(Before(s, es), p)))
  }

  /** The clock of the display and its settings, for every persistence. */
  lemma StepKeepsClock(s: Sys)
    requires Current(s)
    ensures Current(ExecOne(s)) && ExecOne(s).w.screen.bit0IsLeft == s.w.screen.bit0IsLeft
    ensures ExecOne(s).w.screen.tau == s.w.screen.tau
  {
    hide Step, Latch, D.Advance;
    StepIntegrates(s);
    var d, now := s.w.screen, s.c.cycles;
    var u, v := s.w.ppi, PortsAt(s, OUT_WRITE_OFFSET);
    AdvanceKeepsSettings(d, now + 7, u.outA, u.outB);
    AdvanceKeepsSettings(D.Advance(d, now + 7, u.outA, u.outB), now + 10, v.outA, v.outB);
    AdvanceKeepsSettings(d, now + Cost(s), u.outA, u.outB);
  }

  lemma {:induction false} RunKeepsClock(s: Sys, es: seq<Event>)
    requires Current(s)
    ensures Current(Run(s, es)) && Run(s, es).w.screen.bit0IsLeft == s.w.screen.bit0IsLeft
    ensures Run(s, es).w.screen.tau == s.w.screen.tau
  {
    hide ExecOne;
    if es != [] {
      RunKeepsClock(s, es[..|es| - 1]);
      if es[|es| - 1].Exec? {
        StepKeepsClock(Before(s, es));
      }
    }
  }

  lemma StepKeepsClean(s: Sys, P: Masks)
    requires Current(s) && Clean(s.w.screen, P) && CleanStep(s, P)
    ensures Clean(ExecOne(s).w.screen, P)
  {
    hide Step, Latch, D.Advance;
    StepIntegrates(s);
    var d := s.w.screen;
    var p, q := s.w.ppi, PortsAt(s, OUT_WRITE_OFFSET);
    assert PortsAt(s, 0) == p;
    if Splits(s) {
      AdvanceKeepsClean(d, s.c.cycles + 7, p.outA, p.outB, P);
      AdvanceKeepsSettings(d, s.c.cycles + 7, p.outA, p.outB);
      AdvanceKeepsClean(D.Advance(d, s.c.cycles + 7, p.outA, p.outB), s.c.cycles + 10, q.outA, q.outB, P);
    } else {
      AdvanceKeepsClean(d, s.c.cycles + Cost(s), p.outA, p.outB, P);
    }
  }

  lemma StepLights(s: Sys, tau: u32, left: bool, p: nat)
    requires Live(s, tau, left) && Fits(tau, 18) && p < D.DIGITS
    ensures ExecOne(s).w.screen.energyDigit[p] > 0 <==>
            s.w.screen.energyDigit[p] > 0 || StepSelects(s, p)
  {
    hide Step, Latch, D.Advance;
    StepIntegrates(s);
    var d := s.w.screen;
    var u, v := s.w.ppi, PortsAt(s, OUT_WRITE_OFFSET);
    var now := s.c.cycles;
    assert PortsAt(s, 0) == u;
    if Splits(s) {
      assert StepSelects(s, p) <==> D.Selected(left, u.outA, p) || D.Selected(left, v.outA, p);
      var e := D.Advance(d, now + 7, u.outA, u.outB);
      IntervalLights(d, now + 7, u.outA, u.outB, p);
      IntervalKeepsLive(d, now + 7, u.outA, u.outB);
      IntervalLights(e, now + 10, v.outA, v.outB, p);
    } else {
      assert StepSelects(s, p) <==> D.Selected(left, u.outA, p);
      IntervalLights(d, now + Cost(s), u.outA, u.outB, p);
    }
  }

  lemma IntervalLights(d: D.Screen, to: nat, outA: byte, outB: byte, p: nat)
    requires Sound(d) && Fits(d.tau, 18) && d.integratedTo < to <= d.integratedTo + 18 && p < D.DIGITS
    ensures D.Advance(d, to, outA, outB).energyDigit[p] > 0 <==>
            d.energyDigit[p] > 0 || D.Selected(d.bit0IsLeft, outA, p)
  {
    NoBlackout(d, to, outA, outB);
    if d.energyDigit[p] > 0 || D.Selected(d.bit0IsLeft, outA, p) {
      AdvanceKeepsLit(d, to, outA, outB, p);
    } else {
      AdvanceKeepsUnlit(d, to, outA, outB, p);
    }
  }

  lemma {:induction false} RunKeepsClean(s: Sys, es: seq<Event>, P: Masks)
    requires JustCleared(s) && CleanRun(s, es, P)
    ensures Clean(Run(s, es).w.screen, P)
  {
    hide ExecOne, CleanStep;
    if es != [] {
      RunKeepsClean(s, es[..|es| - 1], P);
      RunKeepsClock(s, es[..|es| - 1]);
      if es[|es| - 1].Exec? {
        StepKeepsClean(Before(s, es), P);
      }
    }
  }

  lemma {:induction false} RunLights(s: Sys, es: seq<Event>, p: nat)
    requires JustCleared(s) && Fits(s.w.screen.tau, 18) && p < D.DIGITS
    ensures Run(s, es).w.screen.energyDigit[p] > 0 <==> EverSelected(s, es, p)
  {
    if es != [] {
      RunLights(s, es[..|es| - 1], p);
      RunKeepsLive(s, es[..|es| - 1]);
      if es[|es| - 1].Exec? {
        StepLights(Before(s, es), s.w.screen.tau, s.w.screen.bit0IsLeft, p);
      }
    }
  }

  /**
   * No ghosting. Over any run since the window was cleared in which port B carries the mask of every
   * digit that port A selects, each digit that has energy reads 255 on its mask's segments and 0
   * elsewhere, the pattern is the mask for every threshold, and a digit without energy is blank. The
   * digits with energy are those selected at least once, as long as no counter can wrap.
   */
  lemma NoGhosting(s: Sys, es: seq<Event>, P: Masks, p: nat, threshold: byte)
    requires JustCleared(s) && CleanRun(s, es, P) && p < D.DIGITS && threshold < 255
    ensures var d := Run(s, es).w.screen;
            && (d.energyDigit[p] > 0 ==> forall k :: 0 <= k < D.SEGMENTS ==>
                  D.Relative(d, p, k) == if BitAt(P[p], k) then 255 else 0)
            && D.Pattern(d, threshold, p) == (if d.energyDigit[p] > 0 then P[p] else 0)
            && (Fits(s.w.screen.tau, 18) ==> (d.energyDigit[p] > 0 <==> EverSelected(s, es, p)))
  {
    RunKeepsClean(s, es, P);
    if Fits(s.w.screen.tau, 18) {
      RunLights(s, es, p);
    }
    CleanReadsExactly(Run(s, es).w.screen, P, p, threshold);
  }

  // ---------- one digit at a time ----------

  predicate OneHotStep(s: Sys)
  {
    forall t :: 0 <= t < Cost(s) ==> AtMostOneHot(s.w.screen.bit0IsLeft, PortsAt(s, t).outA)
  }

  predicate OneHotRun(s: Sys, es: seq<Event>)
  {
    es == [] ||
    (OneHotRun(s, es[..|es| - 1]) && (es[|es| - 1].Exec? ==> OneHotStep(Before(s, es))))
  }

  lemma StepKeepsBudget(s: Sys, tau: u32, left: bool)
    requires Live(s, tau, left) && Fits(tau, 18) && Budget(s.w.screen) && OneHotStep(s)
    ensures Budget(ExecOne(s).w.screen)
  {
    hide Step, Latch, D.Advance;
    StepIntegrates(s);
    var d := s.w.screen;
    var u, v := s.w.ppi, PortsAt(s, OUT_WRITE_OFFSET);
    var now := s.c.cycles;
    assert PortsAt(s, 0) == u;
    if Splits(s) {
      IntervalKeepsBudget(d, now + 7, u.outA, u.outB);
      IntervalKeepsLive(d, now + 7, u.outA, u.outB);
      IntervalKeepsBudget(D.Advance(d, now + 7, u.outA, u.outB), now + 10, v.outA, v.outB);
    } else {
      IntervalKeepsBudget(d, now + Cost(s), u.outA, u.outB);
    }
  }

  lemma IntervalKeepsBudget(d: D.Screen, to: nat, outA: byte, outB: byte)
    requires Sound(d) && Fits(d.tau, 18) && d.integratedTo < to <= d.integratedTo + 18
    requires Budget(d) && AtMostOneHot(d.bit0IsLeft, outA)
    ensures Budget(D.Advance(d, to, outA, outB))
  {
    NoBlackout(d, to, outA, outB);
    AdvanceKeepsBudget(d, to, outA, outB);
  }

  lemma {:induction false} RunKeepsBudget(s: Sys, es: seq<Event>)
    requires JustCleared(s) && Fits(s.w.screen.tau, 18) && OneHotRun(s, es)
    ensures Budget(Run(s, es).w.screen)
  {
    if es != [] {
      RunKeepsBudget(s, es[..|es| - 1]);
      RunKeepsLive(s, es[..|es| - 1]);
      if es[|es| - 1].Exec? {
        StepKeepsBudget(Before(s, es), s.w.screen.tau, s.w.screen.bit0IsLeft);
      }
    }
  }

  /** With one digit selected at a time, six intensities of a segment share one digit's worth of light. */
  lemma OneHotBrightness(s: Sys, es: seq<Event>, k: nat)
    requires JustCleared(s) && Fits(s.w.screen.tau, 18) && OneHotRun(s, es) && k < D.SEGMENTS
    ensures var d := Run(s, es).w.screen;
            && Sum6(d.energyDigit) <= d.total + 378
            && (d.total > 96390 ==>
                D.Intensity(d, 0, k) as int + D.Intensity(d, 1, k) as int + D.Intensity(d, 2, k) as int
                + D.Intensity(d, 3, k) as int + D.Intensity(d, 4, k) as int + D.Intensity(d, 5, k) as int <= 255)
  {
    RunKeepsLive(s, es);
    RunKeepsBudget(s, es);
    if Run(s, es).w.screen.total > 96390 {
      IntensitiesShareOneDigit(Run(s, es).w.screen, k);
    }
  }
}
