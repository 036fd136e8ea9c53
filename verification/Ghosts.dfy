// What the relative brightness of one segment says over whole runs: whether it was ever lit with its
// digit, and for how long after that a segment lit only part of the time can be told from the others.
module Ghosts {
  import opened Bits
  import opened Board
  import opened Cpu
  import opened Machine
  import opened DisplayLaws
  import opened RunLaws
  import D = Display

  // ---------- readings ----------

  function Energy(d: D.Screen, p: nat, k: nat): u32
    requires p < D.DIGITS && k < D.SEGMENTS
  {
    d.energy[8 * p + k]
  }

  lemma Share(e: nat, w: nat)
    requires e <= w && 0 < w
    ensures e * 255 / w == 255 <==> e == w
    ensures e * 255 / w == 0 <==> 255 * e < w
  {
    var q := e * 255 / w;
    Floor(e * 255, w, q);
    ShareOf(e, w, q);
  }

  lemma ShareOf(e: nat, w: nat, q: nat)
    requires e <= w && 0 < w && q * w <= e * 255 < q * w + w
    ensures q == 255 <==> e == w
    ensures q == 0 <==> 255 * e < w
  {
    if q < 255 {
      AtLeast(255, q + 1, w);
    } else {
      AtLeast(q, if q == 255 then 255 else 256, w);
    }
    if q > 0 {
      AtLeast(q, 1, w);
    }
  }

  lemma AtLeast(q: nat, c: nat, w: nat)
    requires q >= c
    ensures q * w >= c * w
  {
  }

  lemma Floor(x: nat, w: nat, q: nat)
    requires 0 < w && q == x / w
    ensures q * w <= x < q * w + w
  {
  }

  /** A digit that has any energy reads 255 where the segment has all of it, and 0 below one 255th. */
  lemma ReadsShare(d: D.Screen, p: nat, k: nat)
    requires Sound(d) && p < D.DIGITS && k < D.SEGMENTS && d.energyDigit[p] > 0
    ensures D.Relative(d, p, k) == 255 <==> Energy(d, p, k) == d.energyDigit[p]
    ensures D.Relative(d, p, k) == 0 <==> 255 * Energy(d, p, k) < d.energyDigit[p]
  {
    ClampsNeverFire(d, p, k);
    assert (8 * p + k) / 8 == p;
    assert Energy(d, p, k) <= d.energyDigit[p];
    Share(Energy(d, p, k), d.energyDigit[p]);
  }

  // ---------- fading ----------

  /** What `n` decay steps leave of an energy. */
  function Fade(x: u32, n: nat): u32
    decreases n
  {
    if n == 0 then x else Fade(D.Decay(x), n - 1)
  }

  lemma {:induction false} FadeTwice(x: u32, m: nat, n: nat)
    ensures Fade(Fade(x, m), n) == Fade(x, m + n)
    decreases m
  {
    if m > 0 {
      FadeTwice(D.Decay(x), m - 1, n);
    }
  }

  /** An energy never charged, or charged for at least one T state: the latter never sinks below 63. */
  predicate Alive(x: u32) { x == 0 || x >= 63 }

  /** Fading brings every charged energy to exactly 63, one unit or more at a time. */
  lemma {:induction false} FadeEnds(x: u32, n: nat)
    requires Alive(x)
    ensures Alive(Fade(x, n)) && (Fade(x, n) == 0 <==> x == 0)
    ensures 0 < x <= n + 63 ==> Fade(x, n) == 63
    decreases n
  {
    if n > 0 {
      FadeEnds(D.Decay(x), n - 1);
    }
  }

  /** Every energy of `e` is that of `d` faded `n` times. */
  ghost predicate Fades(d: D.Screen, e: D.Screen, n: nat)
  {
    && (forall i :: 0 <= i < D.CELLS ==> e.energy[i] == Fade(d.energy[i], n))
    && (forall p :: 0 <= p < D.DIGITS ==> e.energyDigit[p] == Fade(d.energyDigit[p], n))
    && e.total == Fade(d.total, n)
  }

  lemma OneMoreFade(d: D.Screen, e: D.Screen, n: nat)
    requires Fades(D.DecayAll(d), e, n)
    ensures Fades(d, e, n + 1)
  {
    hide D.Decay;
  }

  /** The decay loop fades all energies alike, once for each full step of the accumulated time. */
  lemma {:induction false} LoopFades(d: D.Screen, steps: nat) returns (n: nat)
    ensures var (e, m) := D.DecayLoop(d, steps);
            && m == steps + n && n * D.StepSize(d.tau) + e.decayAcc == d.decayAcc && Fades(d, e, n)
            && (m < D.MAX_STEPS ==> e.decayAcc < D.StepSize(d.tau))
    decreases d.decayAcc
  {
    hide D.DecayLoop, D.StepSize, D.DecayAll, Fades;
    var s := D.StepSize(d.tau);
    LoopTurns(d, steps);
    n := 0;
    if d.decayAcc >= s && steps < D.MAX_STEPS {
      var f := d.(decayAcc := d.decayAcc - s);
      var m := LoopFades(D.DecayAll(f), steps + 1);
      n := m + 1;
      assert n * s == m * s + s;
      OneMoreFade(f, D.DecayLoop(d, steps).0, m);
      FadesFrom(f, d, D.DecayLoop(d, steps).0, n);
    } else {
      NoFade(d);
    }
  }

  /** One turn of the loop. */
  lemma LoopTurns(d: D.Screen, steps: nat)
    ensures var s := D.StepSize(d.tau);
            if d.decayAcc >= s && steps < D.MAX_STEPS then
              var f := D.DecayAll(d.(decayAcc := d.decayAcc - s));
              D.DecayLoop(d, steps) == D.DecayLoop(f, steps + 1) && f.tau == d.tau && f.decayAcc == d.decayAcc - s
            else
              D.DecayLoop(d, steps) == (d, steps)
  {
  }

  lemma NoFade(d: D.Screen)
    ensures Fades(d, d, 0)
  {
  }

  lemma FadesFrom(f: D.Screen, d: D.Screen, e: D.Screen, n: nat)
    requires f.energy == d.energy && f.energyDigit == d.energyDigit && f.total == d.total && Fades(f, e, n)
    ensures Fades(d, e, n)
  {
  }

  // ---------- one interval ----------

  /** After an interval: the energies that its charge left, faded `n` times. */
  ghost predicate FadedBy(f: D.Screen, e: D.Screen, n: nat)
  {
    && n * D.StepSize(f.tau) + e.decayAcc == f.decayAcc && e.decayAcc < D.StepSize(f.tau)
    && Fades(f, e, n)
  }

  function ChargedScreen(d: D.Screen, to: nat, outA: byte, outB: byte): D.Screen
    requires d.integratedTo < to
  {
    D.Charge(d.(integratedTo := to), D.Clamped(to - d.integratedTo), outA, outB)
  }

  /** An interval of an instruction: short, and starting from a sound screen. */
  ghost predicate Normal(d: D.Screen, to: nat)
  {
    Sound(d) && Fits(d.tau, 18) && d.integratedTo < to <= d.integratedTo + 18
  }

  lemma IntervalFades(d: D.Screen, to: nat, outA: byte, outB: byte) returns (n: nat)
    requires Normal(d, to)
    ensures FadedBy(ChargedScreen(d, to, outA, outB), D.Advance(d, to, outA, outB), n)
  {
    hide D.DecayLoop, D.Charge, Sound, Fits;
    NoBlackout(d, to, outA, outB);
    n := LoopFades(ChargedScreen(d, to, outA, outB), 0);
  }

  predicate Lit(left: bool, outA: byte, outB: byte, p: nat, k: nat)
    requires p < D.DIGITS
  {
    D.Selected(left, outA, p) && BitAt(outB, k)
  }

  predicate Missed(left: bool, outA: byte, outB: byte, p: nat, k: nat)
    requires p < D.DIGITS
  {
    D.Selected(left, outA, p) && !BitAt(outB, k)
  }

  /** What the charge adds to a segment and to its digit. */
  lemma ChargeAdds(d: D.Screen, to: nat, outA: byte, outB: byte, p: nat, k: nat)
    requires Normal(d, to) && p < D.DIGITS && k < D.SEGMENTS
    ensures var f := ChargedScreen(d, to, outA, outB);
            var more := 256 * (to - d.integratedTo);
            && f.tau == d.tau && f.decayAcc == d.decayAcc + (to - d.integratedTo)
            && f.total == d.total + more
            && Energy(f, p, k) == Energy(d, p, k) + (if Lit(d.bit0IsLeft, outA, outB, p, k) then more else 0)
            && f.energyDigit[p] == d.energyDigit[p] + (if D.Selected(d.bit0IsLeft, outA, p) then more else 0)
  {
    hide D.Selected, BitAt;
    assert (8 * p + k) / 8 == p && (8 * p + k) % 8 == k;
    NothingWraps(d, to - d.integratedTo);
    DigitCharged(d, p, to - d.integratedTo, outA);
  }

  /** What an interval, step or run does to one segment, lit at some T state of it or dark while its digit is on. */
  ghost predicate Cell(d: D.Screen, e: D.Screen, p: nat, k: nat, lit: bool, missed: bool)
    requires p < D.DIGITS && k < D.SEGMENTS
  {
    && Alive(Energy(e, p, k)) && Alive(e.energyDigit[p])
    && (Energy(e, p, k) > 0 <==> Energy(d, p, k) > 0 || lit)
    && (!missed && Energy(d, p, k) == d.energyDigit[p] ==> Energy(e, p, k) == e.energyDigit[p])
  }

  ghost predicate AliveAt(d: D.Screen, p: nat, k: nat)
    requires p < D.DIGITS && k < D.SEGMENTS
  {
    Alive(Energy(d, p, k)) && Alive(d.energyDigit[p])
  }

  lemma IntervalCell(d: D.Screen, to: nat, outA: byte, outB: byte, p: nat, k: nat)
    requires Normal(d, to) && p < D.DIGITS && k < D.SEGMENTS && AliveAt(d, p, k)
    ensures Cell(d, D.Advance(d, to, outA, outB), p, k,
                 Lit(d.bit0IsLeft, outA, outB, p, k), Missed(d.bit0IsLeft, outA, outB, p, k))
  {
    hide D.Advance, D.Selected, BitAt, ChargedScreen, Normal;
    assert d.integratedTo < to by { NormalIsForward(d, to); }
    var f := ChargedScreen(d, to, outA, outB);
    ChargeAdds(d, to, outA, outB, p, k);
    var n := IntervalFades(d, to, outA, outB);
    FadeEnds(Energy(f, p, k), n);
    FadeEnds(f.energyDigit[p], n);
  }

  lemma NormalIsForward(d: D.Screen, to: nat)
    requires Normal(d, to)
    ensures d.integratedTo < to
  {
  }

  // ---------- one instruction ----------

  /** Some T state of the step lights the segment. */
  predicate StepLit(s: Sys, p: nat, k: nat)
    requires p < D.DIGITS
  {
    exists t :: 0 <= t < RunLaws.Cost(s) && Lit(s.w.screen.bit0IsLeft, PortsAt(s, t).outA, PortsAt(s, t).outB, p, k)
  }

  /** Some T state of the step selects the digit without the segment. */
  predicate StepMissed(s: Sys, p: nat, k: nat)
    requires p < D.DIGITS
  {
    exists t :: 0 <= t < RunLaws.Cost(s) && Missed(s.w.screen.bit0IsLeft, PortsAt(s, t).outA, PortsAt(s, t).outB, p, k)
  }

  /** The intervals of a step, each normal, under the ports of its first and of its last T state. */
  lemma StepIsNormal(s: Sys, tau: u32, left: bool)
    requires Live(s, tau, left) && Fits(tau, 18)
    ensures var d := s.w.screen;
            var (now, cost) := (s.c.cycles, RunLaws.Cost(s));
            var (u, v) := (PortsAt(s, 0), PortsAt(s, OUT_WRITE_OFFSET));
            && 4 <= cost <= 18 && ExecOne(s).c.cycles == now + cost
            && if Splits(s) then
                 var e := D.Advance(d, now + 7, u.outA, u.outB);
                 && cost == 10 && Normal(d, now + 7) && Normal(e, now + 10)
                 && e.bit0IsLeft == left && e.tau == tau && e.integratedTo == now + 7
                 && ExecOne(s).w.screen == D.Advance(e, now + 10, v.outA, v.outB)
               else
                 && v.outA == u.outA && v.outB == u.outB && Normal(d, now + cost)
                 && ExecOne(s).w.screen == D.Advance(d, now + cost, u.outA, u.outB)
  {
    hide ExecOne, Latch, D.Advance;
    StepIntegrates(s);
    var u := PortsAt(s, 0);
    if Splits(s) {
      IntervalKeepsLive(s.w.screen, s.c.cycles + 7, u.outA, u.outB);
    }
  }

  /** The ports change at T state 7 and not otherwise. */
  lemma TwoPorts(s: Sys, t: nat)
    ensures PortsAt(s, t) == if t >= OUT_WRITE_OFFSET then PortsAt(s, OUT_WRITE_OFFSET) else PortsAt(s, 0)
  {
  }

  lemma StepCell(s: Sys, tau: u32, left: bool, p: nat, k: nat)
    requires Live(s, tau, left) && Fits(tau, 18) && p < D.DIGITS && k < D.SEGMENTS && AliveAt(s.w.screen, p, k)
    ensures Cell(s.w.screen, ExecOne(s).w.screen, p, k, StepLit(s, p, k), StepMissed(s, p, k))
  {
    hide ExecOne, D.Advance, Lit, Missed, PortsAt, Energy, Alive, Splits, Normal, Sound, Fits, RunLaws.Cost;
    StepIsNormal(s, tau, left);
    forall t: nat
      ensures PortsAt(s, t) == if t >= OUT_WRITE_OFFSET then PortsAt(s, OUT_WRITE_OFFSET) else PortsAt(s, 0)
    {
      TwoPorts(s, t);
    }
    var d, now := s.w.screen, s.c.cycles;
    var u, v := PortsAt(s, 0), PortsAt(s, OUT_WRITE_OFFSET);
    if Splits(s) {
      IntervalCell(d, now + 7, u.outA, u.outB, p, k);
      IntervalCell(D.Advance(d, now + 7, u.outA, u.outB), now + 10, v.outA, v.outB, p, k);
      assert StepLit(s, p, k) <==> Lit(left, u.outA, u.outB, p, k) || Lit(left, v.outA, v.outB, p, k);
      assert StepMissed(s, p, k) <==> Missed(left, u.outA, u.outB, p, k) || Missed(left, v.outA, v.outB, p, k);
    } else {
      IntervalCell(d, now + RunLaws.Cost(s), u.outA, u.outB, p, k);
    }
  }

  // ---------- runs ----------

  predicate EverLit(s: Sys, es: seq<Event>, p: nat, k: nat)
    requires p < D.DIGITS
  {
    es != [] && (EverLit(s, es[..|es| - 1], p, k) || (es[|es| - 1].Exec? && StepLit(Before(s, es), p, k)))
  }

  predicate EverMissed(s: Sys, es: seq<Event>, p: nat, k: nat)
    requires p < D.DIGITS
  {
    es != [] && (EverMissed(s, es[..|es| - 1], p, k) || (es[|es| - 1].Exec? && StepMissed(Before(s, es), p, k)))
  }

  /** Over any run since the window was cleared, in terms of energies. */
  lemma {:induction false} RunCell(s: Sys, es: seq<Event>, p: nat, k: nat)
    requires JustCleared(s) && Fits(s.w.screen.tau, 18) && p < D.DIGITS && k < D.SEGMENTS
    ensures Cell(s.w.screen, Run(s, es).w.screen, p, k, EverLit(s, es, p, k), EverMissed(s, es, p, k))
  {
    hide ExecOne, StepLit, StepMissed, Poke, Fits, Live;
    assert AliveAt(s.w.screen, p, k);
    if es != [] {
      RunCell(s, es[..|es| - 1], p, k);
      RunKeepsLive(s, es[..|es| - 1]);
      if es[|es| - 1].Exec? {
        StepCell(Before(s, es), s.w.screen.tau, s.w.screen.bit0IsLeft, p, k);
      } else {
        OtherEvents(Before(s, es), es[|es| - 1]);
      }
    }
  }

  lemma OtherEvents(s: Sys, e: Event)
    requires !e.Exec?
    ensures Apply(s, e).w.screen == s.w.screen && Apply(s, e).c.cycles == s.c.cycles
  {
  }

  /**
   * What a segment's relative brightness says over any run since the window was cleared. It has energy
   * exactly if it was ever lit with its digit, and reads 255 if it was lit whenever its digit was selected.
   */
  lemma SegmentReads(s: Sys, es: seq<Event>, p: nat, k: nat)
    requires JustCleared(s) && Fits(s.w.screen.tau, 18) && p < D.DIGITS && k < D.SEGMENTS
    ensures var d := Run(s, es).w.screen;
            && (Energy(d, p, k) > 0 <==> EverLit(s, es, p, k))
            && (!EverLit(s, es, p, k) ==> D.Relative(d, p, k) == 0)
            && (EverLit(s, es, p, k) && !EverMissed(s, es, p, k) ==> D.Relative(d, p, k) == 255)
  {
    hide Run, EverLit, EverMissed, Fits;
    RunCell(s, es, p, k);
    RunKeepsLive(s, es);
    var d := Run(s, es).w.screen;
    if d.energyDigit[p] > 0 {
      ReadsShare(d, p, k);
    }
  }

  // ---------- a digit left dark ----------

  /** What `dt` T states without digit p make of it: `n` decay steps, and the rest of the time kept. */
  ghost predicate Darkened(d: D.Screen, e: D.Screen, p: nat, dt: int, n: nat)
    requires p < D.DIGITS
  {
    && n * D.StepSize(d.tau) + e.decayAcc == d.decayAcc + dt && e.decayAcc < D.StepSize(d.tau) && e.tau == d.tau
    && e.energyDigit[p] == Fade(d.energyDigit[p], n)
    && forall k :: 0 <= k < D.SEGMENTS ==> Energy(e, p, k) == Fade(Energy(d, p, k), n)
  }

  lemma DarkInterval(d: D.Screen, to: nat, outA: byte, outB: byte, p: nat) returns (n: nat)
    requires Normal(d, to) && p < D.DIGITS && !D.Selected(d.bit0IsLeft, outA, p)
    ensures Darkened(d, D.Advance(d, to, outA, outB), p, to - d.integratedTo, n)
  {
    hide D.Advance, D.Selected, BitAt, ChargedScreen, Normal, D.StepSize;
    NormalIsForward(d, to);
    var f := ChargedScreen(d, to, outA, outB);
    n := IntervalFades(d, to, outA, outB);
    AdvanceKeepsSettings(d, to, outA, outB);
    forall k | 0 <= k < D.SEGMENTS ensures Energy(f, p, k) == Energy(d, p, k) {
      ChargeAdds(d, to, outA, outB, p, k);
    }
    ChargeAdds(d, to, outA, outB, p, 0);
  }

  lemma DarkTwice(d: D.Screen, e: D.Screen, f: D.Screen, p: nat, dt: int, dt': int, m: nat, n: nat)
    requires p < D.DIGITS && Darkened(d, e, p, dt, m) && Darkened(e, f, p, dt', n)
    ensures Darkened(d, f, p, dt + dt', m + n)
  {
    hide D.StepSize, Energy;
    assert (m + n) * D.StepSize(d.tau) == m * D.StepSize(d.tau) + n * D.StepSize(d.tau);
    FadeTwice(d.energyDigit[p], m, n);
    forall k | 0 <= k < D.SEGMENTS ensures Energy(f, p, k) == Fade(Energy(d, p, k), m + n) {
      FadeTwice(Energy(d, p, k), m, n);
    }
  }

  lemma DarkStep(s: Sys, tau: u32, left: bool, p: nat) returns (n: nat)
    requires Live(s, tau, left) && Fits(tau, 18) && p < D.DIGITS && !StepSelects(s, p)
    ensures Darkened(s.w.screen, ExecOne(s).w.screen, p, ExecOne(s).c.cycles - s.c.cycles, n)
    ensures s.c.cycles <= ExecOne(s).c.cycles
  {
    hide ExecOne, D.Advance, D.Selected, PortsAt, Splits, Normal, Sound, Fits, RunLaws.Cost, Darkened;
    StepIsNormal(s, tau, left);
    TwoPorts(s, OUT_WRITE_OFFSET);
    var d, now := s.w.screen, s.c.cycles;
    var u, v := PortsAt(s, 0), PortsAt(s, OUT_WRITE_OFFSET);
    assert !D.Selected(left, u.outA, p);
    if Splits(s) {
      var e := D.Advance(d, now + 7, u.outA, u.outB);
      var n1 := DarkInterval(d, now + 7, u.outA, u.outB, p);
      var n2 := DarkInterval(e, now + 10, v.outA, v.outB, p);
      DarkTwice(d, e, ExecOne(s).w.screen, p, 7, 3, n1, n2);
      n := n1 + n2;
    } else {
      n := DarkInterval(d, now + RunLaws.Cost(s), u.outA, u.outB, p);
    }
  }

  /** One run after another. */
  lemma {:induction false} RunOn(s: Sys, es: seq<Event>, fs: seq<Event>)
    ensures Run(s, es + fs) == Run(Run(s, es), fs)
  {
    hide Apply;
    if fs == [] {
      assert es + fs == es;
    } else {
      RunOn(s, es, fs[..|fs| - 1]);
      assert (es + fs)[..|es + fs| - 1] == es + fs[..|fs| - 1];
    }
  }

  lemma DarkFromHere(d: D.Screen, p: nat)
    requires p < D.DIGITS && d.decayAcc < D.StepSize(d.tau)
    ensures Darkened(d, d, p, 0, 0)
  {
  }

  lemma LiveIsSettled(s: Sys, tau: u32, left: bool)
    requires Live(s, tau, left)
    ensures s.w.screen.decayAcc < D.StepSize(s.w.screen.tau) && Current(s) && Sound(s.w.screen)
  {
  }

  /** Whatever runs after `es`, a digit that it leaves alone only fades. */
  lemma {:induction false} DarkRun(s: Sys, es: seq<Event>, fs: seq<Event>, p: nat) returns (n: nat)
    requires JustCleared(s) && Fits(s.w.screen.tau, 18) && p < D.DIGITS && !EverSelected(Run(s, es), fs, p)
    ensures var (u, v) := (Run(s, es), Run(Run(s, es), fs));
            Darkened(u.w.screen, v.w.screen, p, v.c.cycles - u.c.cycles, n) && u.c.cycles <= v.c.cycles
  {
    hide ExecOne, Live, Fits, Darkened, StepSelects, JustCleared, Poke;
    var u, tau, left := Run(s, es), s.w.screen.tau, s.w.screen.bit0IsLeft;
    if fs == [] {
      RunKeepsLive(s, es);
      LiveIsSettled(u, tau, left);
      DarkFromHere(u.w.screen, p);
      n := 0;
    } else {
      var gs := fs[..|fs| - 1];
      n := DarkRun(s, es, gs, p);
      var v := Run(u, gs);
      if fs[|fs| - 1].Exec? {
        RunOn(s, es, gs);
        RunKeepsLive(s, es + gs);
        var m := DarkStep(v, tau, left, p);
        var t := ExecOne(v);
        DarkTwice(u.w.screen, v.w.screen, t.w.screen, p, v.c.cycles - u.c.cycles, t.c.cycles - v.c.cycles, n, m);
        n := n + m;
      } else {
        OtherEvents(v, fs[|fs| - 1]);
      }
    }
  }

  /** The number of decay steps follows from the time. */
  lemma StepsFromTime(s: nat, n: nat, rest: nat, time: nat)
    requires rest < s && n * s + rest == time
    ensures n == time / s
  {
    var q := time / s;
    Floor(time, s, q);
    if n < q {
      AtLeast(q, n + 1, s);
    } else if q < n {
      AtLeast(n, q + 1, s);
    }
  }

  function Elapsed(u: Sys, v: Sys): nat { if v.c.cycles < u.c.cycles then 0 else v.c.cycles - u.c.cycles }

  /** How often everything decays in `dt` T states from `d` on. */
  function DecaySteps(d: D.Screen, dt: nat): nat { (d.decayAcc + dt) / D.StepSize(d.tau) }

  /** A reading strictly between 0 and 255. */
  predicate Intermediate(b: byte) { 0 < b < 255 }

  /** Less than the whole, but a 255th of it. */
  predicate Partial(e: nat, w: nat) { e < w <= 255 * e }

  /** What a digit reads that has been dark for `dt` T states. */
  lemma DarkReads(d: D.Screen, e: D.Screen, p: nat, k: nat, dt: nat, n: nat)
    requires p < D.DIGITS && k < D.SEGMENTS && Darkened(d, e, p, dt, n)
    requires Sound(d) && Sound(e) && AliveAt(d, p, k) && d.energyDigit[p] > 0
    ensures n == DecaySteps(d, dt)
    ensures Intermediate(D.Relative(e, p, k)) <==> Partial(Fade(Energy(d, p, k), n), Fade(d.energyDigit[p], n))
    ensures d.energyDigit[p] <= n + 63 ==> D.Relative(e, p, k) == if Energy(d, p, k) > 0 then 255 else 0
  {
    hide Sound, D.Relative;
    StepsFromTime(D.StepSize(d.tau), n, e.decayAcc, d.decayAcc + dt);
    FadeEnds(d.energyDigit[p], n);
    FadeEnds(Energy(d, p, k), n);
    BelowDigit(d, p, k);
    BelowDigit(e, p, k);
    ReadsShare(e, p, k);
  }

  lemma BelowDigit(d: D.Screen, p: nat, k: nat)
    requires Sound(d) && p < D.DIGITS && k < D.SEGMENTS
    ensures Energy(d, p, k) <= d.energyDigit[p]
  {
    assert (8 * p + k) / 8 == p;
  }

  /**
   * Ghosts fade away. Let a digit be left dark for some time after any run. A segment that was lit during
   * part of the digit's time is told from one lit all the time exactly while its energy, faded, is the
   * smaller one; and once the digit has faded to 63 every segment ever lit with it reads 255.
   */
  lemma GhostsFade(s: Sys, es: seq<Event>, fs: seq<Event>, p: nat, k: nat)
    requires JustCleared(s) && Fits(s.w.screen.tau, 18) && p < D.DIGITS && k < D.SEGMENTS
    requires EverSelected(s, es, p) && !EverSelected(Run(s, es), fs, p)
    ensures var (d, e) := (Run(s, es).w.screen, Run(Run(s, es), fs).w.screen);
            var n := DecaySteps(d, Elapsed(Run(s, es), Run(Run(s, es), fs)));
            && (Intermediate(D.Relative(e, p, k)) <==>
                Partial(Fade(Energy(d, p, k), n), Fade(d.energyDigit[p], n)))
            && (d.energyDigit[p] <= n + 63 ==> D.Relative(e, p, k) == if EverLit(s, es, p, k) then 255 else 0)
  {
    hide Run, Fits, EverLit, EverSelected, EverMissed, D.StepSize, Darkened, Sound, Partial, Intermediate;
    var u, v := Run(s, es), Run(Run(s, es), fs);
    var n := DarkRun(s, es, fs, p);
    RunLights(s, es, p);
    RunCell(s, es, p, k);
    RunKeepsLive(s, es);
    RunKeepsLive(s, es + fs);
    RunOn(s, es, fs);
    DarkReads(u.w.screen, v.w.screen, p, k, Elapsed(u, v), n);
  }

  // ---------- short intervals and long times ----------

  /** An interval too short for a decay step only charges. */
  lemma NoDecay(d: D.Screen, to: nat, outA: byte, outB: byte, p: nat, k: nat)
    requires Normal(d, to) && p < D.DIGITS && k < D.SEGMENTS && d.decayAcc + (to - d.integratedTo) < D.StepSize(d.tau)
    ensures var (e, f) := (D.Advance(d, to, outA, outB), ChargedScreen(d, to, outA, outB));
            && Energy(e, p, k) == Energy(f, p, k) && e.energyDigit[p] == f.energyDigit[p]
            && e.decayAcc == d.decayAcc + (to - d.integratedTo)
  {
    hide D.Advance, ChargedScreen, Sound, Fits, D.StepSize;
    ChargeAdds(d, to, outA, outB, p, k);
    var n := IntervalFades(d, to, outA, outB);
    if n > 0 {
      AtLeast(n, 1, D.StepSize(d.tau));
    }
  }

  lemma StepsAtLeast(d: D.Screen, dt: nat, n: nat)
    requires n * D.StepSize(d.tau) <= dt
    ensures DecaySteps(d, dt) >= n
  {
    var s := D.StepSize(d.tau);
    var q := DecaySteps(d, dt);
    Floor(d.decayAcc + dt, s, q);
    if q < n {
      AtLeast(n, q + 1, s);
    }
  }

  // ---------- halted in the dark ----------

  function Steps(n: nat): seq<Event> { seq(n, _ => Exec) }

  lemma HaltedStep(s: Sys, p: nat)
    requires s.c.irq.halted && !Accepts(s.c) && p < D.DIGITS
    requires !D.Selected(s.w.screen.bit0IsLeft, s.w.ppi.outA, p)
    ensures !StepSelects(s, p)
    ensures var v := ExecOne(s);
            && v.c.irq == s.c.irq && v.w.ppi == s.w.ppi && v.w.screen.bit0IsLeft == s.w.screen.bit0IsLeft
            && v.c.cycles == s.c.cycles + 4
  {
    hide D.Advance, D.Selected;
    AdvanceKeepsSettings(s.w.screen, s.c.cycles + 4, s.w.ppi.outA, s.w.ppi.outB);
  }

  /** Such a stretch of time is what a halted processor leaves that no longer selects the digit. */
  lemma {:induction false} HaltedInTheDark(s: Sys, n: nat, p: nat)
    requires s.c.irq.halted && !Accepts(s.c) && p < D.DIGITS
    requires !D.Selected(s.w.screen.bit0IsLeft, s.w.ppi.outA, p)
    ensures !EverSelected(s, Steps(n), p) && Elapsed(s, Run(s, Steps(n))) == 4 * n
    ensures var v := Run(s, Steps(n));
            && v.c.irq == s.c.irq && v.w.ppi == s.w.ppi && v.w.screen.bit0IsLeft == s.w.screen.bit0IsLeft
            && v.c.cycles == s.c.cycles + 4 * n
  {
    hide ExecOne, D.Selected, StepSelects;
    if n > 0 {
      assert Steps(n)[..n - 1] == Steps(n - 1);
      HaltedInTheDark(s, n - 1, p);
      HaltedStep(Run(s, Steps(n - 1)), p);
    }
  }
}
