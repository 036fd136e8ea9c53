// What the panel shows: exact brightness, which digit a selection lights, and when the panel goes dark.
module Brightness {
  import opened Bits
  import opened BitLaws
  import opened Board
  import opened Cpu
  import opened Machine
  import opened DisplayLaws
  import opened RunLaws
  import opened Ghosts
  import D = Display

  // ---------- readings ----------

  /** The two brightnesses are the segment's share of the window and of its digit, in 255ths, rounded down. */
  lemma ReadingsAreShares(d: D.Screen, p: nat, k: nat)
    requires Sound(d) && p < D.DIGITS && k < D.SEGMENTS
    ensures var (e, q) := (d.energy[8 * p + k] as int, D.Intensity(d, p, k) as int);
            if d.total == 0 then q == 0 else q * d.total <= 255 * e < (q + 1) * d.total
    ensures var (e, q) := (d.energy[8 * p + k] as int, D.Relative(d, p, k) as int);
            if d.energyDigit[p] == 0 then q == 0 else q * d.energyDigit[p] <= 255 * e < (q + 1) * d.energyDigit[p]
  {
    ClampsNeverFire(d, p, k);
    if d.total > 0 {
      Floored(255 * d.energy[8 * p + k] as int, d.total);
    }
    if d.energyDigit[p] > 0 {
      Floored(255 * d.energy[8 * p + k] as int, d.energyDigit[p]);
    }
  }

  lemma Floored(x: nat, w: nat)
    requires 0 < w
    ensures x / w * w <= x < (x / w + 1) * w
  {
    Floor(x, w, x / w);
    assert (x / w + 1) * w == x / w * w + w;
  }

  /** Bit k of the pattern is set exactly if the segment's relative brightness exceeds the threshold. */
  lemma PatternIsThreshold(d: D.Screen, threshold: byte, p: nat, k: nat)
    requires p < D.DIGITS && k < D.SEGMENTS
    ensures BitAt(D.Pattern(d, threshold, p), k) <==> D.Relative(d, p, k) > threshold
  {
    hide D.Relative;
    BitsOfBitSum(seq(D.SEGMENTS, s requires 0 <= s < D.SEGMENTS => D.Relative(d, p, s) > threshold), k);
  }

  // ---------- brightness over runs ----------

  /** Every T state of the step lights the segment. */
  predicate StepLights(s: Sys, p: nat, k: nat)
    requires p < D.DIGITS
  {
    forall t :: 0 <= t < RunLaws.Cost(s) ==>
      Lit(s.w.screen.bit0IsLeft, PortsAt(s, t).outA, PortsAt(s, t).outB, p, k)
  }

  predicate AlwaysLit(s: Sys, es: seq<Event>, p: nat, k: nat)
    requires p < D.DIGITS
  {
    es == [] || (AlwaysLit(s, es[..|es| - 1], p, k) && (es[|es| - 1].Exec? ==> StepLights(Before(s, es), p, k)))
  }

  /** Some instruction has run. */
  predicate Ran(es: seq<Event>) { exists i :: 0 <= i < |es| && es[i].Exec? }

  /** What an interval leaves of the whole: some energy, and all of it in a segment that had it and stayed lit. */
  ghost predicate Whole(d: D.Screen, e: D.Screen, p: nat, k: nat, always: bool)
    requires p < D.DIGITS && k < D.SEGMENTS
  {
    && Alive(e.total) && e.total > 0
    && (always && Energy(d, p, k) == d.total ==> Energy(e, p, k) == e.total)
  }

  lemma IntervalWhole(d: D.Screen, to: nat, outA: byte, outB: byte, p: nat, k: nat)
    requires Normal(d, to) && p < D.DIGITS && k < D.SEGMENTS && Alive(d.total)
    ensures Whole(d, D.Advance(d, to, outA, outB), p, k, Lit(d.bit0IsLeft, outA, outB, p, k))
  {
    hide D.Advance, D.Selected, BitAt, ChargedScreen, Normal;
    NormalIsForward(d, to);
    ChargeAdds(d, to, outA, outB, p, k);
    var n := IntervalFades(d, to, outA, outB);
    FadeEnds(ChargedScreen(d, to, outA, outB).total, n);
  }

  lemma StepWhole(s: Sys, tau: u32, left: bool, p: nat, k: nat)
    requires Live(s, tau, left) && Fits(tau, 18) && p < D.DIGITS && k < D.SEGMENTS && Alive(s.w.screen.total)
    ensures Whole(s.w.screen, ExecOne(s).w.screen, p, k, StepLights(s, p, k))
  {
    hide ExecOne, D.Advance, Lit, PortsAt, Energy, Splits, Normal, Sound, Fits, RunLaws.Cost;
    StepIsNormal(s, tau, left);
    TwoPorts(s, OUT_WRITE_OFFSET);
    var d, now := s.w.screen, s.c.cycles;
    var u, v := PortsAt(s, 0), PortsAt(s, OUT_WRITE_OFFSET);
    assert StepLights(s, p, k) ==> Lit(left, u.outA, u.outB, p, k);
    if Splits(s) {
      assert StepLights(s, p, k) ==> Lit(left, v.outA, v.outB, p, k);
      IntervalWhole(d, now + 7, u.outA, u.outB, p, k);
      IntervalWhole(D.Advance(d, now + 7, u.outA, u.outB), now + 10, v.outA, v.outB, p, k);
    } else {
      IntervalWhole(d, now + RunLaws.Cost(s), u.outA, u.outB, p, k);
    }
  }

  lemma {:induction false} RunWhole(s: Sys, es: seq<Event>, p: nat, k: nat)
    requires JustCleared(s) && Fits(s.w.screen.tau, 18) && p < D.DIGITS && k < D.SEGMENTS
    ensures var d := Run(s, es).w.screen;
            && Alive(d.total) && (d.total > 0 <==> Ran(es))
            && (AlwaysLit(s, es, p, k) ==> Energy(d, p, k) == d.total)
  {
    hide ExecOne, StepLights, Poke, Fits, Live;
    if es != [] {
      var n := |es| - 1;
      RunWhole(s, es[..n], p, k);
      RunKeepsLive(s, es[..n]);
      RanSplits(es);
      if es[n].Exec? {
        StepWhole(Before(s, es), s.w.screen.tau, s.w.screen.bit0IsLeft, p, k);
      } else {
        OtherEvents(Before(s, es), es[n]);
      }
    }
  }

  lemma RanSplits(es: seq<Event>)
    requires es != []
    ensures Ran(es) <==> Ran(es[..|es| - 1]) || es[|es| - 1].Exec?
  {
    var fs := es[..|es| - 1];
    if Ran(es) {
      var i :| 0 <= i < |es| && es[i].Exec?;
      assert i < |es| - 1 ==> fs[i].Exec?;
    }
    if Ran(fs) {
      var i :| 0 <= i < |fs| && fs[i].Exec?;
      assert es[i].Exec?;
    }
  }

  /**
   * Absolute brightness over any run since the window was cleared: 255 exactly while the segment has all
   * the energy of the window, so if it was lit at every T state, and 0 if it was never lit.
   */
  lemma IntensityOverRuns(s: Sys, es: seq<Event>, p: nat, k: nat)
    requires JustCleared(s) && Fits(s.w.screen.tau, 18) && p < D.DIGITS && k < D.SEGMENTS && Ran(es)
    ensures var d := Run(s, es).w.screen;
            && (D.Intensity(d, p, k) == 255 <==> Energy(d, p, k) == d.total)
            && (AlwaysLit(s, es, p, k) ==> D.Intensity(d, p, k) == 255)
            && (!EverLit(s, es, p, k) ==> D.Intensity(d, p, k) == 0)
  {
    hide Run, EverLit, AlwaysLit, Fits, D.Intensity;
    var d := Run(s, es).w.screen;
    RunWhole(s, es, p, k);
    RunKeepsLive(s, es);
    SegmentReads(s, es, p, k);
    BelowTotal(d, p, k);
    FromShare(d, p, k);
  }

  lemma BelowTotal(d: D.Screen, p: nat, k: nat)
    requires Sound(d) && p < D.DIGITS && k < D.SEGMENTS
    ensures Energy(d, p, k) <= d.total
  {
    BelowDigit(d, p, k);
  }

  lemma FromShare(d: D.Screen, p: nat, k: nat)
    requires Sound(d) && p < D.DIGITS && k < D.SEGMENTS && d.total > 0 && Energy(d, p, k) <= d.total
    ensures D.Intensity(d, p, k) == 255 <==> Energy(d, p, k) == d.total
    ensures Energy(d, p, k) == 0 ==> D.Intensity(d, p, k) == 0
  {
    ClampsNeverFire(d, p, k);
    hide Sound;
    Share(Energy(d, p, k), d.total);
  }

  // ---------- which digit ----------

  /** One column alone lights one digit: counted from the left, or from the right in the other order. */
  lemma OneColumn(left: bool, j: nat, p: nat)
    requires j < D.DIGITS && p < D.DIGITS
    ensures Pow2(j) < 256
    ensures D.Selected(left, Pow2(j), p) <==> if left then p == j else p + j == 5
  {
    LowPowers();
    PowerBit(j, D.Place(left, p));
    match j
    case 0 => case 1 => case 2 => case 3 => case 4 => case _ =>
  }

  /** The same panel seen from the other side. */
  ghost predicate Mirrored(d: D.Screen, e: D.Screen)
  {
    && e == d.(bit0IsLeft := !d.bit0IsLeft, energy := e.energy, energyDigit := e.energyDigit)
    && (forall p: nat, k: nat :: p < 6 && k < 8 ==> Energy(e, p, k) == Energy(d, 5 - p, k))
    && (forall p: nat :: p < 6 ==> e.energyDigit[p] == d.energyDigit[5 - p])
  }

  lemma MirrorSelects(left: bool, sel: byte, p: nat)
    requires p < D.DIGITS
    ensures D.Selected(!left, sel, p) <==> D.Selected(left, sel, 5 - p)
  {
  }

  lemma ChargeMirrors(d: D.Screen, e: D.Screen, dt: D.Interval32, sel: byte, seg: byte)
    requires Mirrored(d, e)
    ensures Mirrored(D.Charge(d, dt, sel, seg), D.Charge(e, dt, sel, seg))
  {
    hide D.Selected, BitAt;
    var f, g := D.Charge(d, dt, sel, seg), D.Charge(e, dt, sel, seg);
    forall p: nat, k: nat | p < 6 && k < 8 ensures Energy(g, p, k) == Energy(f, 5 - p, k) {
      MirrorSelects(d.bit0IsLeft, sel, p);
      assert (8 * p + k) / 8 == p && (8 * p + k) % 8 == k;
      assert (8 * (5 - p) + k) / 8 == 5 - p && (8 * (5 - p) + k) % 8 == k;
      assert Energy(e, p, k) == Energy(d, 5 - p, k);
    }
    forall p: nat | p < 6 ensures g.energyDigit[p] == f.energyDigit[5 - p] {
      MirrorSelects(d.bit0IsLeft, sel, p);
    }
  }

  lemma {:induction false} LoopMirrors(d: D.Screen, e: D.Screen, steps: nat)
    requires Mirrored(d, e)
    ensures Mirrored(D.DecayLoop(d, steps).0, D.DecayLoop(e, steps).0)
    ensures D.DecayLoop(d, steps).1 == D.DecayLoop(e, steps).1
    decreases d.decayAcc
  {
    hide D.StepSize, D.DecayAll, D.DecayLoop, Energy;
    LoopTurns(d, steps);
    LoopTurns(e, steps);
    if d.decayAcc >= D.StepSize(d.tau) && steps < D.MAX_STEPS {
      var f := D.DecayAll(d.(decayAcc := d.decayAcc - D.StepSize(d.tau)));
      var g := D.DecayAll(e.(decayAcc := e.decayAcc - D.StepSize(e.tau)));
      DecayMirrors(d, e);
      LoopMirrors(f, g, steps + 1);
    }
  }

  lemma DecayMirrors(d: D.Screen, e: D.Screen)
    requires Mirrored(d, e) && d.decayAcc >= D.StepSize(d.tau)
    ensures var s := D.StepSize(d.tau);
            Mirrored(D.DecayAll(d.(decayAcc := d.decayAcc - s)), D.DecayAll(e.(decayAcc := e.decayAcc - s)))
  {
    hide D.Decay, D.StepSize;
    var s := D.StepSize(d.tau);
    var f, g := D.DecayAll(d.(decayAcc := d.decayAcc - s)), D.DecayAll(e.(decayAcc := e.decayAcc - s));
    forall p: nat, k: nat | p < 6 && k < 8 ensures Energy(g, p, k) == Energy(f, 5 - p, k) {
      assert Energy(e, p, k) == Energy(d, 5 - p, k);
    }
  }

  lemma TimeMirrors(d: D.Screen, e: D.Screen, to: nat)
    requires Mirrored(d, e)
    ensures Mirrored(d.(integratedTo := to), e.(integratedTo := to))
  {
    var f, g := d.(integratedTo := to), e.(integratedTo := to);
    forall p: nat, k: nat | p < 6 && k < 8 ensures Energy(g, p, k) == Energy(f, 5 - p, k) {
      assert Energy(e, p, k) == Energy(d, 5 - p, k);
    }
  }

  lemma DarkMirrors(d: D.Screen, e: D.Screen)
    requires Mirrored(d, e)
    ensures Mirrored(D.Dark(d), D.Dark(e))
  {
  }

  /** Under the other digit order every interval shows the mirror image of the panel. */
  lemma OrderMirrors(d: D.Screen, e: D.Screen, to: nat, outA: byte, outB: byte, p: nat, k: nat)
    requires Mirrored(d, e) && p < D.DIGITS && k < D.SEGMENTS
    ensures var (f, g) := (D.Advance(d, to, outA, outB), D.Advance(e, to, outA, outB));
            && Mirrored(f, g)
            && D.Relative(g, p, k) == D.Relative(f, 5 - p, k) && D.Intensity(g, p, k) == D.Intensity(f, 5 - p, k)
  {
    hide D.Brightness;
    if d.integratedTo < to {
      hide D.Charge, D.DecayLoop;
      var dt := D.Clamped(to - d.integratedTo);
      var f, g := d.(integratedTo := to), e.(integratedTo := to);
      TimeMirrors(d, e, to);
      ChargeMirrors(f, g, dt, outA, outB);
      LoopMirrors(D.Charge(f, dt, outA, outB), D.Charge(g, dt, outA, outB), 0);
      DarkMirrors(D.DecayLoop(D.Charge(f, dt, outA, outB), 0).0, D.DecayLoop(D.Charge(g, dt, outA, outB), 0).0);
    }
    ReadingsMirror(D.Advance(d, to, outA, outB), D.Advance(e, to, outA, outB), p, k);
  }

  lemma ReadingsMirror(f: D.Screen, g: D.Screen, p: nat, k: nat)
    requires Mirrored(f, g) && p < D.DIGITS && k < D.SEGMENTS
    ensures D.Relative(g, p, k) == D.Relative(f, 5 - p, k) && D.Intensity(g, p, k) == D.Intensity(f, 5 - p, k)
  {
    hide D.Brightness;
    assert Energy(g, p, k) == Energy(f, 5 - p, k);
  }

  // ---------- long silences ----------

  /** An interval longer than 2^20 T states counts as 2^20. */
  lemma LongIsClamped(d: D.Screen, to: nat, outA: byte, outB: byte)
    requires d.integratedTo + 1048576 < to
    ensures D.Advance(d, to, outA, outB) ==
            D.Advance(d.(integratedTo := to - 1048576), to, outA, outB)
  {
    hide D.Settle, D.Charge;
  }

  /**
   * Blackout. An interval that brings 512 decay steps due leaves the panel completely dark; a shorter
   * one leaves the charged energies faded, as often as steps are due, and nothing dark that was lit.
   */
  lemma BlackoutAt512(d: D.Screen, to: nat, outA: byte, outB: byte) returns (n: nat)
    requires d.integratedTo < to <= d.integratedTo + 1048576 && d.decayAcc + (to - d.integratedTo) < U32
    ensures var (e, f) := (D.Advance(d, to, outA, outB), ChargedScreen(d, to, outA, outB));
            var due := (d.decayAcc + (to - d.integratedTo)) / D.StepSize(d.tau);
            if due >= 512 then
              && (forall i :: 0 <= i < 48 ==> e.energy[i] == 0) && (forall p :: 0 <= p < 6 ==> e.energyDigit[p] == 0)
              && e.total == 0 && e.decayAcc == 0 && e.tau == d.tau && e.integratedTo == to
            else
              n == due && FadedBy(f, e, n)
  {
    hide D.DecayLoop, D.StepSize;
    var s := D.StepSize(d.tau);
    var f := ChargedScreen(d, to, outA, outB);
    ChargeKeepsSettings(d, to, outA, outB);
    hide D.Charge, ChargedScreen;
    n := LoopFades(f, 0);
    LoopKeepsSettings(f, 0);
    var rest := D.DecayLoop(f, 0).0.decayAcc;
    DueOrMore(s, n, rest, f.decayAcc, 512);
    if n < 512 {
      StepsFromTime(s, n, rest, f.decayAcc);
    }
    LoopStops(f, 0);
  }

  lemma ChargeKeepsSettings(d: D.Screen, to: nat, outA: byte, outB: byte)
    requires d.integratedTo < to <= d.integratedTo + 1048576 && d.decayAcc + (to - d.integratedTo) < U32
    ensures var f := ChargedScreen(d, to, outA, outB);
            && f.tau == d.tau && f.bit0IsLeft == d.bit0IsLeft && f.integratedTo == to
            && f.decayAcc == d.decayAcc + (to - d.integratedTo)
  {
  }

  lemma {:induction false} LoopStops(d: D.Screen, steps: nat)
    requires steps <= D.MAX_STEPS
    ensures D.DecayLoop(d, steps).1 <= D.MAX_STEPS
    decreases d.decayAcc
  {
    hide D.StepSize, D.DecayAll;
    LoopTurns(d, steps);
    if d.decayAcc >= D.StepSize(d.tau) && steps < D.MAX_STEPS {
      LoopStops(D.DecayAll(d.(decayAcc := d.decayAcc - D.StepSize(d.tau))), steps + 1);
    }
  }

  /** With fewer than `most` steps done the time left over was less than that. */
  lemma DueOrMore(s: nat, n: nat, rest: nat, time: nat, most: nat)
    requires 0 < s && n * s + rest == time
    ensures n >= most ==> time / s >= most
    ensures n < most && rest < s ==> time / s < most
  {
    var q := time / s;
    Floor(time, s, q);
    if n >= most && q < most {
      AtLeastTimes(n, q + 1, s);
    } else if n < most && q >= most {
      AtLeastTimes(q, n + 1, s);
    }
  }

  lemma AtLeastTimes(q: nat, c: nat, w: nat)
    requires q >= c
    ensures q * w >= c * w
  {
    Ghosts.AtLeast(q, c, w);
  }

  /** The step of a decay is tau / 64 T states, but at least one. */
  lemma StepIsSixtyFourth(tau: u32)
    ensures 64 * D.StepSize(tau) <= tau < 64 * (D.StepSize(tau) + 1) || (tau < 64 && D.StepSize(tau) == 1)
  {
  }
}
