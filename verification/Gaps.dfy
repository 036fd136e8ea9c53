// A segment that was dark for part of its digit's time and is lit with the digit ever after: how the
// difference between the two energies closes, and when the segment reads 255 again.
module Gaps {
  import opened Bits
  import opened Board
  import opened Cpu
  import opened Machine
  import opened DisplayLaws
  import opened RunLaws
  import opened Ghosts
  import D = Display

  // ---------- fading a difference ----------

  lemma {:induction false} FadeIsMonotone(x: u32, y: u32, n: nat)
    requires x <= y
    ensures Fade(x, n) <= Fade(y, n)
    decreases n
  {
    if n > 0 {
      DecayIsMonotone(x, y);
      FadeIsMonotone(D.Decay(x), D.Decay(y), n - 1);
    }
  }

  /** Fading only takes away, and within as many steps leaves at most 63. */
  lemma {:induction false} FadeIsBelow(x: u32, n: nat)
    ensures Fade(x, n) <= x && (x <= n + 63 ==> Fade(x, n) <= 63)
    decreases n
  {
    if n > 0 {
      FadeIsBelow(D.Decay(x), n - 1);
    }
  }

  /** The next decay step makes two different energies equal: the larger is one more, and a multiple of 64. */
  predicate Closing(e: u32, w: u32) { w == e + 1 && w % 64 == 0 }

  lemma DecayCloses(e: u32, w: u32)
    requires e <= w
    ensures D.Decay(e) <= D.Decay(w) && D.Decay(w) - D.Decay(e) <= D.Decay(w - e)
    ensures D.Decay(e) == D.Decay(w) <==> e == w || Closing(e, w)
  {
  }

  /** One of `n` decay steps makes two different energies equal. */
  predicate ClosesWithin(e: u32, w: u32, n: nat)
    decreases n
  {
    0 < n && (Closing(e, w) || ClosesWithin(D.Decay(e), D.Decay(w), n - 1))
  }

  /** A difference fades at least as fast as an energy of its size, and vanishes exactly in a closing step. */
  lemma {:induction false} FadeCloses(e: u32, w: u32, n: nat)
    requires e <= w
    ensures Fade(e, n) <= Fade(w, n) && Fade(w, n) - Fade(e, n) <= Fade(w - e, n)
    ensures Fade(e, n) == Fade(w, n) <==> e == w || ClosesWithin(e, w, n)
    decreases n
  {
    if n > 0 {
      DecayCloses(e, w);
      FadeCloses(D.Decay(e), D.Decay(w), n - 1);
      FadeIsMonotone(D.Decay(w) - D.Decay(e), D.Decay(w - e), n - 1);
    }
  }

  // ---------- one interval ----------

  /** What the segment lacks of its digit's energy. */
  function Gap(d: D.Screen, p: nat, k: nat): u32
    requires p < D.DIGITS && k < D.SEGMENTS
  {
    if Energy(d, p, k) <= d.energyDigit[p] then d.energyDigit[p] - Energy(d, p, k) else 0
  }

  /** One of the decay steps of an interval closes the gap. */
  predicate IntervalCloses(d: D.Screen, to: nat, outA: byte, outB: byte, p: nat, k: nat)
    requires p < D.DIGITS && k < D.SEGMENTS
  {
    d.integratedTo < to &&
    var f := ChargedScreen(d, to, outA, outB);
    ClosesWithin(Energy(f, p, k), f.energyDigit[p], DecaySteps(d, to - d.integratedTo))
  }

  /** `n` decay steps in `dt` T states have narrowed the gap, and closed it if `closed`. */
  ghost predicate Narrowed(d: D.Screen, e: D.Screen, p: nat, k: nat, dt: int, n: nat, closed: bool)
    requires p < D.DIGITS && k < D.SEGMENTS
  {
    && n * D.StepSize(d.tau) + e.decayAcc == d.decayAcc + dt && e.decayAcc < D.StepSize(d.tau) && e.tau == d.tau
    && Gap(e, p, k) <= Fade(Gap(d, p, k), n)
    && (Gap(e, p, k) == 0 <==> Gap(d, p, k) == 0 || closed)
  }

  lemma NarrowedTwice(d: D.Screen, e: D.Screen, f: D.Screen, p: nat, k: nat,
                      dt: int, dt': int, m: nat, n: nat, b: bool, c: bool)
    requires p < D.DIGITS && k < D.SEGMENTS && Narrowed(d, e, p, k, dt, m, b) && Narrowed(e, f, p, k, dt', n, c)
    ensures Narrowed(d, f, p, k, dt + dt', m + n, b || c)
  {
    hide D.StepSize, Gap;
    assert (m + n) * D.StepSize(d.tau) == m * D.StepSize(d.tau) + n * D.StepSize(d.tau);
    FadeIsMonotone(Gap(e, p, k), Fade(Gap(d, p, k), m), n);
    FadeTwice(Gap(d, p, k), m, n);
  }

  /** An interval that does not miss the segment charges both alike. */
  lemma ChargeKeepsGap(d: D.Screen, to: nat, outA: byte, outB: byte, p: nat, k: nat)
    requires Normal(d, to) && p < D.DIGITS && k < D.SEGMENTS && !Missed(d.bit0IsLeft, outA, outB, p, k)
    ensures var f := ChargedScreen(d, to, outA, outB);
            && Gap(f, p, k) == Gap(d, p, k) && Energy(f, p, k) <= f.energyDigit[p]
            && f.tau == d.tau && f.decayAcc == d.decayAcc + (to - d.integratedTo)
  {
    hide D.Selected, BitAt, ChargedScreen, Sound, Fits;
    ChargeAdds(d, to, outA, outB, p, k);
    BelowDigit(d, p, k);
  }

  /** Fading narrows the gap. */
  lemma FadedNarrows(f: D.Screen, e: D.Screen, p: nat, k: nat, n: nat)
    requires p < D.DIGITS && k < D.SEGMENTS && FadedBy(f, e, n) && Energy(f, p, k) <= f.energyDigit[p]
    ensures Gap(e, p, k) <= Fade(Gap(f, p, k), n)
    ensures Gap(e, p, k) == 0 <==> Gap(f, p, k) == 0 || ClosesWithin(Energy(f, p, k), f.energyDigit[p], n)
    ensures n == f.decayAcc / D.StepSize(f.tau)
  {
    hide D.StepSize;
    FadeCloses(Energy(f, p, k), f.energyDigit[p], n);
    StepsFromTime(D.StepSize(f.tau), n, e.decayAcc, f.decayAcc);
  }

  lemma IntervalNarrows(d: D.Screen, to: nat, outA: byte, outB: byte, p: nat, k: nat) returns (n: nat)
    requires Normal(d, to) && p < D.DIGITS && k < D.SEGMENTS && !Missed(d.bit0IsLeft, outA, outB, p, k)
    ensures Narrowed(d, D.Advance(d, to, outA, outB), p, k, to - d.integratedTo, n,
                     IntervalCloses(d, to, outA, outB, p, k))
  {
    hide D.Advance, D.Selected, BitAt, ChargedScreen, Normal, D.StepSize, Missed, Gap, Energy, Fades;
    NormalIsForward(d, to);
    ChargeKeepsGap(d, to, outA, outB, p, k);
    n := IntervalFades(d, to, outA, outB);
    AdvanceKeepsSettings(d, to, outA, outB);
    FadedNarrows(ChargedScreen(d, to, outA, outB), D.Advance(d, to, outA, outB), p, k, n);
  }

  // ---------- steps and runs ----------

  /** One of the decay steps of the step closes the gap. */
  predicate StepCloses(s: Sys, p: nat, k: nat)
    requires p < D.DIGITS && k < D.SEGMENTS
  {
    var (d, now) := (s.w.screen, s.c.cycles);
    var (u, v) := (PortsAt(s, 0), PortsAt(s, OUT_WRITE_OFFSET));
    if Splits(s) then
      || IntervalCloses(d, now + 7, u.outA, u.outB, p, k)
      || IntervalCloses(D.Advance(d, now + 7, u.outA, u.outB), now + 10, v.outA, v.outB, p, k)
    else
      IntervalCloses(d, now + RunLaws.Cost(s), u.outA, u.outB, p, k)
  }

  predicate RunCloses(s: Sys, es: seq<Event>, p: nat, k: nat)
    requires p < D.DIGITS && k < D.SEGMENTS
  {
    es != [] && (RunCloses(s, es[..|es| - 1], p, k) || (es[|es| - 1].Exec? && StepCloses(Before(s, es), p, k)))
  }

  lemma StepNarrows(s: Sys, tau: u32, left: bool, p: nat, k: nat) returns (n: nat)
    requires Live(s, tau, left) && Fits(tau, 18) && p < D.DIGITS && k < D.SEGMENTS && !StepMissed(s, p, k)
    ensures Narrowed(s.w.screen, ExecOne(s).w.screen, p, k, ExecOne(s).c.cycles - s.c.cycles, n, StepCloses(s, p, k))
    ensures s.c.cycles <= ExecOne(s).c.cycles
  {
    hide ExecOne, D.Advance, Missed, PortsAt, Splits, Normal, Sound, Fits, RunLaws.Cost, Narrowed, IntervalCloses;
    StepIsNormal(s, tau, left);
    TwoPorts(s, OUT_WRITE_OFFSET);
    var d, now := s.w.screen, s.c.cycles;
    var u, v := PortsAt(s, 0), PortsAt(s, OUT_WRITE_OFFSET);
    assert !Missed(left, u.outA, u.outB, p, k);
    if Splits(s) {
      assert !Missed(left, v.outA, v.outB, p, k);
      var e := D.Advance(d, now + 7, u.outA, u.outB);
      var n1 := IntervalNarrows(d, now + 7, u.outA, u.outB, p, k);
      var n2 := IntervalNarrows(e, now + 10, v.outA, v.outB, p, k);
      NarrowedTwice(d, e, ExecOne(s).w.screen, p, k, 7, 3, n1, n2,
                    IntervalCloses(d, now + 7, u.outA, u.outB, p, k),
                    IntervalCloses(e, now + 10, v.outA, v.outB, p, k));
      n := n1 + n2;
    } else {
      n := IntervalNarrows(d, now + RunLaws.Cost(s), u.outA, u.outB, p, k);
    }
  }

  lemma NarrowedNot(d: D.Screen, p: nat, k: nat)
    requires p < D.DIGITS && k < D.SEGMENTS && d.decayAcc < D.StepSize(d.tau)
    ensures Narrowed(d, d, p, k, 0, 0, false)
  {
  }

  lemma {:induction false} RunNarrows(s: Sys, es: seq<Event>, fs: seq<Event>, p: nat, k: nat) returns (n: nat)
    requires JustCleared(s) && Fits(s.w.screen.tau, 18) && p < D.DIGITS && k < D.SEGMENTS
    requires !EverMissed(Run(s, es), fs, p, k)
    ensures var (u, v) := (Run(s, es), Run(Run(s, es), fs));
            && Narrowed(u.w.screen, v.w.screen, p, k, v.c.cycles - u.c.cycles, n, RunCloses(u, fs, p, k))
            && u.c.cycles <= v.c.cycles
  {
    hide ExecOne, Live, Fits, Narrowed, StepMissed, StepCloses, JustCleared, Poke;
    var u, tau, left := Run(s, es), s.w.screen.tau, s.w.screen.bit0IsLeft;
    if fs == [] {
      RunKeepsLive(s, es);
      LiveIsSettled(u, tau, left);
      NarrowedNot(u.w.screen, p, k);
      n := 0;
    } else {
      var gs := fs[..|fs| - 1];
      n := RunNarrows(s, es, gs, p, k);
      var v := Run(u, gs);
      if fs[|fs| - 1].Exec? {
        RunOn(s, es, gs);
        RunKeepsLive(s, es + gs);
        var m := StepNarrows(v, tau, left, p, k);
        var t := ExecOne(v);
        NarrowedTwice(u.w.screen, v.w.screen, t.w.screen, p, k, v.c.cycles - u.c.cycles, t.c.cycles - v.c.cycles, n, m,
                      RunCloses(u, gs, p, k), StepCloses(v, p, k));
        n := n + m;
      } else {
        OtherEvents(v, fs[|fs| - 1]);
      }
    }
  }

  /**
   * Ghosts shrink. Let a segment be lit whenever its digit is, from some point of a run on, whatever went
   * before. What it lacks of its digit's energy never grows, fades at least as fast as an energy of that
   * size, is at most 63 after as many decay steps, and vanishes exactly in a step that finds the segment one
   * below a multiple of 64. Only then, and for good, does the segment read 255.
   */
  lemma GhostsShrink(s: Sys, es: seq<Event>, fs: seq<Event>, p: nat, k: nat)
    requires JustCleared(s) && Fits(s.w.screen.tau, 18) && p < D.DIGITS && k < D.SEGMENTS
    requires !EverMissed(Run(s, es), fs, p, k)
    ensures var (u, v) := (Run(s, es), Run(Run(s, es), fs));
            var (d, e) := (u.w.screen, v.w.screen);
            var n := DecaySteps(d, Elapsed(u, v));
            && Gap(e, p, k) <= Fade(Gap(d, p, k), n) <= Gap(d, p, k)
            && (Gap(d, p, k) <= n + 63 ==> Gap(e, p, k) <= 63)
            && (Gap(e, p, k) == 0 <==> Gap(d, p, k) == 0 || RunCloses(u, fs, p, k))
            && (EverSelected(s, es + fs, p) ==> (D.Relative(e, p, k) == 255 <==> Gap(e, p, k) == 0))
  {
    hide Run, Fits, EverMissed, EverSelected, RunCloses, D.StepSize, Sound, D.Relative;
    var u, v := Run(s, es), Run(Run(s, es), fs);
    var n := RunNarrows(s, es, fs, p, k);
    StepsFromTime(D.StepSize(u.w.screen.tau), n, v.w.screen.decayAcc, u.w.screen.decayAcc + Elapsed(u, v));
    FadeIsBelow(Gap(u.w.screen, p, k), n);
    RunOn(s, es, fs);
    RunKeepsLive(s, es + fs);
    RunLights(s, es + fs, p);
    BelowDigit(v.w.screen, p, k);
    if v.w.screen.energyDigit[p] > 0 {
      ReadsShare(v.w.screen, p, k);
    }
  }
}
