// What the integrator guarantees: ordered energies under a tight bound, no 32-bit wrap, exact
// patterns for clean multiplexing, and one digit's worth of light for one-hot selection.
module DisplayLaws {
  import opened Bits
  import opened BitLaws
  import opened Display

  lemma DecayIsMonotone(x: u32, y: u32)
    requires x <= y
    ensures Decay(x) <= Decay(y)
    ensures 0 < x ==> 0 < Decay(x)
  {
  }

  // ---------- ordering and bound ----------

  /** No cell outshines its digit, and no digit outshines the window. */
  ghost predicate Ordered(d: Screen)
  {
    && (forall i :: 0 <= i < CELLS ==> d.energy[i] <= d.energyDigit[i / 8])
    && (forall p :: 0 <= p < DIGITS ==> d.energyDigit[p] <= d.total)
  }

  ghost predicate Bounded(d: Screen)
  {
    d.total <= 256 * (63 * StepSize(d.tau) + d.decayAcc)
  }

  ghost predicate Sound(d: Screen)
  {
    Ordered(d) && Bounded(d) && d.decayAcc < StepSize(d.tau)
  }

  /** The largest step size for which an interval of `dt` T states cannot wrap any counter. */
  predicate Fits(tau: u32, dt: nat)
  {
    64 * StepSize(tau) + dt <= 0x100_0000
  }

  lemma NothingWraps(d: Screen, dt: Interval32)
    requires Sound(d) && Fits(d.tau, dt)
    ensures d.total + dt * 256 < U32 && d.decayAcc + dt < U32
    ensures forall p :: 0 <= p < DIGITS ==> d.energyDigit[p] + dt * 256 < U32
    ensures forall i :: 0 <= i < CELLS ==> d.energy[i] + dt * 256 < U32
  {
    forall i | 0 <= i < CELLS ensures d.energy[i] <= d.total {
      assert d.energyDigit[i / 8] <= d.total;
    }
  }

  /** The fields after a charge. */
  lemma ChargeParts(d: Screen, dt: Interval32, sel: byte, seg: byte)
    ensures var f := Charge(d, dt, sel, seg);
            && (forall i :: 0 <= i < CELLS ==> f.energy[i] == ChargeCell(d, i, dt, sel, seg))
            && (forall p :: 0 <= p < DIGITS ==> f.energyDigit[p] == ChargeDigit(d, p, dt, sel))
            && f.total == Energise(d.total, dt) && f.decayAcc == Add32(d.decayAcc, dt) && f.tau == d.tau
  {
    hide ChargeCell, ChargeDigit;
  }

  lemma DigitCharged(d: Screen, p: nat, dt: Interval32, sel: byte)
    requires p < DIGITS && d.energyDigit[p] + dt * 256 < U32
    ensures ChargeDigit(d, p, dt, sel) == d.energyDigit[p] + if Selected(d.bit0IsLeft, sel, p) then dt * 256 else 0
  {
  }

  /** Where nothing wraps, a cell gains what its digit does, or nothing. */
  lemma CellCharged(d: Screen, i: nat, dt: Interval32, sel: byte, seg: byte)
    requires i < CELLS && d.energy[i] <= d.energyDigit[i / 8] && d.energyDigit[i / 8] + dt * 256 < U32
    ensures ChargeCell(d, i, dt, sel, seg) <= ChargeDigit(d, i / 8, dt, sel)
  {
    hide Selected, BitAt;
  }

  lemma ChargeKeeps(d: Screen, dt: Interval32, sel: byte, seg: byte)
    requires Sound(d) && Fits(d.tau, dt)
    ensures Ordered(Charge(d, dt, sel, seg)) && Bounded(Charge(d, dt, sel, seg))
  {
    hide Fits, Charge, ChargeCell, ChargeDigit, Selected, StepSize;
    NothingWraps(d, dt);
    ChargeParts(d, dt, sel, seg);
    forall i | 0 <= i < CELLS ensures ChargeCell(d, i, dt, sel, seg) <= ChargeDigit(d, i / 8, dt, sel) {
      CellCharged(d, i, dt, sel, seg);
    }
    forall p | 0 <= p < DIGITS ensures ChargeDigit(d, p, dt, sel) <= Energise(d.total, dt) {
      DigitCharged(d, p, dt, sel);
    }
  }

  lemma DecayKeeps(d: Screen)
    requires Ordered(d) && Bounded(d) && d.decayAcc >= StepSize(d.tau)
    ensures var d' := DecayAll(d.(decayAcc := d.decayAcc - StepSize(d.tau)));
            Ordered(d') && Bounded(d')
  {
  }

  lemma {:induction false} LoopKeeps(d: Screen, steps: nat)
    requires steps <= MAX_STEPS
    requires Ordered(d) && Bounded(d)
    ensures var (d', n) := DecayLoop(d, steps);
            && Ordered(d') && Bounded(d') && n <= MAX_STEPS && d'.tau == d.tau
            && (n < MAX_STEPS ==> d'.decayAcc < StepSize(d.tau))
    decreases d.decayAcc
  {
    var s := StepSize(d.tau);
    if d.decayAcc >= s && steps < MAX_STEPS {
      DecayKeeps(d);
      LoopKeeps(DecayAll(d.(decayAcc := d.decayAcc - s)), steps + 1);
    }
  }

  /** Main invariant: one call of the integrator, any interval, any ports. */
  lemma AdvanceKeepsSound(d: Screen, to: nat, outA: byte, outB: byte)
    requires Sound(d)
    requires d.integratedTo < to ==> Fits(d.tau, Clamped(to - d.integratedTo))
    ensures Sound(Advance(d, to, outA, outB))
    ensures d.integratedTo < to ==> d.total + 256 * Clamped(to - d.integratedTo) < U32
  {
    if d.integratedTo < to {
      var e := d.(integratedTo := to);
      var dt := Clamped(to - d.integratedTo);
      NothingWraps(d, dt);
      ChargeKeeps(e, dt, outA, outB);
      LoopKeeps(Charge(e, dt, outA, outB), 0);
    }
  }

  /** The brightness clamps never act: the plain quotients already fit. */
  lemma ClampsNeverFire(d: Screen, p: nat, s: nat)
    requires Sound(d) && p < DIGITS && s < SEGMENTS
    ensures d.total != 0 ==> d.energy[8 * p + s] as int * 255 / d.total <= 255
    ensures d.energyDigit[p] != 0 ==> d.energy[8 * p + s] as int * 255 / d.energyDigit[p] <= 255
  {
    var i := 8 * p + s;
    assert i / 8 == p;
    assert d.energy[i] <= d.energyDigit[p] <= d.total;
    if d.energyDigit[p] != 0 {
      QuotientBelow(d.energy[i], d.energyDigit[p]);
      QuotientBelow(d.energy[i], d.total);
    }
  }

  lemma QuotientBelow(e: nat, whole: nat)
    requires e <= whole && 0 < whole
    ensures e * 255 / whole <= 255
  {
    assert e * 255 <= whole * 255;
  }

  // ---------- clean multiplexing ----------

  type Masks = p: seq<byte> | |p| == DIGITS witness seq(6, _ => 0)

  /** Every cell of digit p has the digit's own energy if P[p] has its segment, and none otherwise. */
  ghost predicate Clean(d: Screen, P: Masks)
  {
    forall i :: 0 <= i < CELLS ==>
      d.energy[i] == if BitAt(P[i / 8], i % 8) then d.energyDigit[i / 8] else 0
  }

  /** Port B carries the mask of every digit that port A selects. */
  predicate CleanPorts(bit0IsLeft: bool, P: Masks, outA: byte, outB: byte)
  {
    forall p :: 0 <= p < DIGITS && Selected(bit0IsLeft, outA, p) ==> outB == P[p]
  }

  lemma {:induction false} LoopKeepsClean(d: Screen, steps: nat, P: Masks)
    requires Clean(d, P)
    ensures Clean(DecayLoop(d, steps).0, P)
    decreases d.decayAcc
  {
    var s := StepSize(d.tau);
    if d.decayAcc >= s && steps < MAX_STEPS {
      var e := DecayAll(d.(decayAcc := d.decayAcc - s));
      assert Clean(e, P);
      LoopKeepsClean(e, steps + 1, P);
    }
  }

  lemma AdvanceKeepsClean(d: Screen, to: nat, outA: byte, outB: byte, P: Masks)
    requires Clean(d, P)
    requires d.integratedTo < to ==> CleanPorts(d.bit0IsLeft, P, outA, outB)
    ensures Clean(Advance(d, to, outA, outB), P)
  {
    if d.integratedTo < to {
      var e := d.(integratedTo := to);
      var dt := Clamped(to - d.integratedTo);
      var f := Charge(e, dt, outA, outB);
      assert Clean(f, P);
      LoopKeepsClean(f, 0, P);
    }
  }

  /** Fewer T states than this since the last call can not black the panel out. */
  predicate Short(tau: u32, dt: nat)
  {
    dt < (MAX_STEPS - 1) * StepSize(tau)
  }

  lemma {:induction false} FewSteps(d: Screen, steps: nat)
    requires steps < MAX_STEPS
    requires d.decayAcc < (MAX_STEPS - steps) * StepSize(d.tau)
    ensures DecayLoop(d, steps).1 < MAX_STEPS
    decreases d.decayAcc
  {
    var s := StepSize(d.tau);
    if d.decayAcc >= s {
      assert (MAX_STEPS - steps) * s == (MAX_STEPS - (steps + 1)) * s + s;
      FewSteps(DecayAll(d.(decayAcc := d.decayAcc - s)), steps + 1);
    }
  }

  lemma {:induction false} LoopKeepsLit(d: Screen, steps: nat, p: nat)
    requires p < DIGITS && d.energyDigit[p] > 0
    ensures DecayLoop(d, steps).0.energyDigit[p] > 0
    decreases d.decayAcc
  {
    var s := StepSize(d.tau);
    if d.decayAcc >= s && steps < MAX_STEPS {
      DecayIsMonotone(d.energyDigit[p], d.energyDigit[p]);
      LoopKeepsLit(DecayAll(d.(decayAcc := d.decayAcc - s)), steps + 1, p);
    }
  }

  /** A digit selected now, or lit before, is lit afterwards: energy decays but never to zero. */
  lemma AdvanceKeepsLit(d: Screen, to: nat, outA: byte, outB: byte, p: nat)
    requires Sound(d) && p < DIGITS
    requires d.integratedTo < to ==>
      Fits(d.tau, to - d.integratedTo) && Short(d.tau, to - d.integratedTo)
    requires d.energyDigit[p] > 0 || (d.integratedTo < to && Selected(d.bit0IsLeft, outA, p))
    ensures Advance(d, to, outA, outB).energyDigit[p] > 0
  {
    hide DecayLoop, BitAt, Place, ChargeCell;
    if d.integratedTo < to {
      var e := d.(integratedTo := to);
      var dt := Clamped(to - d.integratedTo);
      NothingWraps(e, dt);
      var f := Charge(e, dt, outA, outB);
      DigitCharged(e, p, dt, outA);
      hide Selected, ChargeDigit, Sound, Fits;
      FewSteps(f, 0);
      LoopKeepsLit(f, 0, p);
    }
  }

  lemma {:induction false} LoopKeepsUnlit(d: Screen, steps: nat, p: nat)
    requires p < DIGITS && d.energyDigit[p] == 0
    ensures DecayLoop(d, steps).0.energyDigit[p] == 0
    decreases d.decayAcc
  {
    var s := StepSize(d.tau);
    if d.decayAcc >= s && steps < MAX_STEPS {
      LoopKeepsUnlit(DecayAll(d.(decayAcc := d.decayAcc - s)), steps + 1, p);
    }
  }

  lemma AdvanceKeepsUnlit(d: Screen, to: nat, outA: byte, outB: byte, p: nat)
    requires p < DIGITS && d.energyDigit[p] == 0
    requires d.integratedTo < to ==> !Selected(d.bit0IsLeft, outA, p)
    ensures Advance(d, to, outA, outB).energyDigit[p] == 0
  {
    if d.integratedTo < to {
      var e := d.(integratedTo := to);
      LoopKeepsUnlit(Charge(e, Clamped(to - d.integratedTo), outA, outB), 0, p);
    }
  }

  /** A clean lit digit reads exactly its mask, whatever the threshold; an unlit one reads 0. */
  lemma CleanReadsExactly(d: Screen, P: Masks, p: nat, threshold: byte)
    requires Clean(d, P) && p < DIGITS && threshold < 255
    ensures d.energyDigit[p] > 0 ==> forall s :: 0 <= s < SEGMENTS ==>
              Relative(d, p, s) == if BitAt(P[p], s) then 255 else 0
    ensures Pattern(d, threshold, p) == if d.energyDigit[p] > 0 then P[p] else 0
  {
    var w := d.energyDigit[p];
    forall s | 0 <= s < SEGMENTS
      ensures Relative(d, p, s) == if w > 0 && BitAt(P[p], s) then 255 else 0
    {
      assert (8 * p + s) / 8 == p && (8 * p + s) % 8 == s;
      if w > 0 {
        FullShare(w);
      }
    }
    var f := seq(SEGMENTS, s requires 0 <= s < SEGMENTS => Relative(d, p, s) > threshold);
    assert Pow2(8) == 256;
    if w > 0 {
      BitSumOfBits(P[p], f);
    } else {
      forall k | 0 <= k < |f| ensures f[k] == BitAt(0, k) {
        ZeroBit(k);
      }
      BitSumOfBits(0, f);
    }
  }

  lemma FullShare(w: nat)
    requires 0 < w
    ensures w * 255 / w == 255 && 0 * 255 / w == 0
  {
  }

  // ---------- one digit at a time ----------

  function Sum6(e: Digits): nat
  {
    e[0] as int + e[1] as int + e[2] as int + e[3] as int + e[4] as int + e[5] as int
  }

  predicate AtMostOneHot(bit0IsLeft: bool, sel: byte)
  {
    forall p, q :: 0 <= p < q < DIGITS ==>
      !(Selected(bit0IsLeft, sel, p) && Selected(bit0IsLeft, sel, q))
  }

  ghost predicate Budget(d: Screen)
  {
    Sum6(d.energyDigit) <= d.total + 378
  }

  lemma ChargeKeepsBudget(d: Screen, dt: Interval32, sel: byte, seg: byte)
    requires Sound(d) && Fits(d.tau, dt) && Budget(d) && AtMostOneHot(d.bit0IsLeft, sel)
    ensures Budget(Charge(d, dt, sel, seg))
  {
    hide Sound, Fits, ChargeCell, ChargeDigit, AtMostOneHot, Selected, Sum6;
    NothingWraps(d, dt);
    ChargeParts(d, dt, sel, seg);
    hide Charge;
    var e := Charge(d, dt, sel, seg).energyDigit;
    forall p | 0 <= p < DIGITS
      ensures e[p] == d.energyDigit[p] + (if Selected(d.bit0IsLeft, sel, p) then dt * 256 else 0)
    {
      DigitCharged(d, p, dt, sel);
    }
    OneDigitMore(d.bit0IsLeft, sel, d.energyDigit, e, dt * 256);
  }

  /** With at most one digit selected at most one grows. */
  lemma OneDigitMore(bit0IsLeft: bool, sel: byte, d: Digits, e: Digits, more: nat)
    requires AtMostOneHot(bit0IsLeft, sel)
    requires forall p :: 0 <= p < DIGITS ==>
               e[p] as int == d[p] as int + if Selected(bit0IsLeft, sel, p) then more else 0
    ensures Sum6(e) <= Sum6(d) + more
  {
    hide Selected;
    assert e[0] as int + e[1] as int == d[0] as int + d[1] as int
      + (if Selected(bit0IsLeft, sel, 0) || Selected(bit0IsLeft, sel, 1) then more else 0);
    assert e[2] as int + e[3] as int == d[2] as int + d[3] as int
      + (if Selected(bit0IsLeft, sel, 2) || Selected(bit0IsLeft, sel, 3) then more else 0);
    assert e[4] as int + e[5] as int == d[4] as int + d[5] as int
      + (if Selected(bit0IsLeft, sel, 4) || Selected(bit0IsLeft, sel, 5) then more else 0);
  }

  /** Six roundings lose at most 63 each before the division, so 378 is kept through any decay. */
  lemma DecayKeepsBudget(d: Screen)
    requires Budget(d)
    ensures Budget(DecayAll(d))
  {
    var e := d.energyDigit;
    var lost := e[0] / 64 + e[1] / 64 + e[2] / 64 + e[3] / 64 + e[4] / 64 + e[5] / 64;
    assert 64 * lost >= Sum6(e) - 378;
    assert Sum6(DecayAll(d).energyDigit) == Sum6(e) - lost;
  }

  lemma {:induction false} LoopKeepsBudget(d: Screen, steps: nat)
    requires Budget(d)
    ensures Budget(DecayLoop(d, steps).0)
    decreases d.decayAcc
  {
    var s := StepSize(d.tau);
    if d.decayAcc >= s && steps < MAX_STEPS {
      DecayKeepsBudget(d.(decayAcc := d.decayAcc - s));
      LoopKeepsBudget(DecayAll(d.(decayAcc := d.decayAcc - s)), steps + 1);
    }
  }

  lemma AdvanceKeepsBudget(d: Screen, to: nat, outA: byte, outB: byte)
    requires Sound(d) && Budget(d)
    requires d.integratedTo < to ==>
      Fits(d.tau, Clamped(to - d.integratedTo)) && AtMostOneHot(d.bit0IsLeft, outA)
    ensures Budget(Advance(d, to, outA, outB))
  {
    if d.integratedTo < to {
      var e := d.(integratedTo := to);
      var dt := Clamped(to - d.integratedTo);
      ChargeKeepsBudget(e, dt, outA, outB);
      LoopKeepsBudget(Charge(e, dt, outA, outB), 0);
    }
  }

  lemma IntensityShare(d: Screen, p: nat, s: nat)
    requires Sound(d) && p < DIGITS && s < SEGMENTS && d.total > 0
    ensures Intensity(d, p, s) as int * d.total <= 255 * d.energyDigit[p] as int
  {
    ClampsNeverFire(d, p, s);
    assert (8 * p + s) / 8 == p;
    FloorBelow(d.energy[8 * p + s] as int * 255, d.total);
  }

  /** One segment's six intensities share one digit's worth of light. */
  lemma IntensitiesShareOneDigit(d: Screen, s: nat)
    requires Sound(d) && Budget(d) && s < SEGMENTS && d.total > 96390
    ensures Intensity(d, 0, s) as int + Intensity(d, 1, s) as int + Intensity(d, 2, s) as int
          + Intensity(d, 3, s) as int + Intensity(d, 4, s) as int + Intensity(d, 5, s) as int <= 255
  {
    forall p | 0 <= p < DIGITS
      ensures Intensity(d, p, s) as int * d.total <= 255 * d.energyDigit[p] as int
    {
      IntensityShare(d, p, s);
    }
    SharesSum(Intensity(d, 0, s), Intensity(d, 1, s), Intensity(d, 2, s),
              Intensity(d, 3, s), Intensity(d, 4, s), Intensity(d, 5, s), d.total, 255 * Sum6(d.energyDigit));
  }

  lemma SharesSum(a: nat, b: nat, c: nat, d: nat, e: nat, f: nat, t: nat, whole: nat)
    requires a * t + b * t + c * t + d * t + e * t + f * t <= whole <= 255 * t + 96390
    requires t > 96390
    ensures a + b + c + d + e + f <= 255
  {
    var sum := a + b + c + d + e + f;
    SixTerms(a, b, c, d, e, f, t);
    assert (256 - sum) * t > 0;
  }

  lemma FloorBelow(x: nat, t: nat)
    requires 0 < t
    ensures x / t * t <= x
  {
  }

  lemma SixTerms(a: int, b: int, c: int, d: int, e: int, f: int, t: int)
    ensures (a + b + c + d + e + f) * t == a * t + b * t + c * t + d * t + e * t + f * t
  {
  }

  // ---------- the bound is attained ----------

  /** `n` intervals of one T state each, with no digit selected, from the state `d`. */
  function Singles(d: Screen, n: nat): Screen
  {
    if n == 0 then d else var e := Singles(d, n - 1); Advance(e, e.integratedTo + 1, 0, 0)
  }

  /** An interval as long as the clamp allows would now wrap the window total. */
  predicate Alarm(d: Screen) { d.total + 256 * MAX_DT >= U32 }

  ghost predicate NoAlarm(d: Screen, n: nat) { forall m: nat :: m < n ==> !Alarm(Singles(d, m)) }

  /** One T state with nothing selected: the window grows, and decays when a step is full. */
  lemma Single(e: Screen)
    requires Sound(e) && !Alarm(e)
    ensures var f := Advance(e, e.integratedTo + 1, 0, 0);
            && Sound(f) && f.tau == e.tau
            && (e.decayAcc + 1 < StepSize(e.tau) ==> f.decayAcc == e.decayAcc + 1 && f.total == e.total + 256)
            && (e.decayAcc + 1 == StepSize(e.tau) ==> f.decayAcc == 0 && f.total == Decay(e.total + 256))
  {
    hide Selected, BitAt, Place;
    var s := StepSize(e.tau);
    var f := Charge(e.(integratedTo := e.integratedTo + 1), 1, 0, 0);
    DarkCharge(e.(integratedTo := e.integratedTo + 1));
    if e.decayAcc + 1 == s {
      DecayKeeps(f);
      var g := DecayAll(f.(decayAcc := 0));
      assert DecayLoop(g, 1) == (g, 1);
      assert DecayLoop(f, 0) == (g, 1);
    } else {
      assert DecayLoop(f, 0) == (f, 0);
    }
  }

  lemma DarkCharge(e: Screen)
    requires Sound(e) && !Alarm(e)
    ensures var f := Charge(e, 1, 0, 0);
            Ordered(f) && Bounded(f) && f.total == e.total + 256 && f.decayAcc == e.decayAcc + 1
  {
    hide BitAt;
    forall p | 0 <= p < DIGITS ensures !Selected(e.bit0IsLeft, 0, p) {
      ZeroBit(Place(e.bit0IsLeft, p));
    }
    hide Selected;
  }

  /** Without an alarm the window grows by 256 each T state until a step is full. */
  lemma {:induction false} WithinStep(d: Screen, m: nat, j: nat)
    requires NoAlarm(d, m + j)
    requires Sound(Singles(d, m)) && Singles(d, m).tau == d.tau && Singles(d, m).decayAcc == 0 && j < StepSize(d.tau)
    ensures var e := Singles(d, m + j);
            Sound(e) && e.tau == d.tau && e.decayAcc == j && e.total == Singles(d, m).total + 256 * j
  {
    hide Advance, Sound, Alarm;
    if j > 0 {
      WithinStep(d, m, j - 1);
      Single(Singles(d, m + (j - 1)));
    }
  }

  lemma FullStep(d: Screen, m: nat)
    requires NoAlarm(d, m + StepSize(d.tau))
    requires Sound(Singles(d, m)) && Singles(d, m).tau == d.tau && Singles(d, m).decayAcc == 0
    ensures var e := Singles(d, m + StepSize(d.tau));
            && Sound(e) && e.tau == d.tau && e.decayAcc == 0
            && Singles(d, m).total + 256 * StepSize(d.tau) < U32
            && e.total == Decay(Singles(d, m).total + 256 * StepSize(d.tau))
  {
    hide Advance, Sound;
    var s := StepSize(d.tau);
    WithinStep(d, m, s - 1);
    Single(Singles(d, m + (s - 1)));
    assert Singles(d, m + s) == Advance(Singles(d, m + (s - 1)), Singles(d, m + (s - 1)).integratedTo + 1, 0, 0);
  }

  /** Below its fixed point the window climbs with every step. */
  lemma Climb(t: u32, s: nat)
    requires t < 256 * 63 * s && t + 256 * s < U32
    ensures t + 1 <= Decay(t + 256 * s)
  {
  }

  lemma Stays(t: u32, s: nat)
    requires 256 * 63 * s <= t && t + 256 * s < U32
    ensures 256 * 63 * s <= Decay(t + 256 * s)
  {
  }

  lemma {:induction false} StepsClimb(d: Screen, r: nat)
    requires Sound(d) && d.decayAcc == 0 && NoAlarm(d, r * StepSize(d.tau)) && r <= 256 * 63 * StepSize(d.tau)
    ensures var e := Singles(d, r * StepSize(d.tau));
            Sound(e) && e.tau == d.tau && e.decayAcc == 0 && r <= e.total
  {
    hide Advance, Sound, Alarm, Decay;
    if r > 0 {
      var s := StepSize(d.tau);
      assert r * s == (r - 1) * s + s;
      StepsClimb(d, r - 1);
      var t := Singles(d, (r - 1) * s).total;
      FullStep(d, (r - 1) * s);
      if t as int < 256 * 63 * s as int {
        Climb(t, s);
      } else {
        Stays(t, s);
      }
    }
  }

  /** If a run of single T states is ever at alarm it is so for a first time, in a sound state. */
  lemma FirstAlarm(d: Screen, n: nat) returns (m: nat)
    requires Sound(d)
    requires !NoAlarm(d, n + 1)
    ensures m <= n && Alarm(Singles(d, m)) && NoAlarm(d, m) && Sound(Singles(d, m))
  {
    hide Advance, Sound, Alarm;
    m := 0;
    while !Alarm(Singles(d, m))
      invariant m <= n && NoAlarm(d, m) && Sound(Singles(d, m)) && Singles(d, m).tau == d.tau
      decreases n - m
    {
      Single(Singles(d, m));
      m := m + 1;
    }
  }

  /** With a larger step size the window reaches its fixed point, if nothing before, and then the alarm. */
  lemma AlarmComes(d: Screen, n: nat)
    requires Sound(d) && d.decayAcc == 0 && 245760 < StepSize(d.tau)
    requires n == 256 * 63 * StepSize(d.tau) as int * StepSize(d.tau) + (StepSize(d.tau) - 1)
    ensures !NoAlarm(d, n + 1)
  {
    hide Advance, Sound;
    var s := StepSize(d.tau);
    var r: nat := 256 * 63 * s as int;
    assert n == r * s + (s - 1);
    if NoAlarm(d, n) {
      StepsClimb(d, r);
      WithinStep(d, r * s, s - 1);
    }
  }

  /**
   * The step size limit is sharp: for every larger one a run that never wrapped reaches a sound state in
   * which an interval as long as the clamp wraps the window total.
   */
  lemma BoundIsSharp(d: Screen)
    requires Sound(d) && d.decayAcc == 0 && 245760 < StepSize(d.tau)
    ensures exists n: nat :: Sound(Singles(d, n)) && Alarm(Singles(d, n)) && NoAlarm(d, n)
  {
    hide Advance, Sound, Alarm, NoAlarm;
    var n := 256 * 63 * StepSize(d.tau) as int * StepSize(d.tau) + (StepSize(d.tau) - 1);
    AlarmComes(d, n);
    var m := FirstAlarm(d, n);
  }
}
