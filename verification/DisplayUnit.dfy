// umk_display_t: the integrator updated in place, each method against its function in Display.
module DisplayUnit {
  import opened Bits
  import opened Display

  class Unit {
    const energy: array<u32>
    const energyDigit: array<u32>
    var total: u32
    var integratedTo: nat
    var tau: u32
    var decayAcc: u32
    var bit0IsLeft: bool

    predicate Valid()
    {
      energy.Length == CELLS && energyDigit.Length == DIGITS && energy != energyDigit
    }

    ghost function Repr(): set<object> { {this, energy, energyDigit} }

    /** A copy of the whole struct. */
    function View(): Screen
      reads this, energy, energyDigit
      requires Valid()
    {
      Screen(energy[..], energyDigit[..], total, integratedTo, tau, decayAcc, bit0IsLeft)
    }

    constructor (tau: u32)
      ensures Valid() && fresh(Repr())
      ensures View() == Dark(Screen(seq(48, _ => 0), seq(6, _ => 0), 0, 0, tau, 0, true))
    {
      energy := new u32[CELLS](_ => 0);
      energyDigit := new u32[DIGITS](_ => 0);
      total, integratedTo, decayAcc := 0, 0, 0;
      this.tau, bit0IsLeft := tau, true;
    }

    /** `display_decay_step`. */
    method DecayStep()
      requires Valid()
      modifies this`total, energy, energyDigit
      ensures View() == DecayAll(old(View()))
    {
      for i := 0 to DIGITS
        invariant total == old(total)
        invariant forall k :: 0 <= k < CELLS ==>
          energy[k] == if k < 8 * i then Decay(old(energy[k])) else old(energy[k])
        invariant forall p :: 0 <= p < DIGITS ==>
          energyDigit[p] == if p < i then Decay(old(energyDigit[p])) else old(energyDigit[p])
      {
        for j := 0 to SEGMENTS
          invariant total == old(total)
          invariant forall k :: 0 <= k < CELLS ==>
            energy[k] == if k < 8 * i + j then Decay(old(energy[k])) else old(energy[k])
          invariant forall p :: 0 <= p < DIGITS ==>
            energyDigit[p] == if p < i then Decay(old(energyDigit[p])) else old(energyDigit[p])
        {
          energy[8 * i + j] := energy[8 * i + j] - energy[8 * i + j] / 64;
        }
        energyDigit[i] := energyDigit[i] - energyDigit[i] / 64;
      }
      total := total - total / 64;
      assert energy[..] == DecayAll(old(View())).energy;
      assert energyDigit[..] == DecayAll(old(View())).energyDigit;
    }

    /** One pass of the charging loop: the digit at `pos` and its segments that are lit. */
    method LightDigit(pos: nat, dt: Interval32, seg: byte)
      requires Valid() && pos < DIGITS
      modifies energy, energyDigit
      ensures forall k :: 0 <= k < CELLS ==>
        energy[k] == if k / 8 == pos && BitAt(seg, k % 8) then Energise(old(energy[k]), dt) else old(energy[k])
      ensures forall p :: 0 <= p < DIGITS ==>
        energyDigit[p] == if p == pos then Energise(old(energyDigit[p]), dt) else old(energyDigit[p])
    {
      hide BitAt;
      energyDigit[pos] := Add32(energyDigit[pos], dt * 256);
      for s := 0 to SEGMENTS
        invariant forall k :: 0 <= k < CELLS ==>
          energy[k] == if k / 8 == pos && k % 8 < s && BitAt(seg, k % 8) then Energise(old(energy[k]), dt)
                       else old(energy[k])
        invariant forall p :: 0 <= p < DIGITS ==>
          energyDigit[p] == if p == pos then Energise(old(energyDigit[p]), dt) else old(energyDigit[p])
      {
        if BitAt(seg, s) {
          energy[8 * pos + s] := Add32(energy[8 * pos + s], dt * 256);
        }
      }
    }

    /** The charging loops and the total of `display_advance`. */
    method ChargeLit(dt: Interval32, sel: byte, seg: byte)
      requires Valid()
      modifies this`total, this`decayAcc, energy, energyDigit
      ensures View() == Charge(old(View()), dt, sel, seg)
    {
      hide BitAt;
      ghost var d := View();
      for bit := 0 to DIGITS
        invariant total == old(total) && decayAcc == old(decayAcc)
        invariant forall k :: 0 <= k < CELLS ==>
          energy[k] == if Place(bit0IsLeft, k / 8) < bit then ChargeCell(d, k, dt, sel, seg) else d.energy[k]
        invariant forall p :: 0 <= p < DIGITS ==>
          energyDigit[p] == if Place(bit0IsLeft, p) < bit then ChargeDigit(d, p, dt, sel) else d.energyDigit[p]
      {
        if BitAt(sel, bit) {
          LightDigit(if bit0IsLeft then bit else DIGITS - 1 - bit, dt, seg);
        }
      }
      total := Add32(total, dt * 256);
      decayAcc := Add32(decayAcc, dt);
      assert energy[..] == Charge(d, dt, sel, seg).energy;
      assert energyDigit[..] == Charge(d, dt, sel, seg).energyDigit;
    }

    method Blank()
      requires Valid()
      modifies this`total, this`decayAcc, energy, energyDigit
      ensures View() == Dark(old(View()))
    {
      for i := 0 to CELLS
        invariant forall k :: 0 <= k < i ==> energy[k] == 0
      {
        energy[i] := 0;
      }
      for p := 0 to DIGITS
        invariant forall k :: 0 <= k < p ==> energyDigit[k] == 0
        invariant forall k :: 0 <= k < CELLS ==> energy[k] == 0
      {
        energyDigit[p] := 0;
      }
      total, decayAcc := 0, 0;
      assert energy[..] == Dark(old(View())).energy;
      assert energyDigit[..] == Dark(old(View())).energyDigit;
    }

    /** `display_advance`, given the two port latches. */
    method AdvanceTo(to: nat, outA: byte, outB: byte)
      requires Valid()
      modifies this, energy, energyDigit
      ensures View() == Advance(old(View()), to, outA, outB)
    {
      hide DecayAll, Charge, Dark;
      if to <= integratedTo {
        return;
      }
      var delta := to - integratedTo;
      integratedTo := to;
      var dt := if delta > MAX_DT then MAX_DT else delta;
      ChargeLit(dt, outA, outB);
      var stepSize := if tau / 64 == 0 then 1 else tau / 64;
      ghost var charged := View();
      var steps := 0;
      while decayAcc >= stepSize && steps < MAX_STEPS
        invariant tau == charged.tau && stepSize == StepSize(tau)
        invariant DecayLoop(View(), steps) == DecayLoop(charged, 0)
        decreases decayAcc
      {
        decayAcc := decayAcc - stepSize;
        ghost var less := View();
        DecayStep();
        assert View() == DecayAll(less);
        steps := steps + 1;
      }
      if steps >= MAX_STEPS {
        Blank();
      }
    }

    /** `umk_display_intensity`: every cell against the whole window. */
    method ReadIntensity(out: array2<byte>)
      requires Valid() && out.Length0 == DIGITS && out.Length1 == SEGMENTS
      modifies out
      ensures View() == old(View())
      ensures forall p, s :: 0 <= p < DIGITS && 0 <= s < SEGMENTS ==> out[p, s] == Intensity(View(), p, s)
    {
      hide Brightness;
      ghost var d := View();
      for i := 0 to DIGITS
        invariant View() == d
        invariant forall p, s :: 0 <= p < i && 0 <= s < SEGMENTS ==> out[p, s] == Intensity(d, p, s)
      {
        for j := 0 to SEGMENTS
          invariant View() == d
          invariant forall p, s :: 0 <= p < i && 0 <= s < SEGMENTS ==> out[p, s] == Intensity(d, p, s)
          invariant forall s :: 0 <= s < j ==> out[i, s] == Intensity(d, i, s)
        {
          out[i, j] := Brightness(energy[8 * i + j], total);
        }
      }
    }

    /** `umk_display_relative`: every cell against its own digit. */
    method ReadRelative(out: array2<byte>)
      requires Valid() && out.Length0 == DIGITS && out.Length1 == SEGMENTS
      modifies out
      ensures View() == old(View())
      ensures forall p, s :: 0 <= p < DIGITS && 0 <= s < SEGMENTS ==> out[p, s] == Relative(View(), p, s)
    {
      hide Brightness;
      ghost var d := View();
      for i := 0 to DIGITS
        invariant View() == d
        invariant forall p, s :: 0 <= p < i && 0 <= s < SEGMENTS ==> out[p, s] == Relative(d, p, s)
      {
        for j := 0 to SEGMENTS
          invariant View() == d
          invariant forall p, s :: 0 <= p < i && 0 <= s < SEGMENTS ==> out[p, s] == Relative(d, p, s)
          invariant forall s :: 0 <= s < j ==> out[i, s] == Relative(d, i, s)
        {
          out[i, j] := Brightness(energy[8 * i + j], energyDigit[i]);
        }
      }
    }

    /** `umk_display_pattern`: the segments brighter than the threshold, as one mask a digit. */
    method ReadPattern(threshold: byte) returns (out: array<nat>)
      requires Valid()
      ensures fresh(out) && out.Length == DIGITS
      ensures forall p :: 0 <= p < DIGITS ==> out[p] == Pattern(View(), threshold, p)
    {
      hide Relative, BitSum;
      ghost var d := View();
      var inten := new byte[DIGITS, SEGMENTS];
      ReadRelative(inten);
      out := new nat[DIGITS];
      for i := 0 to DIGITS
        invariant View() == d
        invariant forall p :: 0 <= p < i ==> out[p] == Pattern(d, threshold, p)
        invariant forall p, s :: 0 <= p < DIGITS && 0 <= s < SEGMENTS ==> inten[p, s] == Relative(d, p, s)
      {
        ghost var bright := seq(SEGMENTS, s requires 0 <= s < SEGMENTS => Relative(d, i, s) > threshold);
        var mask := ReadMask(inten, i, threshold, bright);
        out[i] := mask;
      }
    }

    /** The bits of one digit, from segment A up. */
    method ReadMask(inten: array2<byte>, i: nat, threshold: byte, ghost bright: seq<bool>) returns (mask: nat)
      requires inten.Length0 == DIGITS && inten.Length1 == SEGMENTS && i < DIGITS && |bright| == SEGMENTS
      requires forall s :: 0 <= s < SEGMENTS ==> (bright[s] <==> inten[i, s] > threshold)
      ensures mask == BitSum(bright)
    {
      var weight := 1;
      mask := 0;
      assert bright[..0] == [];
      for j := 0 to SEGMENTS
        invariant mask == BitSum(bright[..j]) && weight == Pow2(j)
      {
        BitSumSnoc(bright[..j], bright[j]);
        assert bright[..j + 1] == bright[..j] + [bright[j]];
        if inten[i, j] > threshold {
          mask := mask + weight;
        }
        weight := 2 * weight;
      }
      assert bright[..SEGMENTS] == bright;
    }

    /** `umk_display_clear_accumulator`, at processor T state `now`. */
    method Clear(now: nat)
      requires Valid()
      modifies this, energy, energyDigit
      ensures View() == Cleared(old(View()), now)
    {
      Blank();
      integratedTo := now;
    }

    /** `umk_display_set_persistence`: the energies stay, only the remainder restarts. */
    method SetPersistence(t: u32)
      requires Valid()
      modifies this`tau, this`decayAcc
      ensures View() == old(View()).(tau := if t == 0 then 1 else t, decayAcc := 0)
    {
      tau := if t == 0 then 1 else t;
      decayAcc := 0;
    }

    /** Struct assignment from a saved copy. */
    method Restore(d: Screen)
      requires Valid()
      modifies this, energy, energyDigit
      ensures View() == d
    {
      for i := 0 to CELLS
        invariant forall k :: 0 <= k < i ==> energy[k] == d.energy[k]
      {
        energy[i] := d.energy[i];
      }
      for p := 0 to DIGITS
        invariant forall k :: 0 <= k < p ==> energyDigit[k] == d.energyDigit[k]
        invariant forall k :: 0 <= k < CELLS ==> energy[k] == d.energy[k]
      {
        energyDigit[p] := d.energyDigit[p];
      }
      total, integratedTo, tau, decayAcc, bit0IsLeft := d.total, d.integratedTo, d.tau, d.decayAcc, d.bit0IsLeft;
      assert energy[..] == d.energy && energyDigit[..] == d.energyDigit;
    }
  }
}
