// The display persistence integrator of core/src/machine.c, as functions on values.
//
// Every (digit, segment) pair, every digit and the whole window keep an energy, a 32-bit number in
// units of 1/256 T state. An interval charges what is lit and then everything decays in steps of
// tau/64 T states, each of which takes one 64th away, rounded down.
module Display {
  import opened Bits

  const DIGITS := 6
  const SEGMENTS := 8
  const CELLS := 48
  const MAX_DT: int := 0x10_0000
  const MAX_STEPS := 512

  type Cells = s: seq<u32> | |s| == CELLS witness seq(48, _ => 0)
  type Digits = s: seq<u32> | |s| == DIGITS witness seq(6, _ => 0)
  type Interval32 = x: int | 0 <= x <= MAX_DT

  /** `energy` holds segment s of digit p at index 8 * p + s, as the C array [6][8] lays it out. */
  datatype Screen = Screen(
    energy: Cells, energyDigit: Digits, total: u32,
    integratedTo: nat, tau: u32, decayAcc: u32, bit0IsLeft: bool)

  function StepSize(tau: u32): (s: u32)
    ensures 0 < s
  {
    if tau / 64 == 0 then 1 else tau / 64
  }

  /** The port A bit that selects the digit at panel position `p`, and the other way round. */
  function Place(bit0IsLeft: bool, p: nat): (bit: nat)
    requires p < DIGITS
    ensures bit < DIGITS
  {
    if bit0IsLeft then p else DIGITS - 1 - p
  }

  predicate Selected(bit0IsLeft: bool, sel: byte, p: nat)
    requires p < DIGITS
  {
    BitAt(sel, Place(bit0IsLeft, p))
  }

  function Decay(x: u32): u32 { x - x / 64 }

  function Energise(x: u32, dt: Interval32): u32 { Add32(x, dt * 256) }

  function ChargeCell(d: Screen, i: nat, dt: Interval32, sel: byte, seg: byte): u32
    requires i < CELLS
  {
    if Selected(d.bit0IsLeft, sel, i / 8) && BitAt(seg, i % 8) then Energise(d.energy[i], dt)
    else d.energy[i]
  }

  function ChargeDigit(d: Screen, p: nat, dt: Interval32, sel: byte): u32
    requires p < DIGITS
  {
    if Selected(d.bit0IsLeft, sel, p) then Energise(d.energyDigit[p], dt) else d.energyDigit[p]
  }

  function Charge(d: Screen, dt: Interval32, sel: byte, seg: byte): Screen
  {
    d.(energy := seq(CELLS, i requires 0 <= i < CELLS => ChargeCell(d, i, dt, sel, seg)),
       energyDigit := seq(DIGITS, p requires 0 <= p < DIGITS => ChargeDigit(d, p, dt, sel)),
       total := Energise(d.total, dt),
       decayAcc := Add32(d.decayAcc, dt))
  }

  /** `display_decay_step`. */
  function DecayAll(d: Screen): Screen
  {
    d.(energy := seq(CELLS, i requires 0 <= i < CELLS => Decay(d.energy[i])),
       energyDigit := seq(DIGITS, p requires 0 <= p < DIGITS => Decay(d.energyDigit[p])),
       total := Decay(d.total))
  }

  /** The decay loop, entered after `steps` rounds; the second result is the final round count. */
  function DecayLoop(d: Screen, steps: nat): (r: (Screen, nat))
    decreases d.decayAcc
  {
    var s := StepSize(d.tau);
    if d.decayAcc >= s && steps < MAX_STEPS
    then DecayLoop(DecayAll(d.(decayAcc := d.decayAcc - s)), steps + 1)
    else (d, steps)
  }

  function Dark(d: Screen): Screen
  {
    d.(energy := seq(CELLS, _ => 0), energyDigit := seq(DIGITS, _ => 0), total := 0, decayAcc := 0)
  }

  function Settle(d: Screen): Screen
  {
    var (d', steps) := DecayLoop(d, 0);
    if steps >= MAX_STEPS then Dark(d') else d'
  }

  /** The length charged for an interval of `delta` T states. */
  function Clamped(delta: nat): Interval32
  {
    if delta > MAX_DT then MAX_DT else delta
  }

  /** `display_advance`, with the port latches in force since the last call. */
  function Advance(d: Screen, to: nat, outA: byte, outB: byte): Screen
  {
    if to <= d.integratedTo then d
    else Settle(Charge(d.(integratedTo := to), Clamped(to - d.integratedTo), outA, outB))
  }

  /** `umk_display_clear_accumulator`, at T state `now`. */
  function Cleared(d: Screen, now: nat): Screen
  {
    Dark(d).(integratedTo := now)
  }

  /** The quotient both brightness functions clamp to a byte. */
  function Brightness(e: u32, whole: u32): byte
  {
    if whole == 0 then 0
    else if e as int * 255 / whole > 255 then 255 else e as int * 255 / whole
  }

  /** One cell of `umk_display_intensity`. */
  function Intensity(d: Screen, p: nat, s: nat): byte
    requires p < DIGITS && s < SEGMENTS
  {
    Brightness(d.energy[8 * p + s], d.total)
  }

  /** One cell of `umk_display_relative`. */
  function Relative(d: Screen, p: nat, s: nat): byte
    requires p < DIGITS && s < SEGMENTS
  {
    Brightness(d.energy[8 * p + s], d.energyDigit[p])
  }

  /** One digit of `umk_display_pattern`: the mask of the segments brighter than the threshold. */
  function Pattern(d: Screen, threshold: byte, p: nat): nat
    requires p < DIGITS
  {
    BitSum(seq(SEGMENTS, s requires 0 <= s < SEGMENTS => Relative(d, p, s) > threshold))
  }
}
