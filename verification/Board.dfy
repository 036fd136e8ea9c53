// Everything on the bus of the machine: ROM, RAM, the 8255, the keyboard matrix, the displays and
// the dry-run journal of core/src/machine.c, as a value.
module Board {
  import opened Bits
  import D = Display

  const RAM_BASE := 0x800
  const RAM_TOP := 0x1000
  const PORT_A := 0xF8
  const PORT_B := 0xF9
  const PORT_C := 0xFA
  const PORT_CTRL := 0xFB
  const PORT_DBG := 0xFC
  const OUT_WRITE_OFFSET := 7
  const JOURNAL_SLOTS := 8

  type Chip = s: seq<byte> | |s| == 2048 witness seq(2048, _ => 0)
  type RamSize = n: int | n == 1024 || n == 2048 witness 2048
  type RamIndex = i: int | 0 <= i < 2048

  /** The 8255: its mode word, its output latches and the direction of each port. */
  datatype Ppi = Ppi(
    ctrl: byte, outA: byte, outB: byte, outC: byte,
    aIsOut: bool, bIsOut: bool, cLoIsOut: bool, cHiIsOut: bool)

  /** A journal slot: a RAM cell and what it held before a dry-run write. */
  datatype Undo = Undo(idx: RamIndex, was: byte)

  datatype World = World(
    ramSize: RamSize, rom: Chip, ram: Chip,
    ppi: Ppi, screen: D.Screen, keys: set<(int, int)>,
    dbg: byte, unmapped: u32, start: nat,
    trial: bool, journal: seq<Undo>)

  // ---------- memory ----------

  predicate IsRam(a: word) { RAM_BASE <= a < RAM_TOP }

  /** The RAM cell behind an address; masking with a power of two minus one is a remainder. */
  function Cell(ramSize: RamSize, a: word): RamIndex
    requires IsRam(a)
  {
    (a - RAM_BASE) % ramSize
  }

  function Peek(w: World, a: word): byte
  {
    if a >= RAM_TOP then 0xFF
    else if a < RAM_BASE then w.rom[a]
    else w.ram[Cell(w.ramSize, a)]
  }

  function Poke(w: World, a: word, v: byte): World
  {
    if !IsRam(a) then w
    else
      var i := Cell(w.ramSize, a);
      var journal := if w.trial && |w.journal| < JOURNAL_SLOTS
                     then w.journal + [Undo(i, w.ram[i])] else w.journal;
      w.(journal := journal, ram := w.ram[i := v])
  }

  /** Two addresses backed by the same RAM cell. */
  predicate SameCell(ramSize: RamSize, x: word, y: word)
  {
    IsRam(x) && IsRam(y) && Cell(ramSize, x) == Cell(ramSize, y)
  }

  /** Some address among the first `n` from `addr`, wrapping at 64 KB, is backed by RAM cell `i`. */
  ghost predicate Hit(ramSize: RamSize, addr: word, n: nat, i: RamIndex)
  {
    exists k: nat :: k < n && IsRam(Plus16(addr, k)) && Cell(ramSize, Plus16(addr, k)) == i
  }

  /** Undoing a journal, last write first. */
  function Undone(ram: Chip, journal: seq<Undo>): Chip
    decreases |journal|
  {
    if journal == [] then ram
    else
      var n := |journal| - 1;
      Undone(ram[journal[n].idx := journal[n].was], journal[..n])
  }

  lemma PokeIsUndone(w: World, a: word, v: byte)
    requires w.trial && |w.journal| < JOURNAL_SLOTS
    ensures Undone(Poke(w, a, v).ram, Poke(w, a, v).journal) == Undone(w.ram, w.journal)
    ensures |Poke(w, a, v).journal| <= |w.journal| + 1
  {
    if IsRam(a) {
      var i := Cell(w.ramSize, a);
      var w' := Poke(w, a, v);
      var n := |w.journal|;
      assert w'.journal[n] == Undo(i, w.ram[i]) && w'.journal[..n] == w.journal;
      assert w'.ram[i := w.ram[i]] == w.ram;
    }
  }

  // ---------- ports ----------

  /** `ppi_write_control`: a mode word clears the latches; otherwise one bit of port C changes. */
  function WriteControl(p: Ppi, v: byte): Ppi
  {
    if HasBit(v, 0x80) then
      Ppi(v, 0, 0, 0, !HasBit(v, 0x10), !HasBit(v, 0x02), !HasBit(v, 0x01), !HasBit(v, 0x08))
    else
      p.(outC := PutBit(p.outC, v / 2 % 8, HasBit(v, 1)))
  }

  function PutBit(x: byte, k: nat, on: bool): byte
    requires k < 8
  {
    var mask := [1, 2, 4, 8, 16, 32, 64, 128][k];
    if on == HasBit(x, mask) then x else if on then (x + mask) % 256 else (x + 256 - mask) % 256
  }

  const ROW_BIT: seq<nat> := [2, 4, 5, 6]

  /** A pressed key pulls its row low while its column is selected. */
  predicate RowLow(outA: byte, keys: set<(int, int)>, row: int)
  {
    exists col: int :: 0 <= col < 6 && (col, row) in keys && BitAt(outA, col)
  }

  /** `keyboard_scan`. */
  function KeyScan(outA: byte, keys: set<(int, int)>): byte
  {
    0x8B + (if RowLow(outA, keys, 0) then 0 else 0x04) + (if RowLow(outA, keys, 1) then 0 else 0x10)
         + (if RowLow(outA, keys, 2) then 0 else 0x20) + (if RowLow(outA, keys, 3) then 0 else 0x40)
  }

  /** `bus_in`. */
  function PortIn(w: World, port: byte): byte
  {
    if port == PORT_A then if w.ppi.aIsOut then w.ppi.outA else 0xFF
    else if port == PORT_B then if w.ppi.bIsOut then w.ppi.outB else 0xFF
    else if port == PORT_C then KeyScan(w.ppi.outA, w.keys)
    else if port == PORT_DBG then w.dbg
    else 0xFF
  }

  /** `display_advance` with the latches now in force. */
  function Integrate(w: World, to: nat): World
  {
    w.(screen := D.Advance(w.screen, to, w.ppi.outA, w.ppi.outB))
  }

  /** The 8255 after a write to one of its ports. */
  function Latch(p: Ppi, port: byte, v: byte): Ppi
  {
    if port == PORT_A then if p.aIsOut then p.(outA := v) else p
    else if port == PORT_B then if p.bIsOut then p.(outB := v) else p
    else if port == PORT_C then
      var lo := if p.cLoIsOut then p.outC / 16 * 16 + v % 16 else p.outC;
      p.(outC := if p.cHiIsOut then lo % 16 + v / 16 * 16 else lo)
    else if port == PORT_CTRL then WriteControl(p, v)
    else p
  }

  /** `bus_out`: what drives the displays is integrated up to T state 7 before it changes. */
  function PortOut(w: World, port: byte, v: byte): World
  {
    if port == PORT_A || port == PORT_B || port == PORT_CTRL then
      var w1 := Integrate(w, w.start + OUT_WRITE_OFFSET);
      w1.(ppi := Latch(w1.ppi, port, v))
    else if port == PORT_C then w.(ppi := Latch(w.ppi, port, v))
    else if port == PORT_DBG then w.(dbg := v)
    else w.(unmapped := Add32(w.unmapped, 1))
  }

  /** The board at power-on; `big` selects revision 2, with 2 KB of RAM. */
  function PowerOn(big: bool): World
  {
    World(if big then 2048 else 1024, seq(2048, _ => 0), seq(2048, _ => 0),
          WriteControl(Ppi(0, 0, 0, 0, false, false, false, false), 0x9B),
          D.Screen(seq(48, _ => 0), seq(6, _ => 0), 0, 0, 40000, 0, true),
          {}, 0, 0, 0, false, [])
  }
}
