// The bus of the machine from the programmer's side: what reads back, what the keyboard shows, and
// what the 8255 does with what is written to it, bit by bit.
module BoardLaws {
  import opened Bits
  import opened BitLaws
  import opened Board
  import D = Display

  // ---------- memory ----------

  /** ROM below 800H, nothing from 1000H on, and between them RAM that repeats with the size of the chip. */
  lemma WhatReads(w: World, a: word, v: byte, x: word)
    ensures x < 0x800 ==> Peek(w, x) == w.rom[x]
    ensures x >= 0x1000 ==> Peek(w, x) == 0xFF
    ensures Peek(Poke(w, a, v), x) ==
            if 0x800 <= a < 0x1000 && 0x800 <= x < 0x1000 && (x - a) % w.ramSize == 0 then v else Peek(w, x)
  {
    if IsRam(a) && IsRam(x) {
      if w.ramSize == 1024 {
        Repeats(x - RAM_BASE, a - RAM_BASE, 1024);
      } else {
        Repeats(x - RAM_BASE, a - RAM_BASE, 2048);
      }
    }
  }

  lemma Repeats(x: nat, a: nat, n: nat)
    requires x < 2048 && a < 2048 && (n == 1024 || n == 2048)
    ensures x % n == a % n <==> (x - a) % n == 0
  {
  }

  // ---------- the keyboard ----------

  /** The row that bit k of port C belongs to, if any. */
  function RowAt(k: nat): int
  {
    if k == 2 then 0 else if k == 4 then 1 else if k == 5 then 2 else if k == 6 then 3 else -1
  }

  /** A pressed key in the row, of a column that port A selects. */
  predicate Pulled(outA: byte, keys: set<(int, int)>, row: int)
  {
    exists col: nat :: col < 6 && (col, row) in keys && outA / Pow2(col) % 2 == 1
  }

  lemma RowIsPulled(outA: byte, keys: set<(int, int)>, row: int)
    ensures RowLow(outA, keys, row) <==> Pulled(outA, keys, row)
  {
    hide BitAt, Pow2;
    forall col: nat ensures BitAt(outA, col) <==> outA / Pow2(col) % 2 == 1 {
      BitIsQuotient(outA, col);
    }
    if RowLow(outA, keys, row) {
      var col :| 0 <= col < 6 && (col, row) in keys && BitAt(outA, col);
      var c: nat := col;
      assert (c, row) in keys && BitAt(outA, c);
    }
  }

  /** Port C shows a row low exactly while a pressed key of a selected column lies in it; its other bits are high. */
  lemma KeysShow(outA: byte, keys: set<(int, int)>, k: nat)
    requires k < 8
    ensures BitAt(KeyScan(outA, keys), k) <==> RowAt(k) == -1 || !Pulled(outA, keys, RowAt(k))
  {
    hide BitAt, BitSum, RowLow, KeyScan, Pulled;
    var bits := [true, true, !RowLow(outA, keys, 0), true,
                 !RowLow(outA, keys, 1), !RowLow(outA, keys, 2), !RowLow(outA, keys, 3), true];
    ScanBits(outA, keys);
    BitsOfBitSum(bits, k);
    if RowAt(k) != -1 {
      RowIsPulled(outA, keys, RowAt(k));
    }
  }

  /** One key shows at one bit, and only under its own column. */
  lemma OneKeyShows(col: nat, row: nat, selected: nat)
    requires col < 6 && row < 4 && selected < 6
    ensures Pow2(selected) < 256
    ensures KeyScan(Pow2(selected), {(col, row)}) == if selected == col then 0xFF - [4, 16, 32, 64][row] else 0xFF
  {
    hide BitAt;
    SixPowers();
    forall j: nat ensures BitAt(Pow2(selected), j) <==> j == selected {
      PowerBit(selected, j);
    }
    var keys: set<(int, int)> := {(col, row)};
    assert forall c: int, r: int :: (c, r) in keys <==> c == col && r == row;
    assert forall r: int :: RowLow(Pow2(selected), keys, r) <==> selected == col && r == row by {
      assert (col, row) in keys;
    }
  }

  lemma SixPowers()
    ensures forall j: nat :: j < 6 ==> Pow2(j) < 256
  {
    LowPowers();
    forall j: nat | j < 6 ensures Pow2(j) < 256 {
      match j
      case 0 => case 1 => case 2 => case 3 => case 4 => case _ =>
    }
  }

  lemma ScanBits(outA: byte, keys: set<(int, int)>)
    ensures KeyScan(outA, keys) ==
            BitSum([true, true, !RowLow(outA, keys, 0), true,
                    !RowLow(outA, keys, 1), !RowLow(outA, keys, 2), !RowLow(outA, keys, 3), true])
  {
    hide RowLow, BitSum;
    var (r0, r1) := (!RowLow(outA, keys, 0), !RowLow(outA, keys, 1));
    var (r2, r3) := (!RowLow(outA, keys, 2), !RowLow(outA, keys, 3));
    EightBits(true, true, r0, true, r1, r2, r3, true);
  }

  // ---------- the 8255 ----------

  /** A mode word: each direction bit, and all latches cleared. */
  lemma ModeWord(p: Ppi, v: byte)
    requires BitAt(v, 7)
    ensures var q := Latch(p, 0xFB, v);
            && q.ctrl == v && q.outA == 0 && q.outB == 0 && q.outC == 0
            && (q.aIsOut <==> !BitAt(v, 4)) && (q.bIsOut <==> !BitAt(v, 1))
            && (q.cHiIsOut <==> !BitAt(v, 3)) && (q.cLoIsOut <==> !BitAt(v, 0))
  {
    hide BitAt, Pow2;
    Powers();
    LowPowers();
    BitIsQuotient(v, 7);
    BitIsQuotient(v, 4);
    BitIsQuotient(v, 3);
    BitIsQuotient(v, 1);
    BitIsQuotient(v, 0);
  }

  /** Otherwise one bit of port C takes the lowest bit of the word, and nothing else changes. */
  lemma BitWord(p: Ppi, v: byte, k: nat)
    requires !BitAt(v, 7) && k < 8
    ensures var q := Latch(p, 0xFB, v);
            && q == p.(outC := q.outC)
            && (BitAt(q.outC, k) <==> if k == v / 2 % 8 then BitAt(v, 0) else BitAt(p.outC, k))
  {
    hide BitAt, Pow2, PutBit;
    Powers();
    BitIsQuotient(v, 7);
    BitIsQuotient(v, 0);
    PutsBit(p.outC, v / 2 % 8, HasBit(v, 1), k);
  }

  lemma PutsBit(x: byte, k: nat, on: bool, j: nat)
    requires k < 8 && j < 8
    ensures BitAt(PutBit(x, k, on), j) <==> if j == k then on else BitAt(x, j)
  {
    hide BitAt, Pow2;
    LowPowers();
    Powers();
    BitIsQuotient(x, k);
    var mask := [1, 2, 4, 8, 16, 32, 64, 128][k];
    assert mask == Pow2(k);
    assert HasBit(x, mask) <==> BitAt(x, k);
    if on && !BitAt(x, k) {
      SetBit(x, k, j);
      Fits(x, k);
    } else if !on && BitAt(x, k) {
      ClearBit(x, k, j);
    }
  }

  /** A byte with a clear bit has room for it. */
  lemma Fits(x: byte, k: nat)
    requires k < 8 && !BitAt(x, k)
    ensures x + Pow2(k) < 256
  {
    hide BitAt, Pow2;
    LowPowers();
    Powers();
    BitIsQuotient(x, k);
    match k
    case 0 => case 1 => case 2 => case 3 => case 4 => case 5 => case 6 => case _ =>
  }

  /** Ports A and B take a byte only as outputs; the halves of port C each by their own direction. */
  lemma PortsLatch(p: Ppi, v: byte, k: nat)
    requires k < 8
    ensures Latch(p, 0xF8, v) == if p.aIsOut then p.(outA := v) else p
    ensures Latch(p, 0xF9, v) == if p.bIsOut then p.(outB := v) else p
    ensures var q := Latch(p, 0xFA, v);
            && q == p.(outC := q.outC)
            && (BitAt(q.outC, k) <==>
                if (if k < 4 then p.cLoIsOut else p.cHiIsOut) then BitAt(v, k) else BitAt(p.outC, k))
  {
    hide BitAt, WriteControl;
    var q := Latch(p, 0xFA, v).outC;
    assert q == 16 * (q / 16) + q % 16;
    assert q % 16 == (if p.cLoIsOut then v else p.outC) % 16;
    assert q / 16 == (if p.cHiIsOut then v else p.outC) / 16;
    if k < 4 {
      LowFour(q, q / 16, k);
      LowFour(v, q / 16, k);
      LowFour(p.outC, q / 16, k);
    } else {
      HighFour(q, k - 4);
      HighFour(v, k - 4);
      HighFour(p.outC, k - 4);
    }
  }

  /** What an IN reads: latches of ports that drive, the keyboard, the debug byte, and FFH elsewhere. */
  lemma ReadsBack(w: World, v: byte, port: byte)
    ensures w.ppi.aIsOut ==> PortIn(PortOut(w, 0xF8, v), 0xF8) == v
    ensures w.ppi.bIsOut ==> PortIn(PortOut(w, 0xF9, v), 0xF9) == v
    ensures !w.ppi.aIsOut ==> PortIn(w, 0xF8) == 0xFF
    ensures !w.ppi.bIsOut ==> PortIn(w, 0xF9) == 0xFF
    ensures PortIn(w, 0xFA) == KeyScan(w.ppi.outA, w.keys)
    ensures PortIn(PortOut(w, 0xFC, v), 0xFC) == v
    ensures !(0xF8 <= port <= 0xFA) && port != 0xFC ==> PortIn(w, port) == 0xFF
  {
    hide D.Advance, KeyScan, WriteControl;
  }

  /** What an OUT leaves alone: memory and keys always, the ports and the screen unless they are addressed. */
  lemma OutTouches(w: World, port: byte, v: byte)
    ensures var u := PortOut(w, port, v);
            && u == w.(ppi := u.ppi, screen := u.screen, dbg := u.dbg, unmapped := u.unmapped)
            && u.ppi == Latch(w.ppi, port, v)
            && (0xF8 <= port <= 0xF9 || port == 0xFB ==>
                  u.screen == D.Advance(w.screen, w.start + 7, w.ppi.outA, w.ppi.outB))
            && (!(0xF8 <= port <= 0xF9 || port == 0xFB) ==> u.screen == w.screen)
            && u.dbg == (if port == 0xFC then v else w.dbg)
            && u.unmapped == (if 0xF8 <= port <= 0xFC then w.unmapped else (w.unmapped + 1) % 0x1_0000_0000)
  {
    hide D.Advance, WriteControl;
  }
}
