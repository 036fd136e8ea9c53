// The board updated in place: RAM, the 8255 latches, the displays and the dry-run journal, each
// method against its function in Board.
module BoardUnit {
  import opened Bits
  import B = Board
  import D = Display
  import DisplayUnit

  /** The journal slots in use. */
  ghost function Pairs(idx: seq<B.RamIndex>, was: seq<byte>, n: nat): (j: seq<B.Undo>)
    requires n <= |idx| && n <= |was|
    ensures |j| == n
  {
    seq(n, i requires 0 <= i < n => B.Undo(idx[i], was[i]))
  }

  /** Port C with some rows pulled low. */
  ghost function Rows(low: seq<bool>): byte
    requires |low| == 4
  {
    0x8B + (if low[0] then 0 else 0x04) + (if low[1] then 0 else 0x10)
         + (if low[2] then 0 else 0x20) + (if low[3] then 0 else 0x40)
  }

  lemma ClearRow(low: seq<bool>, r: nat)
    requires |low| == 4 && r < 4
    ensures B.PutBit(Rows(low), B.ROW_BIT[r], false) == Rows(low[r := true])
  {
    if r == 0 {
    } else if r == 1 {
    } else if r == 2 {
    } else {
    }
  }

  class Bus {
    const ramSize: B.RamSize
    const rom: array<byte>
    const ram: array<byte>
    const disp: DisplayUnit.Unit
    const trialIdx: array<B.RamIndex>
    const trialOld: array<byte>
    var trial: bool
    var trialN: nat
    var ppi: B.Ppi
    var keys: set<(int, int)>
    var dbg: byte
    var unmapped: u32
    var start: nat

    ghost predicate Valid()
      reads this
    {
      && rom.Length == 2048 && ram.Length == 2048 && rom != ram
      && disp.Valid()
      && trialIdx.Length == B.JOURNAL_SLOTS && trialOld.Length == B.JOURNAL_SLOTS && trialN <= B.JOURNAL_SLOTS
      && trialOld != rom && trialOld != ram
    }

    /** What the bus may change: everything but the ROM. */
    ghost function Repr(): set<object>
    {
      {this, ram, trialIdx, trialOld, disp, disp.energy, disp.energyDigit}
    }

    ghost function Journal(): seq<B.Undo>
      reads this, trialIdx, trialOld
      requires Valid()
    {
      Pairs(trialIdx[..], trialOld[..], trialN)
    }

    ghost function View(): B.World
      reads this, Repr(), rom
      requires Valid()
    {
      B.World(ramSize, rom[..], ram[..], ppi, disp.View(), keys, dbg, unmapped, start, trial, Journal())
    }

    /** Power-on, with all three ports of the 8255 as inputs; `big` selects the 2 KB revision. */
    constructor (big: bool)
      ensures Valid() && fresh(Repr()) && fresh(rom)
      ensures View() == B.PowerOn(big)
    {
      ramSize := if big then 2048 else 1024;
      rom := new byte[2048](_ => 0);
      ram := new byte[2048](_ => 0);
      trialIdx := new B.RamIndex[8](_ => 0);
      trialOld := new byte[8](_ => 0);
      disp := new DisplayUnit.Unit(40000);
      trial, trialN := false, 0;
      ppi := B.WriteControl(B.Ppi(0, 0, 0, 0, false, false, false, false), 0x9B);
      keys, dbg, unmapped, start := {}, 0, 0, 0;
      new;
      assert View() == B.PowerOn(big);
    }

    /** `umk_peek`. */
    method Peek(a: word) returns (v: byte)
      requires Valid()
      ensures v == B.Peek(View(), a)
    {
      if a >= B.RAM_TOP {
        return 0xFF;
      }
      if a < B.RAM_BASE {
        return rom[a % 2048];
      }
      return ram[(a - B.RAM_BASE) % ramSize];
    }

    /** `umk_poke`. */
    method Poke(a: word, v: byte)
      requires Valid()
      modifies ram, trialIdx, trialOld, this`trialN
      ensures Valid() && View() == B.Poke(old(View()), a, v)
    {
      if a >= B.RAM_TOP || a < B.RAM_BASE {
        return;
      }
      var idx := (a - B.RAM_BASE) % ramSize;
      if trial && trialN < B.JOURNAL_SLOTS {
        trialIdx[trialN] := idx;
        trialOld[trialN] := ram[idx];
        trialN := trialN + 1;
      }
      ram[idx] := v;
      assert ram[..] == old(ram[..])[idx := v];
      assert Journal() == B.Poke(old(View()), a, v).journal;
    }

    /** The undo loop of `step_probe`: last write first. */
    method Rollback()
      requires Valid()
      modifies ram, this`trial, this`trialN
      ensures Valid()
      ensures View() ==
              old(View()).(ram := B.Undone(old(View()).ram, old(View()).journal), trial := false, journal := [])
    {
      ghost var j := Journal();
      ghost var r := ram[..];
      assert j[..trialN] == j;
      var i := trialN;
      while i > 0
        invariant 0 <= i <= trialN
        invariant trialN == old(trialN) && trial == old(trial)
        invariant forall k :: 0 <= k < trialN ==> j[k] == B.Undo(trialIdx[k], trialOld[k])
        invariant B.Undone(ram[..], j[..i]) == B.Undone(r, j)
      {
        i := i - 1;
        ghost var before := ram[..];
        ram[trialIdx[i]] := trialOld[i];
        assert ram[..] == before[j[i].idx := j[i].was];
        assert j[..i + 1][..i] == j[..i];
      }
      trial := false;
      trialN := 0;
    }

    /** `keyboard_scan`: idle rows read high; each pressed key of a selected column clears its row. */
    method KeyboardScan() returns (value: byte)
      requires Valid()
      ensures value == B.KeyScan(ppi.outA, keys)
    {
      ghost var low := [false, false, false, false];
      value := 0xFF;
      for c := 0 to 6
        invariant |low| == 4 && value == Rows(low)
        invariant forall r :: 0 <= r < 4 ==>
          (low[r] <==> exists k: int :: 0 <= k < c && (k, r) in keys && BitAt(ppi.outA, k))
      {
        if BitAt(ppi.outA, c) {
          ghost var was := low;
          for r := 0 to 4
            invariant |low| == 4 && value == Rows(low)
            invariant forall q :: r <= q < 4 ==> low[q] == was[q]
            invariant forall q :: 0 <= q < r ==> (low[q] <==> was[q] || (c as int, q) in keys)
          {
            if (c as int, r as int) in keys {
              ClearRow(low, r);
              low := low[r := true];
              value := B.PutBit(value, B.ROW_BIT[r], false);
            }
          }
        }
      }
    }

    /** `bus_in`. */
    method PortIn(port: byte) returns (v: byte)
      requires Valid()
      ensures v == B.PortIn(View(), port)
    {
      v := 0xFF;
      if port == B.PORT_A {
        if ppi.aIsOut { v := ppi.outA; }
      } else if port == B.PORT_B {
        if ppi.bIsOut { v := ppi.outB; }
      } else if port == B.PORT_C {
        v := KeyboardScan();
      } else if port == B.PORT_DBG {
        v := dbg;
      }
    }

    /** `display_advance`. */
    method Integrate(to: nat)
      requires Valid()
      modifies disp, disp.energy, disp.energyDigit
      ensures Valid() && View() == B.Integrate(old(View()), to)
    {
      disp.AdvanceTo(to, ppi.outA, ppi.outB);
    }

    /** `bus_out`. */
    method PortOut(port: byte, v: byte)
      requires Valid()
      modifies this`ppi, this`dbg, this`unmapped, disp, disp.energy, disp.energyDigit
      ensures Valid() && View() == B.PortOut(old(View()), port, v)
    {
      hide D.Advance, B.WriteControl;
      if port == B.PORT_A {
        Integrate(start + B.OUT_WRITE_OFFSET);
        if ppi.aIsOut { ppi := ppi.(outA := v); }
      } else if port == B.PORT_B {
        Integrate(start + B.OUT_WRITE_OFFSET);
        if ppi.bIsOut { ppi := ppi.(outB := v); }
      } else if port == B.PORT_C {
        if ppi.cLoIsOut { ppi := ppi.(outC := ppi.outC / 16 * 16 + v % 16); }
        if ppi.cHiIsOut { ppi := ppi.(outC := ppi.outC % 16 + v / 16 * 16); }
      } else if port == B.PORT_CTRL {
        Integrate(start + B.OUT_WRITE_OFFSET);
        ppi := B.WriteControl(ppi, v);
      } else if port == B.PORT_DBG {
        dbg := v;
      } else {
        unmapped := Add32(unmapped, 1);
      }
    }

    /** What `umk_reset` does to the board: the 8255, the step clock and the display window. */
    method Reset()
      requires Valid()
      modifies this`ppi, this`start, disp, disp.energy, disp.energyDigit
      ensures Valid()
      ensures View() == old(View()).(
        ppi := B.WriteControl(old(View()).ppi, 0x9B), start := 0, screen := D.Cleared(old(View()).screen, 0))
    {
      hide B.WriteControl, D.Cleared;
      ppi := B.WriteControl(ppi, 0x9B);
      start := 0;
      disp.Clear(0);
    }
  }
}
