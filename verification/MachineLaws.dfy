// Single stepping by machine cycle against single stepping by instruction.
module MachineLaws {
  import opened Bits
  import opened BitLaws
  import opened Board
  import opened Cpu
  import opened CpuLaws
  import opened Machine
  import opened StepLaws
  import Isa

  // ---------- the dry run ----------

  /** Any number of journalled writes that fits the slots is undone, repeated and mirrored cells included. */
  function PokeAll(w: World, writes: seq<(word, byte)>): World
  {
    if writes == [] then w
    else
      var n := |writes| - 1;
      Poke(PokeAll(w, writes[..n]), writes[n].0, writes[n].1)
  }

  lemma {:induction false} JournalUndoesAll(w: World, writes: seq<(word, byte)>)
    requires w.trial && w.journal == [] && |writes| <= JOURNAL_SLOTS
    ensures var v := PokeAll(w, writes);
            && v.trial && |v.journal| <= |writes|
            && Undone(v.ram, v.journal) == w.ram
  {
    if writes != [] {
      var n := |writes| - 1;
      JournalUndoesAll(w, writes[..n]);
      PokeIsUndone(PokeAll(w, writes[..n]), writes[n].0, writes[n].1);
    }
  }

  /** An OUT is about to run, to the port that its operand byte names. */
  predicate Drives(s: Sys) { Executes(s) && Isa.Decode(Opcode(s)).Out? }

  function OutPort(s: Sys): byte
    requires Drives(s)
  {
    Peek(s.w, Entered(s).c.pc)
  }

  /** The board of a step, apart from the ports: RAM and journal only, within two slots. */
  lemma StepContained(s: Sys)
    ensures if Drives(s) then Step(s).w == PortOut(s.w, OutPort(s), s.c.r.a)
            else Journalled(s.w, Step(s).w)
  {
    if Executes(s) {
      EnteredLaw(s);
      var e := Entered(s);
      ExecuteContained(e, Isa.Decode(Opcode(s)));
    }
  }

  /** A dry run uses at most two journal slots, and rolling it back restores the system exactly. */
  lemma ProbeRollsBack(m: Mach)
    requires !m.sys.w.trial
    ensures |DryRun(m.sys).w.journal| <= 2
    ensures Probe(m).sys == m.sys.(w := m.sys.w.(journal := []))
    ensures Probe(m).leds == m.leds && Probe(m).mode == m.mode.(seen := DryRun(m.sys).c.mc)
  {
    var w := m.sys.w.(trial := true, journal := [], start := m.sys.c.cycles);
    StepContained(m.sys.(w := w));
  }

  lemma StepPlain(s: Sys)
    ensures Step(Plain(s)) == Plain(Step(s))
  {
    hide Isa.Decode, Execute, Cost;
    if Executes(s) {
      EnteredLaw(s);
      EnteredLaw(Plain(s));
      assert Entered(Plain(s)) == Plain(Entered(s));
      ExecutePlain(Entered(s), Isa.Decode(Opcode(s)));
    }
  }

  /** The dry run does what the real run will do, journal aside. */
  lemma DryRunForetells(s: Sys)
    requires !s.w.trial
    ensures DryRun(s).c == ExecOne(s).c
    ensures ExecOne(s.(w := s.w.(journal := []))).c == ExecOne(s).c
  {
    var d := s.(w := s.w.(trial := true, journal := [], start := s.c.cycles));
    StepPlain(d);
    var e := s.(w := s.w.(start := s.c.cycles));
    StepPlain(e);
    assert Plain(d) == Plain(e);
    var f := s.(w := s.w.(journal := [], start := s.c.cycles));
    StepPlain(f);
    assert Plain(f) == Plain(e);
  }

  // ---------- machine cycle stepping ----------

  /** Between two instructions, with nothing journalled. */
  predicate Ready(m: Mach)
  {
    m.mode.mcIndex == 0 && !m.sys.w.trial && m.sys.w.journal == []
  }

  /** The trace of the instruction about to run. */
  function Trace(m: Mach): seq<Mc> { ExecOne(m.sys).c.mc }

  /** Between instructions the dry run leaves nothing behind but the recorded trace. */
  lemma ProbeOnlyRecords(m: Mach)
    requires Ready(m)
    ensures Probe(m) == m.(mode := m.mode.(seen := Trace(m)))
  {
    ProbeRollsBack(m);
    DryRunForetells(m.sys);
    hide ExecOne, DryRun, Probe;
    assert m.sys.(w := m.sys.w.(journal := [])) == m.sys;
  }

  /** The three rows of LEDs show a machine cycle. */
  predicate Shows(leds: Leds, c: Mc) { leds.address == c.addr && leds.data == c.data && leds.status == c.status }

  /** Press k, short of the last, changes nothing but the LEDs, which show cycle k, and the step index. */
  lemma {:induction false} EarlyPresses(m: Mach, k: nat)
    requires Ready(m) && 1 <= k < |Trace(m)|
    ensures var p := Presses(m, k).0;
            && Presses(m, k) == (m.(leds := p.leds, mode := m.mode.(mcIndex := k, seen := Trace(m))), false)
            && Shows(p.leds, Trace(m)[k - 1])
  {
    hide Trace, Probe, Refresh;
    ProbeOnlyRecords(m);
    if k > 1 {
      EarlyPresses(m, k - 1);
    } else {
      assert Presses(m, 0) == (m, false);
    }
  }

  /** The last press runs the instruction for real. */
  lemma LastPress(m: Mach, n: nat)
    requires Ready(m) && n == |Trace(m)| && 1 <= n
    ensures var t := StepInstruction(m);
            Presses(m, n) == (t.(mode := t.mode.(seen := Trace(m))), true)
  {
    hide Probe, ExecOne;
    ProbeOnlyRecords(m);
    if n > 1 {
      EarlyPresses(m, n - 1);
    } else {
      assert Presses(m, 0) == (m, false);
    }
  }

  lemma TraceBounds(m: Mach)
    ensures 1 <= |Trace(m)| <= 5
    ensures Shows(StepInstruction(m).leds, Trace(m)[|Trace(m)| - 1])
  {
    TraceMatchesTime(m.sys.(w := m.sys.w.(start := m.sys.c.cycles)));
    hide Step;
  }

  /**
   * Cycle stepping refines instruction stepping. With n the cycles of the instruction, every press from 1 to
   * n shows its cycle on the LEDs. Presses 1 to n-1 change nothing else but the step trace; press n returns
   * true and leaves what umk_step_instruction leaves, LEDs and all, with only the recorded trace besides.
   */
  lemma CycleSteppingRefines(m: Mach)
    requires Ready(m)
    ensures var n := |Trace(m)|;
            && 1 <= n <= 5
            && (forall k :: 1 <= k < n ==> !Presses(m, k).1 && Presses(m, k).0.sys == m.sys)
            && (forall k :: 1 <= k <= n ==> Shows(Presses(m, k).0.leds, Trace(m)[k - 1]))
            && Presses(m, n).1
            && var t := StepInstruction(m);
               Presses(m, n).0 == t.(mode := t.mode.(seen := Trace(m)))
  {
    hide ExecOne, Presses, Trace, Shows;
    var n := |Trace(m)|;
    TraceBounds(m);
    LastPress(m, n);
    forall k | 1 <= k < n
      ensures !Presses(m, k).1 && Presses(m, k).0.sys == m.sys
      ensures Shows(Presses(m, k).0.leds, Trace(m)[k - 1])
    {
      EarlyPresses(m, k);
    }
  }

  /** The fetch cycles on the LEDs: the opcode at PC, then each operand byte at the address after. */
  lemma PressesShowBytes(m: Mach, k: nat)
    requires Ready(m) && !m.sys.c.irq.pending && !m.sys.c.irq.halted
    requires 1 <= k <= Isa.Length(Peek(m.sys.w, m.sys.c.pc))
    ensures k <= |Trace(m)|
    ensures var leds := Presses(m, k).0.leds;
            var at := Plus16(m.sys.c.pc, k - 1);
            leds.address == at && leds.data == Peek(m.sys.w, at) && leds.status == if k == 1 then 0xA2 else 0x82
  {
    hide Presses, Step, Trace, Isa.Length, Isa.Decode, Peek, Plus16, Ready, ExecOne;
    CycleSteppingRefines(m);
    var s := m.sys.(w := m.sys.w.(start := m.sys.c.cycles));
    LengthIsFetched(s);
    TraceMatchesTime(s);
    TraceIsStep(m);
    MemoryIsSeen(m.sys, Plus16(m.sys.c.pc, k - 1));
    MemoryIsSeen(m.sys, m.sys.c.pc);
    if k == 1 {
      NoStepAhead(m.sys.c.pc);
    }
  }

  lemma TraceIsStep(m: Mach)
    ensures Trace(m) == Step(m.sys.(w := m.sys.w.(start := m.sys.c.cycles))).c.mc
  {
    hide Step;
  }

  lemma MemoryIsSeen(s: Sys, a: word)
    ensures Peek(s.w.(start := s.c.cycles), a) == Peek(s.w, a)
  {
  }

  lemma NoStepAhead(pc: word)
    ensures Plus16(pc, 0) == pc
  {
  }

  /** The first press of a step that takes an interrupt, and of one that stays halted. */
  lemma PressShowsInterrupt(m: Mach)
    requires Ready(m) && (Accepts(m.sys.c) || m.sys.c.irq.halted)
    ensures var leds := Presses(m, 1).0.leds;
            && leds.address == m.sys.c.pc
            && leds.data == (if Accepts(m.sys.c) then m.sys.c.irq.vector else 0)
            && leds.status == (if !Accepts(m.sys.c) then 0x8A else if m.sys.c.irq.halted then 0x2B else 0x23)
  {
    hide Presses, Step;
    CycleSteppingRefines(m);
    var s := m.sys.(w := m.sys.w.(start := m.sys.c.cycles));
    TraceMatchesTime(s);
    assert Trace(m) == Step(s).c.mc;
  }

  // ---------- whole runs ----------

  /** The machine without the recorded trace, which only the cycle presses look at. */
  function Forget(m: Mach): Mach { m.(mode := m.mode.(seen := [])) }

  function Instructions(m: Mach, j: nat): Mach
  {
    if j == 0 then m else StepInstruction(Instructions(m, j - 1))
  }

  /** How many machine cycles the next `j` instructions take. */
  function CyclesOf(m: Mach, j: nat): nat
  {
    if j == 0 then 0 else CyclesOf(m, j - 1) + |Trace(Instructions(m, j - 1))|
  }

  lemma {:induction false} PressesCompose(m: Mach, a: nat, b: nat)
    requires 0 < b
    ensures Presses(m, a + b) == Presses(Presses(m, a).0, b)
  {
    hide PressCycle;
    if b == 1 {
      assert Presses(Presses(m, a).0, 0).0 == Presses(m, a).0;
    } else {
      PressesCompose(m, a, b - 1);
    }
  }

  /** A whole instruction, even in the middle of stepping one by its cycles, leaves the machine between two. */
  lemma StaysReady(m: Mach)
    requires !m.sys.w.trial && m.sys.w.journal == []
    ensures Ready(StepInstruction(m)) && StepInstruction(m).mode == m.mode.(mcIndex := 0)
  {
    var s := m.sys.(w := m.sys.w.(start := m.sys.c.cycles));
    StepPlain(s);
    assert Plain(s) == s;
  }

  lemma SameWhenForgotten(m: Mach, k: Mach)
    requires Forget(m) == Forget(k)
    ensures Forget(StepInstruction(m)) == Forget(StepInstruction(k)) && Trace(m) == Trace(k)
  {
    hide ExecOne;
  }

  /** Stepping any number of instructions cycle by cycle ends where stepping them whole ends. */
  lemma {:induction false} CycleRunRefines(m: Mach, j: nat)
    requires Ready(m)
    ensures Ready(Instructions(m, j)) && Ready(Presses(m, CyclesOf(m, j)).0)
    ensures Forget(Presses(m, CyclesOf(m, j)).0) == Forget(Instructions(m, j))
  {
    hide ExecOne, PressCycle, StepInstruction;
    if j > 0 {
      CycleRunRefines(m, j - 1);
      var i := Instructions(m, j - 1);
      var p := Presses(m, CyclesOf(m, j - 1)).0;
      SameWhenForgotten(p, i);
      CycleSteppingRefines(p);
      StaysReady(p);
      StaysReady(i);
      PressesCompose(m, CyclesOf(m, j - 1), |Trace(i)|);
    }
  }

  // ---------- running to a budget ----------

  lemma StepTakesTime(s: Sys)
    ensures s.c.cycles + 4 <= ExecOne(s).c.cycles <= s.c.cycles + 18
  {
    TraceMatchesTime(s.(w := s.w.(start := s.c.cycles)));
  }

  lemma {:induction false} RunStopsInTime(s: Sys, target: nat)
    requires s.c.cycles < target
    ensures target <= RunUntil(s, target).c.cycles <= target + 17
    decreases target - s.c.cycles
  {
    hide ExecOne;
    StepTakesTime(s);
    if ExecOne(s).c.cycles < target {
      RunStopsInTime(ExecOne(s), target);
    }
  }

  /** An unlatched run terminates and reports between the budget and 17 T states more; a latched one does nothing. */
  lemma RunReportsTheBudget(m: Mach, cycles: nat)
    requires 0 < cycles
    ensures m.mode.latchStep ==> RunCycles(m, cycles) == (m, 0)
    ensures !m.mode.latchStep ==>
              && cycles <= RunCycles(m, cycles).1 <= cycles + 17
              && RunCycles(m, cycles).0.sys.c.cycles == m.sys.c.cycles + RunCycles(m, cycles).1
  {
    hide RunUntil;
    if !m.mode.latchStep {
      RunStopsInTime(m.sys, m.sys.c.cycles + cycles);
    }
  }

  /** An unlatched run is as many instructions as it takes to reach the budget, and the LEDs show the last cycle. */
  lemma RunIsInstructions(m: Mach, cycles: nat) returns (j: nat)
    requires 0 < cycles && !m.mode.latchStep
    ensures 0 < j
    ensures var t := RunCycles(m, cycles).0;
            && t == m.(sys := Instructions(m, j).sys, leds := t.leds)
            && t.sys.c.mc != [] && Shows(t.leds, t.sys.c.mc[|t.sys.c.mc| - 1])
    ensures forall k: nat :: k < j ==> Instructions(m, k).sys.c.cycles < m.sys.c.cycles + cycles
    ensures m.sys.c.cycles + cycles <= Instructions(m, j).sys.c.cycles
  {
    hide ExecOne;
    var target := m.sys.c.cycles + cycles;
    j := 0;
    while Instructions(m, j).sys.c.cycles < target
      invariant RunUntil(m.sys, target) == RunUntil(Instructions(m, j).sys, target)
      invariant forall k: nat :: k < j ==> Instructions(m, k).sys.c.cycles < target
      invariant 0 < j ==> 0 < |Instructions(m, j).sys.c.mc|
      decreases target - Instructions(m, j).sys.c.cycles
    {
      StepTakesTime(Instructions(m, j).sys);
      TraceBounds(Instructions(m, j));
      j := j + 1;
    }
  }

  // ---------- reset ----------

  /** After a reset no interrupt can come, and the next step fetches from address 0. */
  lemma ResetFetches(m: Mach)
    ensures var t := Reset(m);
            && !Accepts(t.sys.c) && t.sys.c.cycles == 0 && !t.sys.c.irq.inte && !t.sys.c.irq.pending
            && t.sys.c.r == Regs(0, Flags(false, false, false, false, false), 0, 0, 0, 0, 0, 0, 0)
            && 1 <= |Trace(t)| && Trace(t)[0] == Mc(0xA2, 0, m.sys.w.rom[0])
  {
    hide Step;
    var t := Reset(m).sys;
    TraceMatchesTime(t.(w := t.w.(start := t.c.cycles)));
  }

  /** Ports A and B read FFH and select nothing, no key shows, the displays are blank, and memory stays. */
  lemma ResetBlanks(m: Mach)
    ensures var t := Reset(m);
            var w := t.sys.w;
            && w == m.sys.w.(ppi := w.ppi, screen := w.screen, start := 0)
            && w.ppi.outA == 0 && PortIn(w, 0xF8) == 0xFF && PortIn(w, 0xF9) == 0xFF && PortIn(w, 0xFA) == 0xFF
            && (forall i :: 0 <= i < 48 ==> w.screen.energy[i] == 0)
            && w.screen.total == 0 && w.screen.integratedTo == 0
            && t.leds.address == 0 && t.leds.data == 0 && t.leds.status == 0
            && t.mode == m.mode.(waiting := m.mode.latchStep, mcIndex := 0)
  {
    forall col: nat ensures !BitAt(0, col) {
      ZeroBit(col);
    }
    hide BitAt;
  }

  /** Power-on is a reset of empty memory, with the persistence at a fiftieth of a second's two million T states. */
  lemma InitIsReset(big: bool)
    ensures var m := Init(big);
            && Reset(m) == m && m.sys.w.ramSize == (if big then 2048 else 1024) && m.sys.w.screen.tau == 2000000 / 50
            && (forall a: word :: Peek(m.sys.w, a) == if a < 0x1000 then 0 else 0xFF)
  {
  }
}
