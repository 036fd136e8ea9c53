// The monitor's routines run in place: the processor steps through their machine code, and memory
// ends as the laws of Walks and Breakpoints say.
module MonitorUnit {
  import opened Bits
  import B = Board
  import C = Cpu
  import BoardUnit
  import Processor
  import MC = MachineCode
  import Monitor
  import W = Walks
  import Copying
  import BP = Breakpoints

  /** So many instructions. */
  method Run(cpu: Processor.I8080, bus: BoardUnit.Bus, n: nat)
    requires bus.Valid()
    modifies cpu, bus.Repr()
    ensures bus.Valid() && cpu.Now(bus) == MC.Steps(old(cpu.Now(bus)), n)
  {
    hide C.Step, BoardUnit.Bus.View;
    ghost var s := cpu.Now(bus);
    var left := n;
    while left > 0
      invariant bus.Valid() && 0 <= left <= n && MC.Steps(cpu.Now(bus), left) == MC.Steps(s, n)
    {
      var _ := cpu.Step(bus);
      left := left - 1;
    }
  }

  /** How many instructions a walk runs for, its check included; five fewer when HL wraps. */
  function WalkSteps(first: word, last: word, turn: nat, before: nat): nat
    requires turn >= 5
  {
    if first > last then 7
    else
      assert turn * W.Count(first, last) >= turn;
      before + turn * W.Count(first, last) - (if last == 0xFFFF then 5 else 0)
  }

  ghost predicate Ready(cpu: Processor.I8080, bus: BoardUnit.Bus)
    reads cpu, bus, bus.Repr(), bus.rom
  {
    && bus.Valid() && MC.Quiet(cpu.Now(bus))
    && Monitor.StackInRam(cpu.r.sp) && !bus.View().trial
  }

  /** FILE from its check of the addresses on; `ok` is false when it goes to ERROR instead. */
  method Fill(cpu: Processor.I8080, bus: BoardUnit.Bus) returns (ok: bool)
    requires Ready(cpu, bus) && cpu.pc == 0x169 && W.FillCode(bus.View().rom)
    modifies cpu, bus.Repr()
    ensures bus.Valid() && cpu.pc == if ok then 0x176 else Monitor.ERROR
    ensures var (first, last) := (old(C.HL(cpu.r)), old(C.GetPair(cpu.r, 1)));
            && (ok <==> first <= last)
            && (!ok ==> Monitor.SameOff(bus.View(), old(bus.View()), old(cpu.r.sp)))
            && (ok ==> W.Filled(bus.View(), old(bus.View()), old(cpu.r.sp), first, W.Count(first, last), old(cpu.r.c)))
  {
    hide MC.Steps, W.Filled, Monitor.SameOff, BoardUnit.Bus.View;
    ok := C.HL(cpu.r) <= C.GetPair(cpu.r, 1);
    ghost var n := W.FillRuns(cpu.Now(bus));
    Run(cpu, bus, WalkSteps(C.HL(cpu.r), C.GetPair(cpu.r, 1), 13, 7));
  }

  /** MOVE from its check on. */
  method Move(cpu: Processor.I8080, bus: BoardUnit.Bus) returns (ok: bool)
    requires Ready(cpu, bus) && cpu.pc == 0x181 && Copying.MoveCode(bus.View().rom)
    modifies cpu, bus.Repr()
    ensures bus.Valid() && cpu.pc == if ok then 0x190 else Monitor.ERROR
    ensures var (w, first, last, dst, sp) :=
              (old(bus.View()), old(C.HL(cpu.r)), old(C.GetPair(cpu.r, 1)), old(C.GetPair(cpu.r, 0)), old(cpu.r.sp));
            && (ok <==> first <= last)
            && (!ok ==> Monitor.SameOff(bus.View(), w, sp))
            && (ok ==> bus.View() == Copying.Moved(MC.Pushed(w, sp, 0x184), sp, first, dst, W.Count(first, last)))
            && (ok && Monitor.ClearOfStack(w.ramSize, sp, first, W.Count(first, last)) ==>
                Monitor.SameOff(bus.View(), Copying.Copied(w, first, dst, W.Count(first, last)), sp))
  {
    hide MC.Steps, MC.Pushed, Copying.Copied, Copying.Moved, Monitor.SameOff, Monitor.ClearOfStack;
    ok := C.HL(cpu.r) <= C.GetPair(cpu.r, 1);
    ghost var n := Copying.MoveRuns(cpu.Now(bus));
    hide BoardUnit.Bus.View;
    Run(cpu, bus, WalkSteps(C.HL(cpu.r), C.GetPair(cpu.r, 1), 15, 7));
  }

  /** CHSUM from its check on; the sum is what C holds at the end. */
  method Checksum(cpu: Processor.I8080, bus: BoardUnit.Bus) returns (ok: bool, sum: byte)
    requires Ready(cpu, bus) && cpu.pc == 0x19A && W.SumCode(bus.View().rom)
    modifies cpu, bus.Repr()
    ensures bus.Valid() && cpu.pc == if ok then 0x1AB else Monitor.ERROR
    ensures Monitor.SameOff(bus.View(), old(bus.View()), old(cpu.r.sp))
    ensures var (w, first, last, sp) := (old(bus.View()), old(C.HL(cpu.r)), old(C.GetPair(cpu.r, 1)), old(cpu.r.sp));
            && (ok <==> first <= last)
            && (ok ==> sum == W.LoopSum(MC.Pushed(w, sp, 0x19D), sp, first, W.Count(first, last)) % 256)
            && (ok && Monitor.ClearOfStack(w.ramSize, sp, first, W.Count(first, last)) ==>
                sum == W.MemorySum(w, first, W.Count(first, last)) % 256)
  {
    hide MC.Steps, MC.Pushed, W.MemorySum, W.LoopSum, Monitor.SameOff, Monitor.ClearOfStack;
    ok := C.HL(cpu.r) <= C.GetPair(cpu.r, 1);
    ghost var n := W.SumRuns(cpu.Now(bus));
    hide BoardUnit.Bus.View;
    Run(cpu, bus, WalkSteps(C.HL(cpu.r), C.GetPair(cpu.r, 1), 15, 8));
    sum := cpu.r.c;
  }

  /** G03 with one address or two. */
  method Plant(cpu: Processor.I8080, bus: BoardUnit.Bus)
    requires bus.Valid() && (BP.AtG03(cpu.Now(bus), 1) || BP.AtG03(cpu.Now(bus), 2))
    modifies cpu, bus.Repr()
    ensures bus.Valid() && cpu.pc == 0x15B
    ensures var (w, sp) := (old(bus.View()), old(cpu.r.sp));
            var p := BP.Planted(w, BP.TLOC, MC.Word16(w, sp));
            bus.View() == if old(cpu.r.d) == 1 then p else BP.Planted(p, BP.TLOC + BP.SLOT, MC.Word16(p, Plus16(sp, 2)))
  {
    hide MC.Steps, BP.Planted, BoardUnit.Bus.View, MC.Word16;
    if cpu.r.d == 1 {
      BP.PlantsOne(cpu.Now(bus));
    } else {
      BP.PlantsTwo(cpu.Now(bus));
    }
    Run(cpu, bus, 12 * cpu.r.d);
  }

  /** How many instructions the turn of RST2 at a slot takes. */
  method SlotSteps(bus: BoardUnit.Bus, slot: word) returns (n: nat)
    requires bus.Valid() && (slot == BP.TLOC || slot == BP.TLOC + BP.SLOT)
    ensures n == BP.LiftSteps(bus.View(), slot)
  {
    hide B.Peek, B.Poke;
    var lo := bus.Peek(slot);
    var hi := bus.Peek(slot + 1);
    Monitor.PokePeek(bus.View(), slot, 0, slot + 1);
    BP.TableApart(bus.View().ramSize, slot + 1, slot);
    n := if lo == 0 && hi == 0 then 13 else 15;
  }

  /** RST2, one slot after the other. */
  method Lift(cpu: Processor.I8080, bus: BoardUnit.Bus)
    requires bus.Valid() && BP.AtRst2(cpu.Now(bus))
    modifies cpu, bus.Repr()
    ensures bus.Valid() && cpu.pc == 0x21C
    ensures bus.View() == BP.Lifted(BP.Lifted(old(bus.View()), BP.TLOC), BP.TLOC + BP.SLOT)
  {
    hide MC.Steps, BP.Lifted, BoardUnit.Bus.View, BP.LiftSteps, BP.LiftCode;
    BP.LiftsOne(cpu.Now(bus), 0);
    var first := SlotSteps(bus, BP.TLOC);
    Run(cpu, bus, first);
    BP.LiftsOne(cpu.Now(bus), 1);
    var second := SlotSteps(bus, BP.TLOC + BP.SLOT);
    Run(cpu, bus, second);
  }
}
