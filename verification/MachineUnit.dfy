// umk_machine_t: the machine of core/src/machine.c, stepped in place.
module MachineUnit {
  import opened Bits
  import B = Board
  import C = Cpu
  import M = Machine
  import D = Display
  import BoardUnit
  import Processor
  import MachineLaws
  import StepLaws

  class Umk80 {
    const cpu: Processor.I8080
    const bus: BoardUnit.Bus
    var leds: M.Leds
    var mode: M.StepMode

    ghost function Repr(): set<object> { {this, cpu} + bus.Repr() }

    ghost predicate Valid()
      reads this, bus
    {
      bus.Valid()
    }

    ghost function Sys(): C.Sys
      reads this, cpu, bus, bus.Repr(), bus.rom
      requires Valid()
    {
      cpu.Now(bus)
    }

    ghost function State(): M.Mach
      reads this, cpu, bus, bus.Repr(), bus.rom
      requires Valid()
    {
      M.Mach(Sys(), leds, mode)
    }

    /** `umk_init`. */
    constructor (big: bool)
      ensures Valid() && fresh(Repr()) && State() == M.Init(big)
    {
      cpu := new Processor.I8080();
      bus := new BoardUnit.Bus(big);
      leds := M.Leds(0, 0, 0);
      mode := M.StepMode(false, false, false, 0, []);
    }

    /** `exec_one`. */
    method ExecOne() returns (c: nat)
      requires Valid()
      modifies cpu, bus.Repr()
      ensures Valid() && State() == old(State()).(sys := M.ExecOne(old(Sys())))
      ensures cpu.cycles == old(cpu.cycles) + c
    {
      hide C.Step, B.Integrate, BoardUnit.Bus.View;
      SetStart();
      c := cpu.Step(bus);
      bus.Integrate(cpu.cycles);
    }

    method SetStart()
      requires Valid()
      modifies bus`start
      ensures Valid() && Sys() == old(Sys()).(w := old(Sys()).w.(start := cpu.cycles))
    {
      bus.start := cpu.cycles;
    }

    /** `panel_update`. */
    method PanelUpdate()
      requires Valid()
      modifies this`leds
      ensures State() == M.Refresh(old(State()))
    {
      if |cpu.mc| > 0 {
        leds := M.Show(cpu.mc[|cpu.mc| - 1]);
      }
    }

    /** `umk_step_instruction`. */
    method StepInstruction() returns (c: nat)
      requires Valid()
      modifies this, cpu, bus.Repr()
      ensures Valid() && State() == M.StepInstruction(old(State()))
    {
      hide M.ExecOne, BoardUnit.Bus.View;
      c := ExecOne();
      mode := mode.(mcIndex := 0);
      PanelUpdate();
    }

    /** Copies the trace of the instruction just run. */
    method Record()
      requires |cpu.mc| <= C.TRACE_SLOTS
      modifies this`mode
      ensures mode == old(mode).(seen := cpu.mc)
    {
      var seen, i := [], 0;
      while i < |cpu.mc| && i < C.TRACE_SLOTS
        invariant 0 <= i <= |cpu.mc| && seen == cpu.mc[..i]
      {
        seen := seen + [cpu.mc[i]];
        i := i + 1;
      }
      mode := mode.(seen := seen);
    }

    /** The dry run, its recording and the undo loop. */
    method RunDry()
      requires Valid()
      modifies this`mode, cpu, bus.Repr()
      ensures Valid()
      ensures var t := M.DryRun(old(Sys()));
              State() == old(State()).(
                sys := C.Sys(t.c, t.w.(ram := B.Undone(t.w.ram, t.w.journal), trial := false, journal := [])),
                mode := old(mode).(seen := t.c.mc))
    {
      hide M.ExecOne, B.Undone, BoardUnit.Bus.View;
      ghost var m := State();
      StartTrial();
      var _ := ExecOne();
      assert Sys() == M.DryRun(m.sys);
      DryTrace(m.sys);
      Record();
      bus.Rollback();
    }

    /** `step_probe`: dry run, record, roll back. */
    method StepProbe()
      requires Valid()
      modifies this`mode, cpu, bus.Repr()
      ensures Valid() && State() == M.Probe(old(State()))
    {
      var r, pc, irq, cycles, mc := cpu.r, cpu.pc, cpu.irq, cpu.cycles, cpu.mc;
      var ppi, screen, start := bus.ppi, bus.disp.View(), bus.start;
      var unmapped, dbg := bus.unmapped, bus.dbg;
      ghost var m := State();
      assert ppi == m.sys.w.ppi && screen == m.sys.w.screen && start == m.sys.w.start;
      assert unmapped == m.sys.w.unmapped && dbg == m.sys.w.dbg;
      hide M.DryRun, B.Undone, BoardUnit.Bus.View, M.ExecOne;
      RunDry();
      Reload(ppi, screen, start, unmapped, dbg);
      PutBack(r, pc, irq, cycles, mc);
    }

    method PutBack(r: C.Regs, pc: word, irq: C.Irq, cycles: nat, mc: seq<C.Mc>)
      requires Valid()
      modifies cpu
      ensures Valid() && Sys() == C.Sys(C.Cpu(r, pc, irq, cycles, mc), old(Sys()).w)
    {
      cpu.r, cpu.pc, cpu.irq, cpu.cycles, cpu.mc := r, pc, irq, cycles, mc;
    }

    method StartTrial()
      requires Valid()
      modifies bus`trial, bus`trialN
      ensures Valid() && Sys() == old(Sys()).(w := old(Sys()).w.(trial := true, journal := []))
    {
      bus.trial, bus.trialN := true, 0;
    }

    method Reload(ppi: B.Ppi, screen: D.Screen, start: nat, unmapped: u32, dbg: byte)
      requires Valid()
      modifies bus, bus.disp, bus.disp.energy, bus.disp.energyDigit
      ensures Valid()
      ensures Sys() == old(Sys()).(w := old(Sys()).w.(
        ppi := ppi, screen := screen, start := start, unmapped := unmapped, dbg := dbg))
    {
      bus.disp.Restore(screen);
      bus.ppi, bus.start, bus.unmapped, bus.dbg := ppi, start, unmapped, dbg;
    }

    lemma DryTrace(s: C.Sys)
      ensures |M.DryRun(s).c.mc| < C.TRACE_SLOTS
    {
      StepLaws.TraceMatchesTime(s.(w := s.w.(trial := true, journal := [], start := s.c.cycles)));
    }

    /** `umk_step_machine_cycle`. */
    method StepMachineCycle() returns (done: bool)
      requires Valid()
      modifies this, cpu, bus.Repr()
      ensures Valid() && (State(), done) == M.PressCycle(old(State()))
    {
      hide M.ExecOne, M.Probe, BoardUnit.Bus.View;
      if mode.mcIndex == 0 {
        StepProbe();
      }
      if mode.mcIndex + 1 >= |mode.seen| {
        var _ := ExecOne();
        PanelUpdate();
        mode := mode.(mcIndex := 0);
        return true;
      }
      leds := M.Show(mode.seen[mode.mcIndex]);
      mode := mode.(mcIndex := mode.mcIndex + 1);
      return false;
    }

    /** `umk_run_cycles`. */
    method RunCycles(cycles: nat) returns (spent: nat)
      requires Valid()
      modifies this, cpu, bus.Repr()
      ensures Valid() && (State(), spent) == M.RunCycles(old(State()), cycles)
    {
      hide M.ExecOne, BoardUnit.Bus.View;
      if mode.latchStep {
        return 0;
      }
      var start := cpu.cycles;
      ghost var m := State();
      while cpu.cycles - start < cycles
        invariant Valid() && cpu.cycles >= start
        invariant State() == m.(sys := Sys())
        invariant M.RunUntil(Sys(), start + cycles) == M.RunUntil(m.sys, start + cycles)
        decreases cycles + start - cpu.cycles
      {
        MachineLaws.StepTakesTime(Sys());
        var _ := ExecOne();
      }
      PanelUpdate();
      spent := cpu.cycles - start;
    }

    /** `umk_reset`. */
    method Reset()
      requires Valid()
      modifies this, cpu, bus.Repr()
      ensures Valid() && State() == M.Reset(old(State()))
    {
      cpu.Reset();
      bus.Reset();
      mode := mode.(waiting := mode.latchStep, mcIndex := 0);
      leds := M.Leds(0, 0, 0);
    }

    /** `umk_press_step`: nothing unless single stepping is latched. */
    method PressStep()
      requires Valid()
      modifies this, cpu, bus.Repr()
      ensures Valid()
      ensures !old(mode.latchStep) ==> State() == old(State())
      ensures old(mode.latchStep && mode.latchCycle) ==> State() == M.PressCycle(old(State())).0
      ensures old(mode.latchStep && !mode.latchCycle) ==> State() == M.StepInstruction(old(State()))
    {
      hide M.PressCycle, M.StepInstruction, BoardUnit.Bus.View;
      if mode.latchStep {
        if mode.latchCycle {
          var _ := StepMachineCycle();
        } else {
          var _ := StepInstruction();
        }
      }
    }
  }
}
