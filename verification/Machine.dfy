// Stepping the machine: core/src/machine.c from exec_one to umk_run_cycles, on values.
module Machine {
  import opened Bits
  import opened Board
  import opened Cpu
  import StepLaws
  import D = Display

  /** The address, data and status rows of LEDs. */
  datatype Leds = Leds(address: word, data: byte, status: byte)

  /** `umk_step_t` without the debug port; `seen` holds the `mc_total` recorded cycles. */
  datatype StepMode = StepMode(latchStep: bool, latchCycle: bool, waiting: bool, mcIndex: nat, seen: seq<Mc>)

  datatype Mach = Mach(sys: Sys, leds: Leds, mode: StepMode)

  /** `exec_one`. */
  function ExecOne(s: Sys): Sys
  {
    var t := Step(s.(w := s.w.(start := s.c.cycles)));
    t.(w := Integrate(t.w, t.c.cycles))
  }

  function Show(mc: Mc): Leds { Leds(mc.addr, mc.data, mc.status) }

  /** `panel_update`: the last machine cycle, if there is one. */
  function Refresh(m: Mach): Mach
  {
    var mc := m.sys.c.mc;
    if mc == [] then m else m.(leds := Show(mc[|mc| - 1]))
  }

  /** `umk_step_instruction`. */
  function StepInstruction(m: Mach): Mach
  {
    Refresh(m.(sys := ExecOne(m.sys), mode := m.mode.(mcIndex := 0)))
  }

  /** What the dry run leaves on the bus before anything is put back. */
  function DryRun(s: Sys): Sys
  {
    ExecOne(s.(w := s.w.(trial := true, journal := [])))
  }

  /** `step_probe`: record the trace of a dry run, undo its RAM writes and restore the saved fields. */
  function Probe(m: Mach): Mach
  {
    var t := DryRun(m.sys);
    var w := t.w.(
      ram := Undone(t.w.ram, t.w.journal), trial := false, journal := [],
      ppi := m.sys.w.ppi, screen := m.sys.w.screen, start := m.sys.w.start,
      unmapped := m.sys.w.unmapped, dbg := m.sys.w.dbg);
    m.(sys := Sys(m.sys.c, w), mode := m.mode.(seen := t.c.mc))
  }

  /** `umk_step_machine_cycle`; the flag says that this press completed the instruction. */
  function PressCycle(m: Mach): (Mach, bool)
  {
    var m1 := if m.mode.mcIndex == 0 then Probe(m) else m;
    var k := m1.mode.mcIndex;
    if k + 1 >= |m1.mode.seen| then
      (Refresh(m1.(sys := ExecOne(m1.sys))).(mode := m1.mode.(mcIndex := 0)), true)
    else
      (m1.(leds := Show(m1.mode.seen[k]), mode := m1.mode.(mcIndex := k + 1)), false)
  }

  /** The machine after `k` presses, and what the last of them returned. */
  function Presses(m: Mach, k: nat): (Mach, bool)
  {
    if k == 0 then (m, false) else PressCycle(Presses(m, k - 1).0)
  }

  /** The loop of `umk_run_cycles`. */
  function RunUntil(s: Sys, target: nat): Sys
    decreases target - s.c.cycles
  {
    if s.c.cycles >= target then s
    else
      StepLaws.TraceMatchesTime(s.(w := s.w.(start := s.c.cycles)));
      RunUntil(ExecOne(s), target)
  }

  /** `umk_run_cycles`, with the T states it reports. */
  function RunCycles(m: Mach, cycles: nat): (Mach, nat)
  {
    if m.mode.latchStep then (m, 0)
    else
      var t := RunUntil(m.sys, m.sys.c.cycles + cycles);
      (Refresh(m.(sys := t)), if t.c.cycles < m.sys.c.cycles then 0 else t.c.cycles - m.sys.c.cycles)
  }

  // ---------- power-on and reset ----------

  /** `umk_init`. */
  function Init(big: bool): Mach
  {
    Mach(Sys(RESET, PowerOn(big)), Leds(0, 0, 0), StepMode(false, false, false, 0, []))
  }

  /** `umk_reset`. */
  function Reset(m: Mach): Mach
  {
    var w := m.sys.w;
    var v := w.(ppi := WriteControl(w.ppi, 0x9B), start := 0, screen := D.Cleared(w.screen, 0));
    Mach(Sys(RESET, v), Leds(0, 0, 0), m.mode.(waiting := m.mode.latchStep, mcIndex := 0))
  }
}
