// COMPA and COMPA1 of the monitor, as the machine code that rom/monitor.asm assembles to, and the
// check and the loop end that the closed-range commands build from them.
module Monitor {
  import opened Bits
  import opened Board
  import opened Isa
  import opened Cpu
  import opened MachineCode
  import Arithmetic

  // Register and pair numbers.
  const B := 0
  const C := 1
  const D := 2
  const E := 3
  const H := 4
  const L := 5
  const M := 6
  const A := 7
  const BC := 0
  const DE := 1
  const NC := 2
  const CY := 3

  const COMPA := 0x22F
  const COMPA1 := 0x234
  const ERROR := 0x276

  /** COMPA and COMPA1. */
  predicate CompareCode(rom: Chip)
  {
    && rom[0x22F] == 0x23 && rom[0x230] == 0x7D && rom[0x231] == 0xB4 && rom[0x232] == 0x37 && rom[0x233] == 0xC8
    && rom[0x234] == 0x7B && rom[0x235] == 0x95 && rom[0x236] == 0x7A && rom[0x237] == 0x9C && rom[0x238] == 0xC9
  }

  lemma Opcodes1()
    ensures Decode(0x7B) == Mov(A, E) && Decode(0x95) == Alu(2, L) && Decode(0x7A) == Mov(A, D)
    ensures Decode(0x9C) == Alu(3, H) && Decode(0xC9) == Ret
  {
  }

  lemma Opcodes2()
    ensures Decode(0x23) == Inx(2) && Decode(0x7D) == Mov(A, L) && Decode(0xB4) == Alu(6, H)
    ensures Decode(0x37) == Stc && Decode(0xC8) == Rcc(1)
  {
  }

  lemma OrIsZero(x: byte, y: byte)
    ensures Or8(x, y) == 0 <==> x == 0 && y == 0
  {
    assert Pow2(8) == 256;
    OrZero(x, y, 8);
  }

  /** SUB on the low bytes and SBB on the high ones: the carry compares the pairs. */
  lemma WordBorrow(r: Regs, d: byte, e: byte, h: byte, l: byte)
    requires r.a == e
    ensures var r1 := AluSub(r, l, false); AluSub(r1.(a := d), h, r1.f.cy).f.cy <==> Word(h, l) > Word(d, e)
  {
    var r1 := AluSub(r, l, false);
    Arithmetic.SubByte(r, l, false);
    Arithmetic.SubByte(r1.(a := d), h, r1.f.cy);
  }

  /** Where a routine is, apart from A and the flags. */
  predicate Kept(k: Core, u: Core)
  {
    && u.r.b == k.r.b && u.r.c == k.r.c && u.r.d == k.r.d && u.r.e == k.r.e
    && u.r.h == k.r.h && u.r.l == k.r.l && u.r.sp == k.r.sp && u.w == k.w
  }

  /** COMPA1 sets the carry exactly when HL > DE, and returns. */
  lemma Compare1(k: Core) returns (u: Core)
    requires CompareCode(k.w.rom) && k.pc == COMPA1
    ensures Leads(k, 5, u) && u.pc == Word16(k.w, k.r.sp)
    ensures Kept(k, u.(r := u.r.(sp := k.r.sp))) && u.r.sp == Inc16(Inc16(k.r.sp))
    ensures u.r.f.cy <==> HL(k.r) > GetPair(k.r, DE)
  {
    hide Decode, Leads, AluSub, Word16, Peek, At, AluOp;
    Opcodes1();
    WordBorrow(k.r.(a := k.r.e), k.r.d, k.r.e, k.r.h, k.r.l);
    var r1 := k.r.(a := k.r.e);
    var r2 := AluSub(r1, k.r.l, false);
    var r3 := r2.(a := k.r.d);
    var r4 := AluSub(r3, k.r.h, r3.f.cy);
    Subtracts(r1, k.r.l);
    Borrows(r3, k.r.h);
    Here(k);
    Fetches(k);
    var k1 := GoMov(k, 0, k, A, E);
    assert k1 == Core(r1, 0x235, k.w);
    Fetches(k1);
    var k2 := GoAlu(k, 1, k1, 2, L);
    assert k2 == Core(r2, 0x236, k.w);
    Fetches(k2);
    var k3 := GoMov(k, 2, k2, A, D);
    assert k3 == Core(r3, 0x237, k.w);
    Fetches(k3);
    var k4 := GoAlu(k, 3, k3, 3, H);
    assert k4 == Core(r4, 0x238, k.w);
    Fetches(k4);
    u := GoRet(k, 4, k4);
  }

  lemma Here(k: Core)
    ensures Leads(k, 0, k)
  {
  }

  lemma Fetches(k: Core)
    requires k.pc < RAM_BASE
    ensures At(k) == Decode(k.w.rom[k.pc])
  {
  }

  lemma Subtracts(r: Regs, v: byte)
    ensures AluOp(r, 2, v) == AluSub(r, v, false)
    ensures AluSub(r, v, false) == r.(a := AluSub(r, v, false).a, f := AluSub(r, v, false).f)
  {
  }

  lemma Borrows(r: Regs, v: byte)
    ensures AluOp(r, 3, v) == AluSub(r, v, r.f.cy)
    ensures AluOp(r, 3, v) == r.(a := AluOp(r, 3, v).a, f := AluOp(r, 3, v).f)
  {
  }

  lemma Ors(r: Regs, v: byte)
    ensures AluOp(r, 6, v) == AluOra(r, v)
    ensures AluOra(r, v) == r.(a := AluOra(r, v).a, f := AluOra(r, v).f)
    ensures AluOra(r, v).f.z <==> r.a == 0 && v == 0
  {
    OrIsZero(r.a, v);
  }

  /** COMPA up to its RZ. */
  lemma CompareHead(k: Core) returns (u: Core)
    requires CompareCode(k.w.rom) && k.pc == COMPA
    ensures Leads(k, 4, u) && u == Core(u.r, 0x233, k.w)
    ensures var next := Inc16(HL(k.r));
            && u.r == k.r.(h := Hi(next), l := Lo(next), a := u.r.a, f := u.r.f)
            && u.r.f.cy && (u.r.f.z <==> next == 0)
  {
    hide Decode, Leads, Peek, At, AluOp, AluOra;
    var next := Inc16(HL(k.r));
    var r1 := k.r.(h := Hi(next), l := Lo(next));
    var r2 := r1.(a := r1.l);
    var r3 := AluOra(r2, r1.h);
    Opcodes2();
    Ors(r2, r1.h);
    Here(k);
    Fetches(k);
    var k1 := GoInx(k, 0, k, 2);
    assert k1 == Core(r1, 0x230, k.w);
    Fetches(k1);
    var k2 := GoMov(k, 1, k1, A, L);
    assert k2 == Core(r2, 0x231, k.w);
    Fetches(k2);
    var k3 := GoAlu(k, 2, k2, 6, H);
    assert k3 == Core(r3, 0x232, k.w);
    Fetches(k3);
    u := GoStc(k, 3, k3);
  }

  /** COMPA steps HL on and sets the carry exactly when it has wrapped to 0 or passed DE. */
  lemma Compare(k: Core) returns (u: Core)
    requires CompareCode(k.w.rom) && k.pc == COMPA
    ensures Leads(k, if Inc16(HL(k.r)) == 0 then 5 else 10, u) && u.pc == Word16(k.w, k.r.sp)
    ensures u.r.sp == Inc16(Inc16(k.r.sp)) && u.w == k.w
    ensures HL(u.r) == Inc16(HL(k.r)) && GetPair(u.r, DE) == GetPair(k.r, DE) && u.r.b == k.r.b && u.r.c == k.r.c
    ensures u.r.f.cy <==> HL(u.r) == 0 || HL(u.r) > GetPair(k.r, DE)
  {
    hide Decode, Leads, Word16, Peek, At;
    Opcodes2();
    var k4 := CompareHead(k);
    Fetches(k4);
    u := GoRcc(k, 4, k4, 1);
    if HL(k4.r) != 0 {
      var k5 := u;
      u := Compare1(k5);
      Then(k, 5, k5, 5, u);
    }
  }

  lemma Opcodes3()
    ensures Decode(0xCD) == Call && Decode(0xD2) == Jcc(NC) && Decode(0xDA) == Jcc(CY)
  {
  }

  /** CALL COMPA, JNC head. */
  predicate TailCode(rom: Chip, p: nat, head: word)
    requires p + 6 <= RAM_BASE
  {
    && rom[p] == 0xCD && rom[p + 1] == Lo(COMPA) && rom[p + 2] == Hi(COMPA)
    && rom[p + 3] == 0xD2 && rom[p + 4] == Lo(head) && rom[p + 5] == Hi(head)
  }

  lemma OperandIs(w: World, p: nat, v: word)
    requires p + 2 <= RAM_BASE && w.rom[p] == Lo(v) && w.rom[p + 1] == Hi(v)
    ensures Word16(w, p) == v
  {
  }

  /** Where a call at `p` and the jump after it lead. */
  lemma AfterCall(sp: word, p: nat)
    requires p + 6 <= RAM_BASE
    ensures Inc16(Inc16(Dec16(Dec16(sp)))) == sp
    ensures Plus16(p, 1) == p + 1 && Plus16(p, 3) == p + 3 && Plus16(p + 3, 1) == p + 4 && Plus16(p + 3, 3) == p + 6
  {
    BackAgain(sp);
    BackAgain(Dec16(sp));
    hide Inc16, Dec16;
  }

  lemma BackAgain(a: word)
    ensures Inc16(Dec16(a)) == a
  {
  }

  /** A stack with two bytes of RAM below it. */
  predicate StackInRam(sp: word) { IsRam(Dec16(sp)) && IsRam(Dec16(Dec16(sp))) }

  /** The end of a turn: HL steps on, and the loop goes round while it has not wrapped or passed DE. */
  lemma Tail(k: Core, p: nat, head: word) returns (u: Core)
    requires p + 6 <= RAM_BASE && k.pc == p && TailCode(k.w.rom, p, head) && CompareCode(k.w.rom)
    requires StackInRam(k.r.sp)
    ensures var next := Inc16(HL(k.r));
            && Leads(k, if next == 0 then 7 else 12, u)
            && u.pc == (if next == 0 || next > GetPair(k.r, DE) then p + 6 else head)
            && HL(u.r) == next
    ensures GetPair(u.r, DE) == GetPair(k.r, DE) && u.r.b == k.r.b && u.r.c == k.r.c && u.r.sp == k.r.sp
    ensures u.w == Pushed(k.w, k.r.sp, p + 3)
  {
    hide Decode, Leads, At, Pushed, CompareCode, Word16, Peek, Hi, Lo, Word;
    Opcodes3();
    PushedReads(k.w, k.r.sp, p + 3);
    Here(k);
    Fetches(k);
    OperandIs(k.w, p + 1, COMPA);
    AfterCall(k.r.sp, p);
    hide Plus16, Inc16, Dec16, StackInRam;
    var k1 := GoCall(k, 0, k);
    var k2 := Compare(k1);
    var n := if Inc16(HL(k.r)) == 0 then 5 else 10;
    Then(k, 1, k1, n, k2);
    Fetches(k2);
    OperandIs(k2.w, p + 4, head);
    u := GoJcc(k, 1 + n, k2, NC);
  }

  // ---------- the check before a walk ----------

  /** CALL COMPA1, JC ERROR. */
  predicate EntryCode(rom: Chip, p: nat)
    requires p + 6 <= RAM_BASE
  {
    && rom[p] == 0xCD && rom[p + 1] == Lo(COMPA1) && rom[p + 2] == Hi(COMPA1)
    && rom[p + 3] == 0xDA && rom[p + 4] == Lo(ERROR) && rom[p + 5] == Hi(ERROR)
  }

  /** A walk whose first address is above its last goes to ERROR, any other to its loop. */
  lemma Entry(k: Core, p: nat) returns (u: Core)
    requires p + 6 <= RAM_BASE && k.pc == p && EntryCode(k.w.rom, p) && CompareCode(k.w.rom)
    requires StackInRam(k.r.sp)
    ensures Leads(k, 7, u) && u.pc == (if HL(k.r) > GetPair(k.r, DE) then ERROR else p + 6)
    ensures Kept(k.(w := Pushed(k.w, k.r.sp, p + 3)), u)
  {
    hide Decode, Leads, At, Pushed, CompareCode, Word16, Peek, Hi, Lo, Word;
    Opcodes3();
    PushedReads(k.w, k.r.sp, p + 3);
    Here(k);
    Fetches(k);
    OperandIs(k.w, p + 1, COMPA1);
    AfterCall(k.r.sp, p);
    hide Plus16, Inc16, Dec16, StackInRam;
    var k1 := GoCall(k, 0, k);
    var k2 := Compare1(k1);
    Then(k, 1, k1, 5, k2);
    Fetches(k2);
    OperandIs(k2.w, p + 4, ERROR);
    u := GoJcc(k, 6, k2, CY);
  }

  // ---------- memory, apart from the two stack cells that the calls use ----------

  predicate StackCell(ramSize: RamSize, sp: word, i: RamIndex)
    requires StackInRam(sp)
  {
    i == Cell(ramSize, Dec16(sp)) || i == Cell(ramSize, Dec16(Dec16(sp)))
  }

  /** The same board but for the two cells under the stack pointer. */
  ghost predicate SameOff(w: World, v: World, sp: word)
    requires StackInRam(sp)
  {
    && w == v.(ram := w.ram)
    && forall i: RamIndex :: !StackCell(v.ramSize, sp, i) ==> w.ram[i] == v.ram[i]
  }

  lemma PushedOff(w: World, sp: word, v: word)
    requires StackInRam(sp) && !w.trial
    ensures SameOff(Pushed(w, sp, v), w, sp)
  {
  }

  /** No address among the `n` from `a` reaches the two stack cells. */
  ghost predicate ClearOfStack(ramSize: RamSize, sp: word, a: word, n: nat)
    requires StackInRam(sp)
  {
    !Hit(ramSize, a, n, Cell(ramSize, Dec16(sp))) && !Hit(ramSize, a, n, Cell(ramSize, Dec16(Dec16(sp))))
  }

  lemma PeekOff(w: World, v: World, sp: word, a: word, n: nat, j: nat)
    requires StackInRam(sp) && SameOff(w, v, sp) && ClearOfStack(v.ramSize, sp, a, n) && j < n
    ensures Peek(w, Plus16(a, j)) == Peek(v, Plus16(a, j))
  {
    var x := Plus16(a, j);
    if IsRam(x) {
      assert Hit(v.ramSize, a, n, Cell(v.ramSize, x));
    }
  }

  lemma PokeOff(w: World, v: World, sp: word, a: word, b: byte)
    requires StackInRam(sp) && !v.trial && SameOff(w, v, sp)
    ensures SameOff(Poke(w, a, b), Poke(v, a, b), sp)
  {
  }

  lemma OffOff(w: World, v: World, x: World, sp: word)
    requires StackInRam(sp) && SameOff(w, v, sp) && SameOff(v, x, sp)
    ensures SameOff(w, x, sp)
  {
  }

  lemma OffKeeps(w: World, v: World, sp: word)
    requires StackInRam(sp) && SameOff(w, v, sp)
    ensures w.rom == v.rom && w.trial == v.trial && w.ramSize == v.ramSize
  {
  }

  lemma NextAddress(a: word, m: nat)
    ensures Inc16(Plus16(a, m)) == Plus16(a, m + 1)
  {
  }

  lemma PokePeek(w: World, a: word, v: byte, x: word)
    ensures Peek(Poke(w, a, v), x) == if SameCell(w.ramSize, x, a) then v else Peek(w, x)
    ensures Poke(w, a, v).ramSize == w.ramSize
  {
  }
}
