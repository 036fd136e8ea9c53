// Breakpoints of the monitor, run as machine code: G03 plants RST 7 and RST2 puts the original
// bytes back, through the table of addresses and bytes at TLOC.
module Breakpoints {
  import opened Bits
  import opened Board
  import opened Isa
  import opened Cpu
  import opened MachineCode
  import opened Monitor
  import opened Walks

  const TLOC := 0xFE8
  const SLOT := 3

  // ---------- what the two loops do to memory ----------

  /** A slot of the table takes the address and the byte there, and RST 7 goes in its place. */
  function Planted(w: World, slot: word, a: word): World
  {
    var w1 := Poke(Poke(w, slot, Lo(a)), Plus16(slot, 1), Hi(a));
    Poke(Poke(w1, Plus16(slot, 2), Peek(w1, a)), a, 0xFF)
  }

  /** A slot's address is cleared and, unless it was zero, its byte goes back there. */
  function Lifted(w: World, slot: word): World
  {
    var lo := Peek(w, slot);
    var w1 := Poke(w, slot, 0);
    var hi := Peek(w1, Plus16(slot, 1));
    var w2 := Poke(w1, Plus16(slot, 1), 0);
    if lo == 0 && hi == 0 then w2 else Poke(w2, Word(hi, lo), Peek(w2, Plus16(slot, 2)))
  }

  // ---------- G03 ----------

  predicate PlantCode(rom: Chip)
  {
    && rom[0x14C] == 0xC1 && rom[0x14D] == 0x71 && rom[0x14E] == 0x23 && rom[0x14F] == 0x70 && rom[0x150] == 0x23
    && rom[0x151] == 0x0A && rom[0x152] == 0x77 && rom[0x153] == 0x3E && rom[0x154] == 0xFF && rom[0x155] == 0x02
    && rom[0x156] == 0x23 && rom[0x157] == 0x15
    && rom[0x158] == 0xC2 && rom[0x159] == 0x4C && rom[0x15A] == 0x01
  }

  lemma Opcodes6()
    ensures Decode(0xC1) == Pop(BC) && Decode(0x71) == Mov(M, C) && Decode(0x23) == Inx(2) && Decode(0x70) == Mov(M, B)
  {
  }

  lemma Opcodes7()
    ensures Decode(0x0A) == Ldax(BC) && Decode(0x77) == Mov(M, A) && Decode(0x3E) == Mvi(A) && Decode(0x02) == Stax(BC)
  {
  }

  lemma Opcodes8()
    ensures Decode(0x23) == Inx(2) && Decode(0x15) == Dcr(Monitor.D) && Decode(0xC2) == Jcc(0)
  {
  }

  lemma PokeKeeps(w: World, a: word, v: byte)
    ensures Poke(w, a, v).rom == w.rom && Poke(w, a, v).trial == w.trial && Poke(w, a, v).ramSize == w.ramSize
  {
  }

  lemma WordParts(v: word)
    ensures Word(Hi(v), Lo(v)) == v
  {
  }

  /** The address is popped and goes into the slot. */
  lemma PlantAddress(k: Core) returns (u: Core)
    requires PlantCode(k.w.rom) && k.pc == 0x14C
    ensures var a := Word16(k.w, k.r.sp);
            var slot := HL(k.r);
            && Leads(k, 5, u)
            && u == Core(u.r, 0x151, Poke(Poke(k.w, slot, Lo(a)), Plus16(slot, 1), Hi(a)))
            && u.r.sp == Plus16(k.r.sp, 2) && HL(u.r) == Plus16(slot, 2) && GetPair(u.r, BC) == a
    ensures u.r.d == k.r.d && u.w.rom == k.w.rom
  {
    hide Decode, Leads, At, Word16, Peek, Poke, Hi, Lo, Word;
    Opcodes6();
    Here(k);
    Fetches(k);
    var a := Word16(k.w, k.r.sp);
    var slot := HL(k.r);
    WordParts(a);
    WordParts(Inc16(slot));
    WordParts(Inc16(Inc16(slot)));
    var k1 := GoPop(k, 0, k, BC);
    Fetches(k1);
    var k2 := GoStore(k, 1, k1, C);
    PokeKeeps(k.w, slot, Lo(a));
    Fetches(k2);
    var k3 := GoInx(k, 2, k2, 2);
    Fetches(k3);
    var k4 := GoStore(k, 3, k3, B);
    PokeKeeps(k3.w, Plus16(slot, 1), Hi(a));
    Fetches(k4);
    u := GoInx(k, 4, k4, 2);
  }

  /** The byte there goes into the slot, and RST 7 in its place. */
  lemma PlantByte(k: Core) returns (u: Core)
    requires PlantCode(k.w.rom) && k.pc == 0x151
    ensures var a := GetPair(k.r, BC);
            && Leads(k, 4, u)
            && u == Core(u.r, 0x156, Poke(Poke(k.w, HL(k.r), Peek(k.w, a)), a, 0xFF))
            && u.r.sp == k.r.sp && HL(u.r) == HL(k.r) && u.r.d == k.r.d && u.w.rom == k.w.rom
  {
    hide Decode, Leads, At, Poke;
    Opcodes7();
    Here(k);
    Fetches(k);
    var a := GetPair(k.r, BC);
    RomReads(k.w, 0x154);
    hide Peek;
    var k1 := GoLdax(k, 0, k, BC);
    Fetches(k1);
    var k2 := GoStore(k, 1, k1, A);
    PokeKeeps(k1.w, HL(k.r), Peek(k.w, a));
    Fetches(k2);
    RomReads(k2.w, 0x154);
    var k3 := GoMvi(k, 2, k2, A);
    Fetches(k3);
    u := GoStax(k, 3, k3, BC);
    PokeKeeps(k3.w, a, 0xFF);
  }

  /** INX H, DCR D, JNZ: the next slot, for as long as D lasts. */
  predicate TurnCode(rom: Chip, p: nat, head: word)
    requires p + 5 <= RAM_BASE
  {
    rom[p] == 0x23 && rom[p + 1] == 0x15 && rom[p + 2] == 0xC2 && rom[p + 3] == Lo(head) && rom[p + 4] == Hi(head)
  }

  lemma NextSlot(k: Core, p: nat, head: word) returns (u: Core)
    requires p + 5 <= RAM_BASE && k.pc == p && TurnCode(k.w.rom, p, head)
    ensures var left := (k.r.d + 255) % 256;
            && Leads(k, 3, u) && u.w == k.w && HL(u.r) == Inc16(HL(k.r)) && u.r.d == left
            && u.r.sp == k.r.sp && u.pc == if left == 0 then p + 5 else head
  {
    hide Decode, Leads, At, Word16, Peek, Hi, Lo, Word;
    Opcodes8();
    Here(k);
    Fetches(k);
    OperandIs(k.w, p + 3, head);
    assert Inc16(p) == p + 1 && Inc16(p + 1) == p + 2 && Plus16(p + 2, 1) == p + 3 && Plus16(p + 2, 3) == p + 5;
    hide Plus16, Inc16;
    var k1 := NextPair(k, p);
    Fetches(k1);
    var k2 := GoDcr(k, 1, k1, Monitor.D);
    Fetches(k2);
    u := GoJcc(k, 2, k2, 0);
  }

  lemma NextPair(k: Core, p: nat) returns (u: Core)
    requires p + 5 <= RAM_BASE && k.pc == p && At(k) == Inx(2)
    ensures Leads(k, 1, u) && u == Core(u.r, p + 1, k.w) && HL(u.r) == Inc16(HL(k.r))
    ensures u.r.d == k.r.d && u.r.sp == k.r.sp
  {
    hide Leads, At, Hi, Lo, Word;
    Here(k);
    WordParts(Inc16(HL(k.r)));
    assert Inc16(p) == p + 1;
    hide Inc16;
    u := GoInx(k, 0, k, 2);
  }

  /** One turn of G03. */
  lemma PlantTurn(k: Core) returns (u: Core)
    requires PlantCode(k.w.rom) && k.pc == 0x14C
    ensures var left := (k.r.d + 255) % 256;
            && Leads(k, 12, u) && u.w == Planted(k.w, HL(k.r), Word16(k.w, k.r.sp))
            && u.w.rom == k.w.rom && HL(u.r) == Plus16(HL(k.r), SLOT) && u.r.sp == Plus16(k.r.sp, 2)
            && u.r.d == left && u.pc == if left == 0 then 0x15B else 0x14C
  {
    hide Leads, Word16, Peek, Poke, HL, GetPair;
    var k1 := PlantAddress(k);
    var k2 := PlantByte(k1);
    assert TurnCode(k.w.rom, 0x156, 0x14C);
    u := NextSlot(k2, 0x156, 0x14C);
    Then(k, 5, k1, 4, k2);
    Then(k, 9, k2, 3, u);
  }

  // ---------- RST2 ----------

  predicate LiftCode(rom: Chip)
  {
    && rom[0x209] == 0x4E && rom[0x20A] == 0xAF && rom[0x20B] == 0x77 && rom[0x20C] == 0x23
    && rom[0x20D] == 0x46 && rom[0x20E] == 0x77 && rom[0x20F] == 0x23 && rom[0x210] == 0x79 && rom[0x211] == 0xB0
    && rom[0x212] == 0xCA && rom[0x213] == 0x17 && rom[0x214] == 0x02 && rom[0x215] == 0x7E && rom[0x216] == 0x02
    && rom[0x217] == 0x23 && rom[0x218] == 0x15
    && rom[0x219] == 0xC2 && rom[0x21A] == 0x09 && rom[0x21B] == 0x02
  }

  lemma Opcodes9()
    ensures Decode(0x4E) == Mov(C, M) && Decode(0xAF) == Alu(5, A)
    ensures Decode(0x77) == Mov(M, A) && Decode(0x23) == Inx(2)
  {
  }

  lemma Opcodes10()
    ensures Decode(0x46) == Mov(B, M) && Decode(0x77) == Mov(M, A) && Decode(0x23) == Inx(2)
  {
  }

  lemma Opcodes11()
    ensures Decode(0x79) == Mov(A, C) && Decode(0xB0) == Alu(6, B) && Decode(0xCA) == Jcc(1)
    ensures Decode(0x7E) == Mov(A, M) && Decode(0x02) == Stax(BC)
  {
  }

  /** XRA A clears A. */
  lemma Xors(r: Regs)
    ensures AluOp(r, 5, r.a) == AluXra(r, r.a)
    ensures AluXra(r, r.a) == r.(a := 0, f := AluXra(r, r.a).f)
  {
    XorSelf(r.a, 8);
  }

  /** The low byte of the slot's address goes to C and is cleared. */
  lemma LiftLow(k: Core) returns (u: Core)
    requires LiftCode(k.w.rom) && k.pc == 0x209
    ensures Leads(k, 4, u) && u == Core(u.r, 0x20D, Poke(k.w, HL(k.r), 0)) && u.w.rom == k.w.rom
    ensures u.r.c == Peek(k.w, HL(k.r)) && u.r.a == 0 && HL(u.r) == Inc16(HL(k.r)) && u.r.d == k.r.d && u.r.sp == k.r.sp
  {
    hide Decode, Leads, At, Peek, Poke, Hi, Lo, Word, AluOp, AluXra;
    Opcodes9();
    Here(k);
    Fetches(k);
    WordParts(Inc16(HL(k.r)));
    var k1 := GoLoad(k, 0, k, C);
    Fetches(k1);
    Xors(k1.r);
    assert Operand(k1, A) == k1.r.a;
    var k2 := GoAlu(k, 1, k1, 5, A);
    Fetches(k2);
    var k3 := GoStore(k, 2, k2, A);
    PokeKeeps(k2.w, HL(k.r), 0);
    Fetches(k3);
    u := GoInx(k, 3, k3, 2);
  }

  /** The high byte goes to B and is cleared. */
  lemma LiftHigh(k: Core) returns (u: Core)
    requires LiftCode(k.w.rom) && k.pc == 0x20D && k.r.a == 0
    ensures Leads(k, 3, u) && u == Core(u.r, 0x210, Poke(k.w, HL(k.r), 0)) && u.w.rom == k.w.rom
    ensures u.r.c == k.r.c && u.r.b == Peek(k.w, HL(k.r)) && HL(u.r) == Inc16(HL(k.r))
    ensures u.r.d == k.r.d && u.r.sp == k.r.sp
  {
    hide Decode, Leads, At, Peek, Poke, Hi, Lo, Word;
    Opcodes10();
    Here(k);
    Fetches(k);
    WordParts(Inc16(HL(k.r)));
    var k1 := GoLoad(k, 0, k, B);
    Fetches(k1);
    var k2 := GoStore(k, 1, k1, A);
    PokeKeeps(k1.w, HL(k.r), 0);
    Fetches(k2);
    u := GoInx(k, 2, k2, 2);
  }

  /** The byte goes back, unless the address was zero. */
  lemma LiftByte(k: Core) returns (u: Core)
    requires LiftCode(k.w.rom) && k.pc == 0x210
    ensures Leads(k, if k.r.b == 0 && k.r.c == 0 then 3 else 5, u) && u.pc == 0x217 && u.w.rom == k.w.rom
    ensures HL(u.r) == HL(k.r) && u.r.d == k.r.d && u.r.sp == k.r.sp
    ensures u.w == if k.r.c == 0 && k.r.b == 0 then k.w else Poke(k.w, Word(k.r.b, k.r.c), Peek(k.w, HL(k.r)))
  {
    hide Decode, Leads, At, Peek, Poke, AluOp, AluOra, Word16;
    Opcodes11();
    Here(k);
    Fetches(k);
    var k1 := GoMov(k, 0, k, A, C);
    Fetches(k1);
    Ors(k1.r, k.r.b);
    assert Operand(k1, B) == k.r.b;
    var k2 := GoAlu(k, 1, k1, 6, B);
    Fetches(k2);
    OperandIs(k2.w, 0x213, 0x217);
    u := GoJcc(k, 2, k2, 1);
    if k.r.b != 0 || k.r.c != 0 {
      var k3 := u;
      Fetches(k3);
      var k4 := GoLoad(k, 3, k3, A);
      Fetches(k4);
      u := GoStax(k, 4, k4, BC);
      PokeKeeps(k4.w, Word(k.r.b, k.r.c), k4.r.a);
    }
  }

  /** How many instructions a turn of RST2 takes. */
  function LiftSteps(w: World, slot: word): nat
  {
    if Peek(w, slot) == 0 && Peek(Poke(w, slot, 0), Plus16(slot, 1)) == 0 then 13 else 15
  }

  /** One turn of RST2. */
  lemma LiftTurn(k: Core) returns (u: Core)
    requires LiftCode(k.w.rom) && k.pc == 0x209
    ensures var left := (k.r.d + 255) % 256;
            && Leads(k, LiftSteps(k.w, HL(k.r)), u) && u.w == Lifted(k.w, HL(k.r))
            && u.w.rom == k.w.rom && HL(u.r) == Plus16(HL(k.r), SLOT)
            && u.r.d == left && u.pc == if left == 0 then 0x21C else 0x209
  {
    hide Leads, Peek, Poke, HL, Word;
    var k1 := LiftLow(k);
    var k2 := LiftHigh(k1);
    var k3 := LiftByte(k2);
    assert TurnCode(k.w.rom, 0x217, 0x209);
    u := NextSlot(k3, 0x217, 0x209);
    Then(k, 4, k1, 3, k2);
    var n := if k2.r.b == 0 && k2.r.c == 0 then 3 else 5;
    Then(k, 7, k2, n, k3);
    Then(k, 7 + n, k3, 3, u);
  }

  // ---------- planting and lifting together ----------

  /** An address that no byte of the table shares a cell with. */
  ghost predicate OffTable(ramSize: RamSize, a: word)
  {
    forall t: word :: TLOC <= t < TLOC + 6 ==> !SameCell(ramSize, t, a)
  }

  lemma TableApart(ramSize: RamSize, s: word, t: word)
    requires TLOC <= s < TLOC + 6 && TLOC <= t < TLOC + 6
    ensures SameCell(ramSize, s, t) <==> s == t
  {
    if ramSize == 1024 {
    } else {
    }
  }

  /** What every address reads as once a breakpoint is planted. */
  lemma PlantedReads(w: World, slot: word, a: word, x: word)
    requires (slot == TLOC || slot == TLOC + SLOT) && OffTable(w.ramSize, a)
    ensures Planted(w, slot, a).ramSize == w.ramSize
    ensures TLOC <= x < TLOC + 6 ==>
      Peek(Planted(w, slot, a), x) ==
        (if x == slot then Lo(a) else if x == slot + 1 then Hi(a) else if x == slot + 2 then Peek(w, a) else Peek(w, x))
    ensures OffTable(w.ramSize, x) ==>
      Peek(Planted(w, slot, a), x) == (if SameCell(w.ramSize, x, a) then 0xFF else Peek(w, x))
  {
    hide Peek, Poke, SameCell, Hi, Lo;
    var w1 := Poke(w, slot, Lo(a));
    var w2 := Poke(w1, slot + 1, Hi(a));
    var w3 := Poke(w2, slot + 2, Peek(w2, a));
    PokePeek(w, slot, Lo(a), x);
    PokePeek(w1, slot + 1, Hi(a), x);
    PokePeek(w2, slot + 2, Peek(w2, a), x);
    PokePeek(w3, a, 0xFF, x);
    PokePeek(w, slot, Lo(a), a);
    PokePeek(w1, slot + 1, Hi(a), a);
    SameCellIsSymmetric(w.ramSize);
    if TLOC <= x < TLOC + 6 {
      TableApart(w.ramSize, x, slot);
      TableApart(w.ramSize, x, slot + 1);
      TableApart(w.ramSize, x, slot + 2);
    }
  }

  lemma SameCellIsSymmetric(ramSize: RamSize)
    ensures forall x: word, y: word :: SameCell(ramSize, x, y) == SameCell(ramSize, y, x)
  {
  }

  /** A slot that holds `a`, cleared and with its byte put back. */
  lemma LiftedIs(w: World, slot: word, a: word)
    requires (slot == TLOC || slot == TLOC + SLOT) && Peek(w, slot) == Lo(a) && Peek(w, slot + 1) == Hi(a)
    ensures var w2 := Poke(Poke(w, slot, 0), slot + 1, 0);
            Lifted(w, slot) == if a == 0 then w2 else Poke(w2, a, Peek(w, slot + 2))
  {
    hide Peek, Poke, SameCell, IsRam;
    WordParts(a);
    assert a == 0 <==> Lo(a) == 0 && Hi(a) == 0;
    hide Hi, Lo, Word;
    TableApart(w.ramSize, slot + 1, slot);
    TableApart(w.ramSize, slot + 2, slot);
    TableApart(w.ramSize, slot + 2, slot + 1);
    PokePeek(w, slot, 0, slot + 1);
    PokePeek(w, slot, 0, slot + 2);
    PokePeek(Poke(w, slot, 0), slot + 1, 0, slot + 2);
  }

  /** What every address reads as once it is lifted. */
  lemma LiftedReads(w: World, slot: word, a: word, x: word)
    requires (slot == TLOC || slot == TLOC + SLOT) && OffTable(w.ramSize, a)
    requires Peek(w, slot) == Lo(a) && Peek(w, slot + 1) == Hi(a)
    ensures Lifted(w, slot).ramSize == w.ramSize
    ensures TLOC <= x < TLOC + 6 ==>
      Peek(Lifted(w, slot), x) == (if x == slot || x == slot + 1 then 0 else Peek(w, x))
    ensures OffTable(w.ramSize, x) ==>
      Peek(Lifted(w, slot), x) == (if SameCell(w.ramSize, x, a) then Peek(w, slot + 2) else Peek(w, x))
  {
    hide Peek, Poke, Hi, Lo, Lifted;
    LiftedIs(w, slot, a);
    assert !SameCell(w.ramSize, x, 0);
    hide SameCell, IsRam;
    var w1 := Poke(w, slot, 0);
    var w2 := Poke(w1, slot + 1, 0);
    PokePeek(w, slot, 0, x);
    PokePeek(w1, slot + 1, 0, x);
    PokePeek(w2, a, Peek(w, slot + 2), x);
    SameCellIsSymmetric(w.ramSize);
    if TLOC <= x < TLOC + 6 {
      TableApart(w.ramSize, x, slot);
      TableApart(w.ramSize, x, slot + 1);
    }
  }

  /** The table of `u` holds what the table of `p` does. */
  ghost predicate TableKept(u: World, p: World)
  {
    u.ramSize == p.ramSize && forall t: word :: TLOC <= t < TLOC + 6 ==> Peek(u, t) == Peek(p, t)
  }

  predicate NoAddress(w: World, slot: word) { Peek(w, slot) == 0 && Peek(w, Plus16(slot, 1)) == 0 }

  /** The table once two breakpoints are planted. */
  lemma TwoInTable(w: World, u: World, a: word, b: word)
    requires OffTable(w.ramSize, a) && OffTable(w.ramSize, b)
    requires TableKept(u, Planted(Planted(w, TLOC, a), TLOC + SLOT, b))
    ensures u.ramSize == w.ramSize
    ensures Peek(u, TLOC) == Lo(a) && Peek(u, TLOC + 1) == Hi(a) && Peek(u, TLOC + 2) == Peek(w, a)
    ensures Peek(u, TLOC + 3) == Lo(b) && Peek(u, TLOC + 4) == Hi(b)
    ensures Peek(u, TLOC + 5) == if SameCell(w.ramSize, b, a) then 0xFF else Peek(w, b)
  {
    hide Planted, Peek, Lo, Hi, SameCell;
    var p := Planted(w, TLOC, a);
    PlantedReads(w, TLOC, a, b);
    PlantedReads(p, TLOC + SLOT, b, b);
    forall t: word | TLOC <= t < TLOC + 6
      ensures Peek(u, t) == [Lo(a), Hi(a), Peek(w, a), Lo(b), Hi(b), Peek(p, b)][t - TLOC]
    {
      PlantedReads(w, TLOC, a, t);
      PlantedReads(p, TLOC + SLOT, b, t);
    }
    assert Peek(u, TLOC + 1) == Hi(a) && Peek(u, TLOC + 2) == Peek(w, a);
    assert Peek(u, TLOC + 3) == Lo(b) && Peek(u, TLOC + 4) == Hi(b) && Peek(u, TLOC + 5) == Peek(p, b);
  }

  /** Where the second slot's cell takes its byte, else the first's, else nothing changes. */
  function LiftedByte(u: World, a: word, b: word, x: word): byte
  {
    if SameCell(u.ramSize, x, b) then Peek(u, TLOC + 5)
    else if SameCell(u.ramSize, x, a) then Peek(u, TLOC + 2)
    else Peek(u, x)
  }

  /** Lifting both slots, seen from one address. */
  lemma TwoLifted(u: World, a: word, b: word, x: word)
    requires OffTable(u.ramSize, a) && OffTable(u.ramSize, b)
    requires Peek(u, TLOC) == Lo(a) && Peek(u, TLOC + 1) == Hi(a)
    requires Peek(u, TLOC + 3) == Lo(b) && Peek(u, TLOC + 4) == Hi(b)
    ensures var r := Lifted(Lifted(u, TLOC), TLOC + SLOT);
            && NoAddress(r, TLOC) && NoAddress(r, TLOC + SLOT)
            && (OffTable(u.ramSize, x) ==> Peek(r, x) == LiftedByte(u, a, b, x))
  {
    hide Lifted, Peek, Lo, Hi, SameCell;
    var v := Lifted(u, TLOC);
    LiftedReads(u, TLOC, a, TLOC);
    LiftedReads(u, TLOC, a, TLOC + 1);
    LiftedReads(u, TLOC, a, TLOC + 3);
    LiftedReads(u, TLOC, a, TLOC + 4);
    LiftedReads(u, TLOC, a, TLOC + 5);
    LiftedReads(u, TLOC, a, x);
    LiftedReads(v, TLOC + SLOT, b, x);
    LiftedReads(v, TLOC + SLOT, b, TLOC);
    LiftedReads(v, TLOC + SLOT, b, TLOC + 1);
    LiftedReads(v, TLOC + SLOT, b, TLOC + 3);
    LiftedReads(v, TLOC + SLOT, b, TLOC + 4);
  }

  lemma LiftedRom(w: World, slot: word)
    ensures Lifted(w, slot).rom == w.rom
  {
  }

  /** Two breakpoints: whatever ran in between, as long as it kept the table, lifting puts both bytes
      back exactly when they lie in different cells or the byte was RST 7 already; both slots end free. */
  lemma TwoComeBack(w: World, u: World, a: word, b: word)
    requires OffTable(w.ramSize, a) && OffTable(w.ramSize, b) && u.rom == w.rom
    requires TableKept(u, Planted(Planted(w, TLOC, a), TLOC + SLOT, b))
    ensures var r := Lifted(Lifted(u, TLOC), TLOC + SLOT);
            && (Peek(r, a) == Peek(w, a) && Peek(r, b) == Peek(w, b) <==>
                !SameCell(w.ramSize, a, b) || Peek(w, a) == 0xFF)
            && NoAddress(r, TLOC) && NoAddress(r, TLOC + SLOT)
            && forall x: word :: OffTable(w.ramSize, x) && !SameCell(w.ramSize, x, a) && !SameCell(w.ramSize, x, b) ==>
                 Peek(r, x) == Peek(u, x)
  {
    hide Planted, Lifted, Peek, Lo, Hi, SameCell, OffTable, NoAddress;
    var r := Lifted(Lifted(u, TLOC), TLOC + SLOT);
    TwoInTable(w, u, a, b);
    forall x: word | OffTable(w.ramSize, x) && !SameCell(w.ramSize, x, a) && !SameCell(w.ramSize, x, b)
      ensures Peek(r, x) == Peek(u, x)
    {
      TwoLifted(u, a, b, x);
    }
    TwoLifted(u, a, b, a);
    TwoLifted(u, a, b, b);
    LiftedRom(u, TLOC);
    LiftedRom(Lifted(u, TLOC), TLOC + SLOT);
    Outside(r, u, w, a);
    Outside(r, u, w, b);
    SameCellIsSymmetric(w.ramSize);
    CellsRead(w, a, b);
  }

  lemma CellsRead(w: World, a: word, b: word)
    ensures SameCell(w.ramSize, a, b) ==> Peek(w, a) == Peek(w, b) && IsRam(a) && IsRam(b)
  {
  }

  /** One breakpoint, with the second slot free: its byte comes back and both slots end free. */
  lemma OneComesBack(w: World, u: World, a: word)
    requires OffTable(w.ramSize, a) && u.rom == w.rom && NoAddress(w, TLOC + SLOT)
    requires TableKept(u, Planted(w, TLOC, a))
    ensures var r := Lifted(Lifted(u, TLOC), TLOC + SLOT);
            && Peek(r, a) == Peek(w, a)
            && NoAddress(r, TLOC) && NoAddress(r, TLOC + SLOT)
            && forall x: word :: OffTable(w.ramSize, x) && !SameCell(w.ramSize, x, a) ==> Peek(r, x) == Peek(u, x)
  {
    OneInTable(w, u, a);
    NowhereIsOff(w.ramSize);
    hide Planted, Lifted, Peek, SameCell, OffTable, IsRam, TableKept, NoAddress;
    var r := Lifted(Lifted(u, TLOC), TLOC + SLOT);
    forall x: word | OffTable(w.ramSize, x) && !SameCell(w.ramSize, x, a)
      ensures Peek(r, x) == Peek(u, x)
    {
      TwoLifted(u, a, 0, x);
    }
    TwoLifted(u, a, 0, a);
    LiftedRom(u, TLOC);
    LiftedRom(Lifted(u, TLOC), TLOC + SLOT);
    Outside(r, u, w, a);
  }

  lemma OneInTable(w: World, u: World, a: word)
    requires OffTable(w.ramSize, a) && NoAddress(w, TLOC + SLOT) && TableKept(u, Planted(w, TLOC, a))
    ensures u.ramSize == w.ramSize
    ensures Peek(u, TLOC) == Lo(a) && Peek(u, TLOC + 1) == Hi(a) && Peek(u, TLOC + 2) == Peek(w, a)
    ensures Peek(u, TLOC + 3) == 0 && Peek(u, TLOC + 4) == 0
  {
    hide Planted, Peek, Lo, Hi, SameCell, OffTable;
    PlantedReads(w, TLOC, a, TLOC);
    PlantedReads(w, TLOC, a, TLOC + 1);
    PlantedReads(w, TLOC, a, TLOC + 2);
    PlantedReads(w, TLOC, a, TLOC + 3);
    PlantedReads(w, TLOC, a, TLOC + 4);
  }

  lemma NowhereIsOff(ramSize: RamSize)
    ensures OffTable(ramSize, 0) && Lo(0) == 0 && Hi(0) == 0
    ensures forall x: word :: !SameCell(ramSize, x, 0)
  {
  }

  /** Outside RAM an address reads the same on both boards. */
  lemma Outside(r: World, u: World, w: World, a: word)
    requires u.rom == w.rom && r.rom == u.rom
    ensures !IsRam(a) ==> Peek(r, a) == Peek(w, a)
    ensures SameCell(w.ramSize, a, a) <==> IsRam(a)
  {
  }

  // ---------- the machine ----------

  /** At G03, with `n` addresses on the stack. */
  ghost predicate AtG03(s: Sys, n: nat)
  {
    Quiet(s) && s.c.pc == 0x14C && PlantCode(s.w.rom) && HL(s.c.r) == TLOC && s.c.r.d == n
  }

  /** At RST2. */
  ghost predicate AtRst2(s: Sys)
  {
    Quiet(s) && s.c.pc == 0x209 && LiftCode(s.w.rom) && HL(s.c.r) == TLOC && s.c.r.d == 2
  }

  lemma PlantsOne(s: Sys)
    requires AtG03(s, 1)
    ensures Steps(s, 12).c.pc == 0x15B && Steps(s, 12).w == Planted(s.w, TLOC, Word16(s.w, s.c.r.sp))
  {
    hide Steps, Step, Leads, Planted, Word16, PlantCode;
    var k1 := PlantTurn(CoreOf(s));
    StepsFollow(s, 12, k1);
  }

  lemma PlantsTwo(s: Sys)
    requires AtG03(s, 2)
    ensures var p := Planted(s.w, TLOC, Word16(s.w, s.c.r.sp));
            Steps(s, 24).c.pc == 0x15B && Steps(s, 24).w == Planted(p, TLOC + SLOT, Word16(p, Plus16(s.c.r.sp, 2)))
  {
    hide Steps, Step, Leads, Planted, Word16, PlantCode, HL, Word, Peek, Poke, Hi, Lo;
    var k1 := PlantTurn(CoreOf(s));
    assert PlantCode(k1.w.rom);
    var k2 := PlantTurn(k1);
    Then(CoreOf(s), 12, k1, 12, k2);
    StepsFollow(s, 24, k2);
  }

  /** The turn of RST2 at slot `i`. */
  lemma LiftsOne(s: Sys, i: nat)
    requires i < 2 && Quiet(s) && s.c.pc == 0x209 && LiftCode(s.w.rom)
    requires HL(s.c.r) == TLOC + SLOT * i && s.c.r.d == 2 - i
    ensures var t := Steps(s, LiftSteps(s.w, TLOC + SLOT * i));
            && Quiet(t) && t.w == Lifted(s.w, TLOC + SLOT * i) && t.w.rom == s.w.rom
            && HL(t.c.r) == TLOC + SLOT * (i + 1) && t.c.r.d == 1 - i && t.c.pc == if i == 1 then 0x21C else 0x209
  {
    hide Steps, Step, Leads, Lifted, LiftCode, LiftSteps, HL, Word, Peek, Poke, Hi, Lo;
    var u := LiftTurn(CoreOf(s));
    StepsFollow(s, LiftSteps(s.w, TLOC + SLOT * i), u);
  }

  lemma LiftsBoth(s: Sys) returns (n: nat)
    requires AtRst2(s)
    ensures Steps(s, n).c.pc == 0x21C && Steps(s, n).w == Lifted(Lifted(s.w, TLOC), TLOC + SLOT)
  {
    hide Steps, Step, Leads, Lifted, LiftCode, LiftSteps, HL, Word, Peek, Poke, Hi, Lo;
    var k := CoreOf(s);
    var k1 := LiftTurn(k);
    assert LiftCode(k1.w.rom);
    var k2 := LiftTurn(k1);
    n := LiftSteps(k.w, TLOC) + LiftSteps(k1.w, TLOC + SLOT);
    Then(k, LiftSteps(k.w, TLOC), k1, LiftSteps(k1.w, TLOC + SLOT), k2);
    StepsFollow(s, n, k2);
  }

  /** A stacked word that planting a breakpoint at `a` leaves alone. */
  ghost predicate Apart(ramSize: RamSize, at: word, a: word)
  {
    && OffTable(ramSize, at) && OffTable(ramSize, Inc16(at))
    && !SameCell(ramSize, at, a) && !SameCell(ramSize, Inc16(at), a)
  }

  lemma StackedWord(w: World, a: word, at: word)
    requires OffTable(w.ramSize, a) && Apart(w.ramSize, at, a)
    ensures Word16(Planted(w, TLOC, a), at) == Word16(w, at)
  {
    hide Planted, Peek, SameCell, OffTable;
    PlantedReads(w, TLOC, a, at);
    PlantedReads(w, TLOC, a, Inc16(at));
  }

  /** G03 with two addresses, then anything that keeps the table, then RST2. */
  lemma TwoBreakpoints(s: Sys, v: Sys) returns (n: nat)
    requires AtG03(s, 2) && AtRst2(v) && v.w.rom == s.w.rom && TableKept(v.w, Steps(s, 24).w)
    requires OffTable(s.w.ramSize, Word16(s.w, s.c.r.sp))
    requires OffTable(s.w.ramSize, Word16(s.w, Plus16(s.c.r.sp, 2)))
    requires Apart(s.w.ramSize, Plus16(s.c.r.sp, 2), Word16(s.w, s.c.r.sp))
    ensures var (a, b) := (Word16(s.w, s.c.r.sp), Word16(s.w, Plus16(s.c.r.sp, 2)));
            var r := Steps(v, n).w;
            && Steps(v, n).c.pc == 0x21C
            && (Peek(r, a) == Peek(s.w, a) && Peek(r, b) == Peek(s.w, b) <==>
                !SameCell(s.w.ramSize, a, b) || Peek(s.w, a) == 0xFF)
            && NoAddress(r, TLOC) && NoAddress(r, TLOC + SLOT)
            && forall x: word ::
                 OffTable(s.w.ramSize, x) && !SameCell(s.w.ramSize, x, a) && !SameCell(s.w.ramSize, x, b) ==>
                   Peek(r, x) == Peek(v.w, x)
  {
    PlantsTwo(s);
    n := LiftsBoth(v);
    hide Steps, Step, AtG03, AtRst2, Planted, Lifted, Peek, Word16, OffTable, SameCell, Apart, TableKept, NoAddress;
    StackedWord(s.w, Word16(s.w, s.c.r.sp), Plus16(s.c.r.sp, 2));
    TwoComeBack(s.w, v.w, Word16(s.w, s.c.r.sp), Word16(s.w, Plus16(s.c.r.sp, 2)));
  }

  /** On the 1 KB board 900H and 0D00H share a cell, and lifting leaves RST 7 there. */
  lemma SharedCell(w: World, u: World)
    requires w.ramSize == 1024 && u.rom == w.rom
    requires TableKept(u, Planted(Planted(w, TLOC, 0x900), TLOC + SLOT, 0xD00))
    ensures Peek(Lifted(Lifted(u, TLOC), TLOC + SLOT), 0x900) == 0xFF
  {
    hide Planted, Lifted, Peek, Lo, Hi;
    assert SameCell(w.ramSize, 0xD00, 0x900) && SameCell(w.ramSize, 0x900, 0xD00);
    assert OffTable(w.ramSize, 0x900) && OffTable(w.ramSize, 0xD00);
    hide SameCell, OffTable;
    TwoInTable(w, u, 0x900, 0xD00);
    TwoLifted(u, 0x900, 0xD00, 0x900);
  }

  lemma SharedAddresses(w: World)
    requires w.ramSize == 1024
    ensures Peek(w, 0x900) == w.ram[0x100] && OffTable(w.ramSize, 0x900)
  {
  }

  /** So the machine loses a byte that was not RST 7, whatever ran in between. */
  lemma MirroredBreakpoints(s: Sys, v: Sys) returns (n: nat)
    requires AtG03(s, 2) && AtRst2(v) && v.w.rom == s.w.rom && TableKept(v.w, Steps(s, 24).w)
    requires s.w.ramSize == 1024 && s.w.ram[0x100] != 0xFF
    requires Word16(s.w, s.c.r.sp) == 0x900 && Word16(s.w, Plus16(s.c.r.sp, 2)) == 0xD00
    requires Apart(s.w.ramSize, Plus16(s.c.r.sp, 2), 0x900)
    ensures Steps(v, n).c.pc == 0x21C && Peek(Steps(v, n).w, 0x900) == 0xFF != Peek(s.w, 0x900)
  {
    hide Steps, Step, AtRst2, AtG03, Planted, Lifted, Peek, Word16, OffTable, Apart, TableKept;
    PlantsTwo(s);
    n := LiftsBoth(v);
    SharedAddresses(s.w);
    StackedWord(s.w, 0x900, Plus16(s.c.r.sp, 2));
    SharedCell(s.w, v.w);
  }

  /** G03 with one address and a free second slot, then anything that keeps the table, then RST2. */
  lemma OneBreakpoint(s: Sys, v: Sys) returns (n: nat)
    requires AtG03(s, 1) && AtRst2(v) && v.w.rom == s.w.rom && TableKept(v.w, Steps(s, 12).w)
    requires OffTable(s.w.ramSize, Word16(s.w, s.c.r.sp)) && NoAddress(s.w, TLOC + SLOT)
    ensures var a := Word16(s.w, s.c.r.sp);
            var r := Steps(v, n).w;
            && Steps(v, n).c.pc == 0x21C
            && Peek(r, a) == Peek(s.w, a)
            && NoAddress(r, TLOC) && NoAddress(r, TLOC + SLOT)
            && forall x: word :: OffTable(s.w.ramSize, x) && !SameCell(s.w.ramSize, x, a) ==> Peek(r, x) == Peek(v.w, x)
  {
    PlantsOne(s);
    n := LiftsBoth(v);
    hide Steps, Step, AtG03, AtRst2, Planted, Lifted, Peek, Word16, OffTable, SameCell, TableKept, NoAddress;
    OneComesBack(s.w, v.w, Word16(s.w, s.c.r.sp));
  }
}
