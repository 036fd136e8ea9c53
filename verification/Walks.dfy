// Two closed-range loops of the monitor, run as machine code: fill (FILELP) and checksum (CSUMLP), each
// from its check of the two addresses to the instruction after the loop.
module Walks {
  import opened Bits
  import opened Board
  import opened Isa
  import opened Cpu
  import opened MachineCode
  import opened Monitor

  /** How many addresses a closed range has. */
  function Count(first: word, last: word): nat
    requires first <= last
  {
    last - first + 1
  }

  // ---------- FILELP ----------

  predicate FillCode(rom: Chip)
  {
    EntryCode(rom, 0x169) && rom[0x16F] == 0x71 && TailCode(rom, 0x170, 0x16F) && CompareCode(rom)
  }

  /** `w` is `now` with the first `n` addresses from `a` holding `c`. */
  ghost predicate Filled(w: World, now: World, sp: word, a: word, n: nat, c: byte)
    requires StackInRam(sp)
  {
    && w == now.(ram := w.ram)
    && forall i: RamIndex :: !StackCell(now.ramSize, sp, i) ==>
         w.ram[i] == if Hit(now.ramSize, a, n, i) then c else now.ram[i]
  }

  lemma HitMore(ramSize: RamSize, a: word, n: nat, i: RamIndex)
    ensures Hit(ramSize, a, n + 1, i) <==>
            Hit(ramSize, a, n, i) || (IsRam(Plus16(a, n)) && Cell(ramSize, Plus16(a, n)) == i)
  {
    hide Plus16, Cell;
    if Hit(ramSize, a, n + 1, i) {
      var k: nat :| k < n + 1 && IsRam(Plus16(a, k)) && Cell(ramSize, Plus16(a, k)) == i;
      assert k == n || Hit(ramSize, a, n, i);
    }
  }

  lemma FilledMore(w: World, now: World, sp: word, a: word, n: nat, c: byte, ret: word)
    requires StackInRam(sp) && !now.trial && Filled(w, now, sp, a, n, c)
    ensures Filled(Pushed(Poke(w, Plus16(a, n), c), sp, ret), now, sp, a, n + 1, c)
  {
    var w1 := Poke(w, Plus16(a, n), c);
    var w2 := Pushed(w1, sp, ret);
    PushedOff(w1, sp, ret);
    hide Pushed, Hit, Plus16;
    forall i: RamIndex | !StackCell(now.ramSize, sp, i)
      ensures w2.ram[i] == if Hit(now.ramSize, a, n + 1, i) then c else now.ram[i]
    {
      HitMore(now.ramSize, a, n, i);
    }
  }

  lemma Opcodes4()
    ensures Decode(0x71) == Mov(M, C) && Decode(0x7E) == Mov(A, M)
    ensures Decode(0x02) == Stax(BC) && Decode(0x03) == Inx(BC)
  {
  }

  /** One turn of FILELP. */
  lemma FillTurn(k: Core) returns (u: Core)
    requires FillCode(k.w.rom) && k.pc == 0x16F && StackInRam(k.r.sp)
    ensures var next := Inc16(HL(k.r));
            && Leads(k, if next == 0 then 8 else 13, u)
            && u.pc == (if next == 0 || next > GetPair(k.r, DE) then 0x176 else 0x16F)
            && HL(u.r) == next
    ensures GetPair(u.r, DE) == GetPair(k.r, DE) && u.r.c == k.r.c && u.r.sp == k.r.sp
    ensures u.w == Pushed(Poke(k.w, HL(k.r), k.r.c), k.r.sp, 0x173)
  {
    hide Decode, Leads, At, Pushed, CompareCode, EntryCode, Peek, Hi, Lo, Word;
    Opcodes4();
    Here(k);
    Fetches(k);
    var k1 := GoStore(k, 0, k, C);
    u := Tail(k1, 0x170, 0x16F);
    Then(k, 1, k1, if Inc16(HL(k.r)) == 0 then 7 else 12, u);
  }

  /** The addresses of the walk, in order: after 13m instructions the loop is at the m-th. */
  lemma {:induction false} FillReaches(k: Core, m: nat) returns (u: Core)
    requires FillCode(k.w.rom) && k.pc == 0x16F && StackInRam(k.r.sp) && !k.w.trial
    requires HL(k.r) + m <= GetPair(k.r, DE)
    ensures Leads(k, 13 * m, u) && u.pc == 0x16F && HL(u.r) == HL(k.r) + m
    ensures GetPair(u.r, DE) == GetPair(k.r, DE) && u.r.c == k.r.c && u.r.sp == k.r.sp
    ensures Filled(u.w, k.w, k.r.sp, HL(k.r), m, k.r.c)
  {
    hide Leads, FillCode, Pushed, GetPair, Filled, HL;
    if m == 0 {
      Here(k);
      NoneFilled(k.w, k.r.sp, HL(k.r), k.r.c);
      u := k;
    } else {
      var t := FillReaches(k, m - 1);
      FilledKeeps(t.w, k.w, k.r.sp, HL(k.r), m - 1, k.r.c);
      FilledMore(t.w, k.w, k.r.sp, HL(k.r), m - 1, k.r.c, 0x173);
      u := FillTurn(t);
      Then(k, 13 * (m - 1), t, 13, u);
    }
  }

  lemma NoneFilled(w: World, sp: word, a: word, c: byte)
    requires StackInRam(sp)
    ensures Filled(w, w, sp, a, 0, c)
  {
  }

  lemma FilledKeeps(w: World, now: World, sp: word, a: word, n: nat, c: byte)
    requires StackInRam(sp) && Filled(w, now, sp, a, n, c)
    ensures w.rom == now.rom && w.trial == now.trial && w.ramSize == now.ramSize
  {
  }

  lemma FillEnds(k: Core) returns (u: Core)
    requires FillCode(k.w.rom) && k.pc == 0x16F && StackInRam(k.r.sp) && !k.w.trial
    requires HL(k.r) <= GetPair(k.r, DE)
    ensures Leads(k, 13 * Count(HL(k.r), GetPair(k.r, DE)) - (if GetPair(k.r, DE) == 0xFFFF then 5 else 0), u)
    ensures u.pc == 0x176 && u.r.sp == k.r.sp
    ensures Filled(u.w, k.w, k.r.sp, HL(k.r), Count(HL(k.r), GetPair(k.r, DE)), k.r.c)
  {
    hide Leads, FillCode, Pushed, GetPair, Filled, HL;
    var m := GetPair(k.r, DE) - HL(k.r);
    var t := FillReaches(k, m);
    FilledKeeps(t.w, k.w, k.r.sp, HL(k.r), m, k.r.c);
    FilledMore(t.w, k.w, k.r.sp, HL(k.r), m, k.r.c, 0x173);
    u := FillTurn(t);
    Then(k, 13 * m, t, if GetPair(k.r, DE) == 0xFFFF then 8 else 13, u);
  }

  /** FILE from its check on: an upside-down range goes to ERROR and fills nothing; any other range,
      up to 0FFFFH, is filled and nothing else changes but the two stack cells. */
  lemma FillRuns(s: Sys) returns (n: nat)
    requires Quiet(s) && s.c.pc == 0x169 && FillCode(s.w.rom) && StackInRam(s.c.r.sp) && !s.w.trial
    ensures var (first, last) := (HL(s.c.r), GetPair(s.c.r, DE));
            var t := Steps(s, n);
            && (first > last ==> n == 7 && t.c.pc == ERROR && SameOff(t.w, s.w, s.c.r.sp))
            && (first <= last ==>
                && n == 7 + 13 * Count(first, last) - (if last == 0xFFFF then 5 else 0)
                && t.c.pc == 0x176 && t.c.r.sp == s.c.r.sp
                && Filled(t.w, s.w, s.c.r.sp, first, Count(first, last), s.c.r.c))
  {
    hide Leads, CompareCode, TailCode, Pushed;
    var k := CoreOf(s);
    var k1 := Entry(k, 0x169);
    n := 7;
    PushedOff(s.w, s.c.r.sp, 0x16C);
    if HL(k.r) > GetPair(k.r, DE) {
      StepsFollow(s, 7, k1);
    } else {
      assert FillCode(k1.w.rom);
      var u := FillEnds(k1);
      var steps := 13 * Count(HL(k.r), GetPair(k.r, DE)) - (if GetPair(k.r, DE) == 0xFFFF then 5 else 0);
      Then(k, 7, k1, steps, u);
      n := 7 + steps;
      StepsFollow(s, n, u);
      FilledSince(u.w, k1.w, s.w, s.c.r.sp, HL(k.r), Count(HL(k.r), GetPair(k.r, DE)), k.r.c);
    }
  }

  lemma FilledSince(w: World, v: World, now: World, sp: word, a: word, n: nat, c: byte)
    requires StackInRam(sp) && Filled(w, v, sp, a, n, c) && SameOff(v, now, sp)
    ensures Filled(w, now, sp, a, n, c)
  {
    hide Hit;
  }

  // ---------- CSUMLP ----------

  predicate SumCode(rom: Chip)
  {
    && EntryCode(rom, 0x19A) && rom[0x1A0] == 0x0E && rom[0x1A1] == 0
    && rom[0x1A2] == 0x79 && rom[0x1A3] == 0x86 && rom[0x1A4] == 0x4F
    && TailCode(rom, 0x1A5, 0x1A2) && CompareCode(rom)
  }

  /** The sum of what `n` addresses from `a` read as. */
  function MemorySum(w: World, a: word, n: nat): nat
  {
    if n == 0 then 0 else MemorySum(w, a, n - 1) + Peek(w, Plus16(a, n - 1))
  }

  lemma Opcodes5()
    ensures Decode(0x79) == Mov(A, C) && Decode(0x86) == Alu(0, M)
    ensures Decode(0x4F) == Mov(C, A) && Decode(0x0E) == Mvi(C)
  {
  }

  lemma Adds(r: Regs, v: byte)
    ensures AluOp(r, 0, v) == AluAdd(r, v, false)
    ensures AluAdd(r, v, false) == r.(a := (r.a + v) % 256, f := AluAdd(r, v, false).f)
  {
  }

  /** One turn of CSUMLP. */
  lemma SumTurn(k: Core) returns (u: Core)
    requires SumCode(k.w.rom) && k.pc == 0x1A2 && StackInRam(k.r.sp)
    ensures var next := Inc16(HL(k.r));
            && Leads(k, if next == 0 then 10 else 15, u)
            && u.pc == (if next == 0 || next > GetPair(k.r, DE) then 0x1AB else 0x1A2)
            && HL(u.r) == next
    ensures GetPair(u.r, DE) == GetPair(k.r, DE) && u.r.sp == k.r.sp
    ensures u.r.c == (k.r.c + Peek(k.w, HL(k.r))) % 256
    ensures u.w == Pushed(k.w, k.r.sp, 0x1A8) && u.w.rom == k.w.rom
  {
    hide Decode, Leads, At, Pushed, CompareCode, EntryCode, Peek, Poke, AluOp, AluAdd;
    var v := Peek(k.w, HL(k.r));
    Opcodes5();
    PushedReads(k.w, k.r.sp, 0x1A8);
    Adds(k.r.(a := k.r.c), v);
    Here(k);
    Fetches(k);
    var k1 := GoMov(k, 0, k, A, C);
    Fetches(k1);
    assert Operand(k1, M) == v;
    var k2 := GoAlu(k, 1, k1, 0, M);
    Fetches(k2);
    var k3 := GoMov(k, 2, k2, C, A);
    u := Tail(k3, 0x1A5, 0x1A2);
    Then(k, 3, k3, if Inc16(HL(k.r)) == 0 then 7 else 12, u);
  }

  /** What the loop adds up: from the second address on, the stack holds its own return address. */
  function LoopSum(w: World, sp: word, a: word, n: nat): nat
  {
    if n == 0 then 0
    else LoopSum(w, sp, a, n - 1) + Peek(if n == 1 then w else Pushed(w, sp, 0x1A8), Plus16(a, n - 1))
  }

  lemma PushedAgain(w: World, sp: word, v: word)
    requires StackInRam(sp) && !w.trial
    ensures Pushed(Pushed(w, sp, v), sp, v) == Pushed(w, sp, v) && !Pushed(w, sp, v).trial
  {
  }

  /** After 15m instructions C holds the sum of the first m addresses. */
  lemma {:induction false} SumReaches(k: Core, m: nat) returns (u: Core)
    requires SumCode(k.w.rom) && k.pc == 0x1A2 && StackInRam(k.r.sp) && !k.w.trial && k.r.c == 0
    requires HL(k.r) + m <= GetPair(k.r, DE)
    ensures Leads(k, 15 * m, u) && u.pc == 0x1A2 && HL(u.r) == HL(k.r) + m
    ensures GetPair(u.r, DE) == GetPair(k.r, DE) && u.r.sp == k.r.sp
    ensures u.r.c == LoopSum(k.w, k.r.sp, HL(k.r), m) % 256
    ensures u.w == if m == 0 then k.w else Pushed(k.w, k.r.sp, 0x1A8)
    ensures u.w.rom == k.w.rom
  {
    hide Leads, SumCode, Pushed, GetPair, HL, Peek;
    if m == 0 {
      Here(k);
      u := k;
    } else {
      var t := SumReaches(k, m - 1);
      PushedAgain(k.w, k.r.sp, 0x1A8);
      assert Inc16(HL(t.r)) == HL(k.r) + m && Plus16(HL(k.r), m - 1) == HL(t.r);
      hide Inc16, Plus16;
      u := SumTurn(t);
      Then(k, 15 * (m - 1), t, 15, u);
    }
  }

  lemma SumEnds(k: Core) returns (u: Core)
    requires SumCode(k.w.rom) && k.pc == 0x1A2 && StackInRam(k.r.sp) && !k.w.trial && k.r.c == 0
    requires HL(k.r) <= GetPair(k.r, DE)
    ensures Leads(k, 15 * Count(HL(k.r), GetPair(k.r, DE)) - (if GetPair(k.r, DE) == 0xFFFF then 5 else 0), u)
    ensures u.pc == 0x1AB && u.r.sp == k.r.sp
    ensures u.r.c == LoopSum(k.w, k.r.sp, HL(k.r), Count(HL(k.r), GetPair(k.r, DE))) % 256
    ensures u.w == Pushed(k.w, k.r.sp, 0x1A8)
  {
    hide Leads, SumCode, Pushed, GetPair, HL, Peek;
    var m := GetPair(k.r, DE) - HL(k.r);
    var t := SumReaches(k, m);
    PushedAgain(k.w, k.r.sp, 0x1A8);
    u := SumTurn(t);
    Then(k, 15 * m, t, if GetPair(k.r, DE) == 0xFFFF then 10 else 15, u);
  }

  /**
   * CHSUM from its check on: C ends as the sum of what the loop reads modulo 256. Of a range clear of the
   * two stack cells that is the sum of the range.
   */
  lemma SumRuns(s: Sys) returns (n: nat)
    requires Quiet(s) && s.c.pc == 0x19A && SumCode(s.w.rom) && StackInRam(s.c.r.sp) && !s.w.trial
    ensures var (first, last, sp) := (HL(s.c.r), GetPair(s.c.r, DE), s.c.r.sp);
            var t := Steps(s, n);
            && SameOff(t.w, s.w, sp)
            && (first > last ==> n == 7 && t.c.pc == ERROR)
            && (first <= last ==>
                && n == 8 + 15 * Count(first, last) - (if last == 0xFFFF then 5 else 0)
                && t.c.pc == 0x1AB && t.c.r.sp == sp
                && t.c.r.c == LoopSum(Pushed(s.w, sp, 0x19D), sp, first, Count(first, last)) % 256
                && (ClearOfStack(s.w.ramSize, sp, first, Count(first, last)) ==>
                    t.c.r.c == MemorySum(s.w, first, Count(first, last)) % 256))
  {
    hide Leads, SumCode, Pushed, ClearOfStack, SameOff, MemorySum, LoopSum, Decode, At, Peek, GetPair, HL;
    hide Steps, Step, CompareCode, EntryCode;
    var k := CoreOf(s);
    EntryOfSum(s.w.rom);
    var k1 := Entry(k, 0x19A);
    n := 7;
    StepsFollow(s, 7, k1);
    PushedOff(s.w, s.c.r.sp, 0x19D);
    OffKeeps(k1.w, s.w, s.c.r.sp);
    var (first, last) := (HL(k.r), GetPair(k.r, DE));
    if first <= last {
      SamePairs(k.r, k1.r);
      var k2 := Zeroed(k1);
      Then(k, 7, k1, 1, k2);
      var u := SumEnds(k2);
      var steps := 15 * Count(first, last) - (if last == 0xFFFF then 5 else 0);
      Then(k, 8, k2, steps, u);
      n := 8 + steps;
      StepsFollow(s, n, u);
      PushedOff(k1.w, s.c.r.sp, 0x1A8);
      OffOff(u.w, k1.w, s.w, s.c.r.sp);
      if ClearOfStack(s.w.ramSize, s.c.r.sp, first, Count(first, last)) {
        SumSince(k1.w, s.w, s.c.r.sp, first, Count(first, last), Count(first, last));
      }
    }
  }

  lemma EntryOfSum(rom: Chip)
    requires SumCode(rom)
    ensures EntryCode(rom, 0x19A) && CompareCode(rom)
  {
  }

  lemma SamePairs(r: Regs, q: Regs)
    requires r.d == q.d && r.e == q.e && r.h == q.h && r.l == q.l
    ensures HL(r) == HL(q) && GetPair(r, DE) == GetPair(q, DE)
  {
  }

  /** MVI C,0. */
  lemma Zeroed(k: Core) returns (u: Core)
    requires SumCode(k.w.rom) && k.pc == 0x1A0
    ensures Leads(k, 1, u) && u.pc == 0x1A2 && u.w == k.w && u.r.c == 0 && u.r.sp == k.r.sp
    ensures HL(u.r) == HL(k.r) && GetPair(u.r, DE) == GetPair(k.r, DE)
  {
    hide Leads, Decode, At, Peek;
    Opcodes5();
    Here(k);
    Fetches(k);
    RomReads(k.w, 0x1A1);
    u := GoMvi(k, 0, k, C);
  }

  lemma RomReads(w: World, a: word)
    requires a < RAM_BASE
    ensures Peek(w, a) == w.rom[a]
  {
  }

  lemma {:induction false} SumSince(v: World, now: World, sp: word, a: word, n: nat, m: nat)
    requires StackInRam(sp) && !now.trial && SameOff(v, now, sp) && m <= n && ClearOfStack(now.ramSize, sp, a, n)
    ensures LoopSum(v, sp, a, m) == MemorySum(now, a, m)
  {
    hide Peek, Pushed;
    if m > 0 {
      SumSince(v, now, sp, a, n, m - 1);
      OffKeeps(v, now, sp);
      PeekOff(v, now, sp, a, n, m - 1);
      PushedOff(v, sp, 0x1A8);
      OffOff(Pushed(v, sp, 0x1A8), v, now, sp);
      PeekOff(Pushed(v, sp, 0x1A8), now, sp, a, n, m - 1);
    }
  }
}
