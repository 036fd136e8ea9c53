// What every instruction does, written down a second time in terms of bits, named registers, addresses
// and machine cycles, and the proof that the interpreter does it.
module Instructions {
  import opened Bits
  import opened Board
  import opened Isa
  import opened Cpu
  import opened Arithmetic
  import opened BitLaws
  import opened BoardLaws
  import StepLaws
  import IsaTables

  // ---------- operands ----------

  /** The operand bytes of the instruction that is about to be executed; PC is past the opcode. */
  function Operand8(e: Sys): byte { Peek(e.w, e.c.pc) }

  function Operand16(e: Sys): word { 256 * Peek(e.w, Plus16(e.c.pc, 1)) + Peek(e.w, e.c.pc) }

  function Pointed(r: Regs): word { 256 * r.h + r.l }

  /** What the three bits of a register field name. */
  function Named(e: Sys, n: Reg): byte
  {
    [e.c.r.b, e.c.r.c, e.c.r.d, e.c.r.e, e.c.r.h, e.c.r.l, Peek(e.w, Pointed(e.c.r)), e.c.r.a][n]
  }

  function Loaded(r: Regs, n: Reg, v: byte): Regs
  {
    Regs(if n == 7 then v else r.a, r.f, if n == 0 then v else r.b, if n == 1 then v else r.c,
         if n == 2 then v else r.d, if n == 3 then v else r.e,
         if n == 4 then v else r.h, if n == 5 then v else r.l, r.sp)
  }

  function PairOf(r: Regs, k: Pair): word
  {
    [256 * r.b + r.c, 256 * r.d + r.e, 256 * r.h + r.l, r.sp][k]
  }

  function PairLoaded(r: Regs, k: Pair, v: word): Regs
  {
    if k == 3 then r.(sp := v) else Loaded(Loaded(r, 2 * k, v / 256), 2 * k + 1, v % 256)
  }

  // ---------- machine cycles ----------

  /** The operand fetches. */
  function Fetches(e: Sys, n: nat): seq<Mc>
  {
    if n == 0 then []
    else if n == 1 then [Mc(0x82, e.c.pc, Peek(e.w, e.c.pc))]
    else [Mc(0x82, e.c.pc, Peek(e.w, e.c.pc)), Mc(0x82, Plus16(e.c.pc, 1), Peek(e.w, Plus16(e.c.pc, 1)))]
  }

  /** A memory read, if the field names M. */
  function Reads(e: Sys, n: Reg): seq<Mc>
  {
    if n == 6 then [Mc(0x82, Pointed(e.c.r), Named(e, 6))] else []
  }

  function Writes(e: Sys, n: Reg, v: byte): seq<Mc>
  {
    if n == 6 then [Mc(0x00, Pointed(e.c.r), v)] else []
  }

  /** The whole outcome: registers, memory, PC, and the machine cycles after the `n` operand fetches. */
  ghost predicate Ends(e: Sys, t: Sys, n: nat, r: Regs, w: World, pc: word, transfers: seq<Mc>)
  {
    t.c.r == r && t.w == w && t.c.pc == pc && t.c.mc == e.c.mc + Fetches(e, n) + transfers
  }

  /** Falling through after `n` operand bytes. */
  ghost predicate Passes(e: Sys, t: Sys, n: nat, r: Regs, w: World, transfers: seq<Mc>)
  {
    Ends(e, t, n, r, w, Plus16(e.c.pc, n), transfers)
  }

  /** A byte goes to a register or to M. */
  ghost predicate Puts(e: Sys, t: Sys, n: nat, r: Regs, d: Reg, v: byte, before: seq<Mc>)
  {
    if d == 6 then Passes(e, t, n, r, Poke(e.w, Pointed(e.c.r), v), before + Writes(e, 6, v))
    else Passes(e, t, n, Loaded(r, d, v), e.w, before)
  }

  // ---------- arithmetic and logic ----------

  /** Sign, zero and parity of a result. */
  predicate Describes(f: Flags, v: byte)
  {
    (f.s <==> BitAt(v, 7)) && (f.z <==> v == 0) && (f.p <==> Ones(v) % 2 == 0)
  }

  /** The eight operations on A, by the number in the opcode. */
  ghost predicate Operates(k: Reg, r: Regs, v: byte, u: Regs)
  {
    var c := AsInt((k == 1 || k == 3) && r.f.cy);
    && u == r.(a := u.a, f := u.f)
    && match k
       case 0 => Adds(r, v, c, u)
       case 1 => Adds(r, v, c, u)
       case 2 => Subtracts(r, v, c, u.f, u.a)
       case 3 => Subtracts(r, v, c, u.f, u.a)
       case 4 => (forall b: nat :: b < 8 ==> (BitAt(u.a, b) <==> BitAt(r.a, b) && BitAt(v, b)))
                 && Describes(u.f, u.a) && !u.f.cy && (u.f.ac <==> BitAt(r.a, 3) || BitAt(v, 3))
       case 5 => (forall b: nat :: b < 8 ==> (BitAt(u.a, b) <==> BitAt(r.a, b) != BitAt(v, b)))
                 && Describes(u.f, u.a) && !u.f.cy && !u.f.ac
       case 6 => (forall b: nat :: b < 8 ==> (BitAt(u.a, b) <==> BitAt(r.a, b) || BitAt(v, b)))
                 && Describes(u.f, u.a) && !u.f.cy && !u.f.ac
       case _ => u.a == r.a && exists res: byte :: Subtracts(r, v, 0, u.f, res)
  }

  predicate Adds(r: Regs, v: byte, c: nat, u: Regs)
  {
    && u.a as int + 256 * AsInt(u.f.cy) == r.a as int + v as int + c
    && (u.f.ac <==> r.a % 16 + v % 16 + c >= 16)
    && Describes(u.f, u.a)
  }

  predicate Subtracts(r: Regs, v: byte, c: nat, f: Flags, res: byte)
  {
    && res as int - 256 * AsInt(f.cy) == r.a as int - v as int - c
    && (f.ac <==> r.a % 16 >= v % 16 + c)
    && Describes(f, res)
  }

  /** INR and DCR: CY stays. */
  predicate Counts(f: Flags, v: byte, up: bool, g: Flags, res: byte)
  {
    && res == (if up then if v == 255 then 0 else v + 1 else if v == 0 then 255 else v - 1)
    && g.cy == f.cy && Describes(g, res)
    && (g.ac <==> if up then v % 16 == 15 else v % 16 != 0)
  }

  /** The four rotations, bit by bit; the other flags stay. */
  ghost predicate Rotates(i: Instr, r: Regs, u: Regs)
    requires i.Rlc? || i.Rrc? || i.Ral? || i.Rar?
  {
    var left := i.Rlc? || i.Ral?;
    var entering := if i.Rlc? then BitAt(r.a, 7) else if i.Rrc? then BitAt(r.a, 0) else r.f.cy;
    && u == r.(a := u.a, f := r.f.(cy := u.f.cy))
    && (if left then Rises(r.a, u.a, entering) else Rises(u.a, r.a, BitAt(r.a, 0)) && (BitAt(u.a, 7) <==> entering))
    && (u.f.cy <==> if left then BitAt(r.a, 7) else BitAt(r.a, 0))
  }

  /** Each bit of x stands one place higher in y, and `low` at the bottom. */
  ghost predicate Rises(x: byte, y: byte, low: bool)
  {
    (BitAt(y, 0) <==> low) && forall b: nat :: b < 7 ==> (BitAt(y, b + 1) <==> BitAt(x, b))
  }

  /** DAA: 6 for a low digit above 9 or AC, 60H and the carry for a value above 99H or CY. */
  predicate Adjusts(r: Regs, u: Regs)
  {
    var low := if r.f.ac || r.a % 16 > 9 then 6 else 0;
    var high := r.f.cy || r.a > 0x99;
    && u == r.(a := u.a, f := u.f)
    && u.a == (r.a + low + (if high then 0x60 else 0)) % 256
    && u.f.cy == high && (u.f.ac <==> r.a % 16 + low >= 16) && Describes(u.f, u.a)
  }

  /** The eight conditions: a flag and the value it must have. */
  predicate Condition(f: Flags, cc: Cond) { [f.z, f.cy, f.p, f.s][cc / 2] == (cc % 2 == 1) }

  // ---------- the stack ----------

  function Below(sp: word, n: nat): word
    requires n <= 2
  {
    if sp < n then sp + 0x1_0000 - n else sp - n
  }

  function Stacked(w: World, sp: word, hi: byte, lo: byte): World
  {
    Poke(Poke(w, Below(sp, 1), hi), Below(sp, 2), lo)
  }

  function StackWrites(sp: word, hi: byte, lo: byte): seq<Mc>
  {
    [Mc(0x04, Below(sp, 1), hi), Mc(0x04, Below(sp, 2), lo)]
  }

  function StackReads(w: World, sp: word): seq<Mc>
  {
    [Mc(0x86, sp, Peek(w, sp)), Mc(0x86, Plus16(sp, 1), Peek(w, Plus16(sp, 1)))]
  }

  function Top(w: World, sp: word): word { 256 * Peek(w, Plus16(sp, 1)) + Peek(w, sp) }

  /** The flag byte, from bit 0 to bit 7. */
  function FlagByte(f: Flags): nat { BitSum([f.cy, true, f.p, false, f.ac, false, f.z, f.s]) }

  predicate FlagsFrom(f: Flags, v: byte)
  {
    f.cy == BitAt(v, 0) && f.p == BitAt(v, 2) && f.ac == BitAt(v, 4) && f.z == BitAt(v, 6) && f.s == BitAt(v, 7)
  }

  /** Pushing a return address and going somewhere else. */
  ghost predicate Calls(e: Sys, t: Sys, n: nat, to: word)
  {
    var (sp, back) := (e.c.r.sp, Plus16(e.c.pc, n));
    Ends(e, t, n, e.c.r.(sp := Below(sp, 2)), Stacked(e.w, sp, back / 256, back % 256), to,
         StackWrites(sp, back / 256, back % 256))
  }

  ghost predicate Returns(e: Sys, t: Sys)
  {
    var sp := e.c.r.sp;
    Ends(e, t, 0, e.c.r.(sp := Plus16(sp, 2)), e.w, Top(e.w, sp), StackReads(e.w, sp))
  }

  // ---------- every instruction ----------

  /** Loads, stores and 16-bit register work. */
  ghost predicate DoesMove(e: Sys, i: Instr, t: Sys)
    requires IsMove(i)
  {
    var r, at := e.c.r, Operand16(e);
    match i
    case Lxi(rp) => Passes(e, t, 2, PairLoaded(r, rp, at), e.w, [])
    case Stax(rp) => Passes(e, t, 0, r, Poke(e.w, PairOf(r, rp), r.a), [Mc(0x00, PairOf(r, rp), r.a)])
    case Ldax(rp) =>
      var v := Peek(e.w, PairOf(r, rp));
      Passes(e, t, 0, r.(a := v), e.w, [Mc(0x82, PairOf(r, rp), v)])
    case Shld =>
      Passes(e, t, 2, r, Poke(Poke(e.w, at, r.l), Plus16(at, 1), r.h),
             [Mc(0x00, at, r.l), Mc(0x00, Plus16(at, 1), r.h)])
    case Lhld =>
      var l, h := Peek(e.w, at), Peek(e.w, Plus16(at, 1));
      Passes(e, t, 2, r.(h := h, l := l), e.w, [Mc(0x82, at, l), Mc(0x82, Plus16(at, 1), h)])
    case Sta => Passes(e, t, 2, r, Poke(e.w, at, r.a), [Mc(0x00, at, r.a)])
    case Lda => Passes(e, t, 2, r.(a := Peek(e.w, at)), e.w, [Mc(0x82, at, Peek(e.w, at))])
    case Inx(rp) => Passes(e, t, 0, PairLoaded(r, rp, (PairOf(r, rp) + 1) % 0x1_0000), e.w, [])
    case Dcx(rp) => Passes(e, t, 0, PairLoaded(r, rp, (PairOf(r, rp) - 1) % 0x1_0000), e.w, [])
    case Mov(d, n) => Puts(e, t, 0, r, d, Named(e, n), Reads(e, n))
    case Mvi(d) => Puts(e, t, 1, r, d, Operand8(e), [])
    case Xchg => Passes(e, t, 0, PairLoaded(PairLoaded(r, 1, PairOf(r, 2)), 2, PairOf(r, 1)), e.w, [])
    case Sphl => Passes(e, t, 0, r.(sp := Pointed(r)), e.w, [])
  }

  /** Arithmetic, logic and flags. */
  ghost predicate DoesAlu(e: Sys, i: Instr, t: Sys)
    requires IsAlu(i)
  {
    var r, u := e.c.r, t.c.r;
    match i
    case Dad(rp) =>
      var sum := PairOf(r, 2) + PairOf(r, rp);
      Passes(e, t, 0, PairLoaded(r.(f := r.f.(cy := sum >= 0x1_0000)), 2, sum % 0x1_0000), e.w, [])
    case Daa => Adjusts(r, u) && Passes(e, t, 0, u, e.w, [])
    case Cma =>
      && (forall b: nat :: b < 8 ==> (BitAt(u.a, b) <==> !BitAt(r.a, b)))
      && Passes(e, t, 0, r.(a := u.a), e.w, [])
    case Stc => Passes(e, t, 0, r.(f := r.f.(cy := true)), e.w, [])
    case Cmc => Passes(e, t, 0, r.(f := r.f.(cy := !r.f.cy)), e.w, [])
    case Alu(k, n) => Operates(k, r, Named(e, n), u) && Passes(e, t, 0, u, e.w, Reads(e, n))
    case AluImm(k) => Operates(k, r, Operand8(e), u) && Passes(e, t, 1, u, e.w, [])
    case Inr(d) => Steps(e, t, d, true)
    case Dcr(d) => Steps(e, t, d, false)
    case _ => Rotates(i, r, u) && Passes(e, t, 0, u, e.w, [])
  }

  /** A register or M counts up or down. */
  ghost predicate Steps(e: Sys, t: Sys, d: Reg, up: bool)
  {
    exists res: byte ::
      && Counts(e.c.r.f, Named(e, d), up, t.c.r.f, res)
      && Puts(e, t, 0, e.c.r.(f := t.c.r.f), d, res, Reads(e, d))
  }

  /** The stack, jumps, calls and returns. */
  ghost predicate DoesFlow(e: Sys, i: Instr, t: Sys)
    requires IsFlow(i)
  {
    var r, sp, at := e.c.r, e.c.r.sp, Operand16(e);
    match i
    case Pop(rp) =>
      var v := Top(e.w, sp);
      && (rp < 3 ==> Passes(e, t, 0, PairLoaded(r.(sp := Plus16(sp, 2)), rp, v), e.w, StackReads(e.w, sp)))
      && (rp == 3 ==>
            && FlagsFrom(t.c.r.f, v % 256)
            && Passes(e, t, 0, r.(a := v / 256, f := t.c.r.f, sp := Plus16(sp, 2)), e.w, StackReads(e.w, sp)))
    case Push(rp) =>
      var hi: byte := if rp == 3 then r.a else PairOf(r, rp) / 256;
      var lo := if rp == 3 then FlagByte(r.f) else PairOf(r, rp) % 256;
      && lo < 256
      && Passes(e, t, 0, r.(sp := Below(sp, 2)), Stacked(e.w, sp, hi, lo), StackWrites(sp, hi, lo))
    case Xthl =>
      Passes(e, t, 0, PairLoaded(r, 2, Top(e.w, sp)),
             Poke(Poke(e.w, Plus16(sp, 1), r.h), sp, r.l),
             StackReads(e.w, sp) + [Mc(0x04, Plus16(sp, 1), r.h), Mc(0x04, sp, r.l)])
    case Pchl => Ends(e, t, 0, r, e.w, Pointed(r), [])
    case Jmp => Ends(e, t, 2, r, e.w, at, [])
    case Jcc(cc) => Ends(e, t, 2, r, e.w, if Condition(r.f, cc) then at else Plus16(e.c.pc, 2), [])
    case Call => Calls(e, t, 2, at)
    case Ccc(cc) => if Condition(r.f, cc) then Calls(e, t, 2, at) else Passes(e, t, 2, r, e.w, [])
    case Ret => Returns(e, t)
    case Rcc(cc) => if Condition(r.f, cc) then Returns(e, t) else Passes(e, t, 0, r, e.w, [])
    case Rst(n) => Calls(e, t, 0, 8 * n)
  }

  /** The rest; what EI, DI and HLT do to the interrupt state is the matter of StepIrq. */
  ghost predicate DoesControl(e: Sys, i: Instr, t: Sys)
    requires !IsMove(i) && !IsAlu(i) && !IsFlow(i)
  {
    var port := Operand8(e);
    match i
    case In =>
      var v := PortIn(e.w, port);
      Passes(e, t, 1, e.c.r.(a := v), e.w, [Mc(0x42, 257 * port, v)])
    case Out => Passes(e, t, 1, e.c.r, PortOut(e.w, port, e.c.r.a), [Mc(0x10, 257 * port, e.c.r.a)])
    case _ => Passes(e, t, 0, e.c.r, e.w, [])
  }

  ghost predicate Does(e: Sys, i: Instr, t: Sys)
  {
    if IsMove(i) then DoesMove(e, i, t)
    else if IsAlu(i) then DoesAlu(e, i, t)
    else if IsFlow(i) then DoesFlow(e, i, t)
    else DoesControl(e, i, t)
  }

  // ---------- words and bits ----------

  lemma WordIs(hi: byte, lo: byte)
    ensures Word(hi, lo) == 256 * hi + lo && Hi(Word(hi, lo)) == hi && Lo(Word(hi, lo)) == lo
  {
  }

  lemma StackWords(sp: word)
    ensures Dec16(sp) == Below(sp, 1) && Dec16(Dec16(sp)) == Below(sp, 2)
    ensures Inc16(sp) == Plus16(sp, 1) && Inc16(Inc16(sp)) == Plus16(sp, 2)
  {
  }

  // ---------- the operations on A ----------

  lemma SzpDescribes(f: Flags, v: byte)
    ensures Describes(SetSzp(f, v), v)
  {
    hide BitAt, Ones;
    ByteBits(v);
  }

  lemma AddOperates(r: Regs, v: byte, cy: bool)
    ensures var u := AluAdd(r, v, cy);
            Adds(r, v, AsInt(cy), u) && u == r.(a := u.a, f := u.f)
  {
    hide BitAt, Ones;
    AddByte(r, v, cy);
    ByteBits(AluAdd(r, v, cy).a);
  }

  lemma SubOperates(r: Regs, v: byte, cy: bool)
    ensures var u := AluSub(r, v, cy);
            Subtracts(r, v, AsInt(cy), u.f, u.a) && u == r.(a := u.a, f := u.f)
  {
    hide BitAt, Ones, CarryOut;
    SubByte(r, v, cy);
    ByteBits(AluSub(r, v, cy).a);
  }

  lemma AnaOperates(r: Regs, v: byte)
    ensures Operates(4, r, v, AluAna(r, v))
  {
    hide BitAt, Ones, AndW;
    forall b: nat | b < 8 ensures BitAt(And8(r.a, v), b) <==> BitAt(r.a, b) && BitAt(v, b) {
      AndBit(r.a, v, 8, b);
    }
    SzpDescribes(r.f, And8(r.a, v));
    ByteBits(r.a);
    ByteBits(v);
  }

  lemma XraOperates(r: Regs, v: byte)
    ensures Operates(5, r, v, AluXra(r, v))
  {
    hide BitAt, Ones, XorW;
    forall b: nat | b < 8 ensures BitAt(Xor8(r.a, v), b) <==> BitAt(r.a, b) != BitAt(v, b) {
      XorBit(r.a, v, 8, b);
    }
    SzpDescribes(r.f, Xor8(r.a, v));
  }

  lemma OraOperates(r: Regs, v: byte)
    ensures Operates(6, r, v, AluOra(r, v))
  {
    hide BitAt, Ones, OrW;
    forall b: nat | b < 8 ensures BitAt(Or8(r.a, v), b) <==> BitAt(r.a, b) || BitAt(v, b) {
      OrBit(r.a, v, 8, b);
    }
    SzpDescribes(r.f, Or8(r.a, v));
  }

  lemma OpOperates(r: Regs, k: Reg, v: byte)
    ensures Operates(k, r, v, AluOp(r, k, v))
  {
    hide AluAdd, AluSub, AluAna, AluXra, AluOra, BitAt, Describes, Adds, Subtracts;
    match k
    case 0 => AddOperates(r, v, false);
    case 1 => AddOperates(r, v, r.f.cy);
    case 2 => SubOperates(r, v, false);
    case 3 => SubOperates(r, v, r.f.cy);
    case 4 => AnaOperates(r, v);
    case 5 => XraOperates(r, v);
    case 6 => OraOperates(r, v);
    case _ => SubOperates(r, v, false);
  }

  /** A byte shifted up, with a new bottom bit. */
  lemma ShiftUp(x: byte, low: bool)
    ensures Rises(x, x * 2 % 256 + AsInt(low), low)
  {
    var y: byte := x * 2 % 256 + AsInt(low);
    assert y / 2 == x % 128 && (y % 2 == 1 <==> low);
    forall b: nat | b < 7 ensures BitAt(y, b + 1) <==> BitAt(x, b) {
      LowSeven(x, b);
    }
  }

  /** A byte shifted down, with a new top bit. */
  lemma ShiftDown(x: byte, high: bool)
    ensures var y: byte := x / 2 + 128 * AsInt(high);
            Rises(y, x, BitAt(x, 0)) && (BitAt(y, 7) <==> high)
  {
    var y: byte := x / 2 + 128 * AsInt(high);
    assert y % 128 == x / 2 && (y >= 128 <==> high);
    hide HasBit, BitAt;
    ByteBits(y);
    forall b: nat | b < 7 ensures BitAt(x, b + 1) <==> BitAt(y, b) {
      LowSeven(y, b);
      Next(x, b);
    }
  }

  lemma RotateRotates(r: Regs, i: Instr)
    requires i.Rlc? || i.Rrc? || i.Ral? || i.Rar?
    ensures Rotates(i, r, Rotate(r, i))
  {
    hide BitAt, Rises;
    ByteBits(r.a);
    ShiftUp(r.a, r.a / 128 == 1);
    ShiftUp(r.a, r.f.cy);
    ShiftDown(r.a, r.a % 2 == 1);
    ShiftDown(r.a, r.f.cy);
  }

  lemma DaaAdjusts(r: Regs)
    ensures Adjusts(r, AluDaa(r))
  {
    hide AluAdd, BitAt, Ones, CarryOut;
    var low: byte := if r.f.ac || r.a % 16 > 9 then 0x06 else 0;
    var corr: byte := low + (if DaaHigh(r.f, r.a) then 0x60 else 0);
    AddOperates(r, corr, false);
    assert DaaHigh(r.f, r.a) <==> r.f.cy || r.a > 0x99;
    assert corr % 16 == low;
  }

  lemma InrCounts(f: Flags, v: byte)
    ensures var res := (v + 1) % 256; Counts(f, v, true, IncFlags(f, res), res)
  {
    hide BitAt, Ones;
    SzpDescribes(f.(ac := (v + 1) % 256 % 16 == 0), (v + 1) % 256);
  }

  lemma DcrCounts(f: Flags, v: byte)
    ensures var res := (v + 255) % 256; Counts(f, v, false, DecFlags(f, res), res)
  {
    hide BitAt, Ones;
    SzpDescribes(f.(ac := (v + 255) % 256 % 16 != 15), (v + 255) % 256);
  }

  // ---------- the interpreter ----------

  lemma SameRegisters(e: Sys, n: Reg)
    ensures Pointed(e.c.r) == HL(e.c.r)
    ensures n != 6 ==> Named(e, n) == RegOf(e.c.r, n)
    ensures Named(e, 6) == Peek(e.w, HL(e.c.r))
  {
    hide Peek;
  }

  lemma SameLoad(r: Regs, n: Reg, v: byte)
    requires n != 6
    ensures Loaded(r, n, v) == WithReg(r, n, v)
  {
  }

  lemma SamePairs(r: Regs, k: Pair, v: word)
    ensures PairOf(r, k) == GetPair(r, k) && PairLoaded(r, k, v) == SetPair(r, k, v)
  {
  }

  /** The two kinds of operand fetch. */
  lemma FetchesByte(e: Sys)
    requires |e.c.mc| == 1
    ensures var (t, v) := Fetch8(e);
            && v == Operand8(e) && t.c.mc == e.c.mc + Fetches(e, 1)
            && t == Sys(e.c.(pc := Plus16(e.c.pc, 1), mc := t.c.mc), e.w)
  {
    hide Peek;
  }

  lemma FetchesWord(e: Sys)
    requires |e.c.mc| == 1
    ensures var (t, v) := Fetch16(e);
            && v == Operand16(e) && t.c.mc == e.c.mc + Fetches(e, 2) && |t.c.mc| == 3
            && t == Sys(e.c.(pc := Plus16(e.c.pc, 2), mc := t.c.mc), e.w)
  {
    hide Peek;
  }

  lemma DirectDoes(e: Sys, i: Instr)
    requires |e.c.mc| == 1 && (i.Lxi? || i.Shld? || i.Lhld? || i.Sta? || i.Lda?)
    ensures DoesMove(e, i, ExecMove(e, i))
  {
    hide Peek, Poke, Fetch16, Operand16, Fetches, PairOf, PairLoaded, SetPair, GetPair;
    FetchesWord(e);
    StackWords(Operand16(e));
    if i.Lxi? {
      SamePairs(e.c.r, i.rp, Operand16(e));
    }
  }

  lemma IndirectDoes(e: Sys, i: Instr)
    requires |e.c.mc| == 1 && (i.Stax? || i.Ldax?)
    ensures DoesMove(e, i, ExecMove(e, i))
  {
    hide Peek, Poke, PairOf, GetPair;
    SamePairs(e.c.r, i.rp, 0);
  }

  lemma PairsDo(e: Sys, i: Instr)
    requires |e.c.mc| == 1 && (i.Inx? || i.Dcx? || i.Xchg? || i.Sphl?)
    ensures DoesMove(e, i, ExecMove(e, i))
  {
    if i.Inx? {
      SamePairs(e.c.r, i.rp, Inc16(GetPair(e.c.r, i.rp)));
      hide PairOf, PairLoaded, GetPair, SetPair;
    } else if i.Dcx? {
      SamePairs(e.c.r, i.rp, Dec16(GetPair(e.c.r, i.rp)));
      hide PairOf, PairLoaded, GetPair, SetPair;
    }
  }

  lemma MovesDo(e: Sys, i: Instr)
    requires |e.c.mc| == 1 && ((i.Mov? && (i.dst != 6 || i.src != 6)) || i.Mvi?)
    ensures DoesMove(e, i, ExecMove(e, i))
  {
    hide Peek, Poke, Named, Loaded, WithReg, RegOf, Pointed, HL, Operand8, Fetch8;
    FetchesByte(e);
    SameRegisters(e, if i.Mov? then i.src else 0);
    if i.dst != 6 {
      SameLoad(e.c.r, i.dst, if i.Mov? then Named(e, i.src) else Operand8(e));
    }
  }

  lemma MoveDoes(e: Sys, i: Instr)
    requires |e.c.mc| == 1 && IsMove(i) && (i.Mov? ==> i.dst != 6 || i.src != 6)
    ensures DoesMove(e, i, ExecMove(e, i))
  {
    hide DoesMove, ExecMove;
    if i.Lxi? || i.Shld? || i.Lhld? || i.Sta? || i.Lda? {
      DirectDoes(e, i);
    } else if i.Stax? || i.Ldax? {
      IndirectDoes(e, i);
    } else if i.Mov? || i.Mvi? {
      MovesDo(e, i);
    } else {
      PairsDo(e, i);
    }
  }

  lemma DadIs(r: Regs, v: word)
    ensures var sum := PairOf(r, 2) + v;
            AluDad(r, v) == PairLoaded(r.(f := r.f.(cy := sum >= 0x1_0000)), 2, sum % 0x1_0000)
  {
  }

  lemma DadDoes(e: Sys, i: Instr)
    requires |e.c.mc| == 1 && i.Dad?
    ensures DoesAlu(e, i, ExecAlu(e, i))
  {
    hide GetPair, PairOf, PairLoaded, AluDad;
    SamePairs(e.c.r, i.rp, 0);
    DadIs(e.c.r, PairOf(e.c.r, i.rp));
  }

  lemma FlagsDo(e: Sys, i: Instr)
    requires |e.c.mc| == 1 && (i.Daa? || i.Cma? || i.Stc? || i.Cmc?)
    ensures DoesAlu(e, i, ExecAlu(e, i))
  {
    hide AluDaa, BitAt, Adjusts, Peek;
    if i.Daa? {
      DaaAdjusts(e.c.r);
      DaaKeeps(e.c.r);
    } else if i.Cma? {
      forall b: nat | b < 8 ensures BitAt(255 - e.c.r.a, b) <==> !BitAt(e.c.r.a, b) {
        ComplementBit(e.c.r.a, b);
      }
    }
  }

  lemma DaaKeeps(r: Regs)
    ensures AluDaa(r) == r.(a := AluDaa(r).a, f := AluDaa(r).f)
  {
    hide CarryOut, EvenParity, DaaHigh;
  }

  lemma OperationsDo(e: Sys, i: Instr)
    requires |e.c.mc| == 1 && (i.Alu? || i.AluImm?)
    ensures DoesAlu(e, i, ExecAlu(e, i))
  {
    hide AluOp, Operates, Peek, Named, RegOf, Pointed, HL, Operand8, Fetch8;
    FetchesByte(e);
    if i.Alu? {
      SameRegisters(e, i.src);
      OpOperates(e.c.r, i.k, Named(e, i.src));
    } else {
      OpOperates(e.c.r, i.k, Operand8(e));
    }
  }

  lemma CountsDo(e: Sys, i: Instr)
    requires |e.c.mc| == 1 && (i.Inr? || i.Dcr?)
    ensures DoesAlu(e, i, ExecAlu(e, i))
  {
    hide Peek, Poke, Named, Loaded, WithReg, RegOf, Pointed, HL, IncFlags, DecFlags, Counts, GetPair, Rotate;
    var v: int := Named(e, i.dst);
    var res: byte := if i.Inr? then (v + 1) % 256 else (v + 255) % 256;
    var f := if i.Inr? then IncFlags(e.c.r.f, res) else DecFlags(e.c.r.f, res);
    InrCounts(e.c.r.f, v);
    DcrCounts(e.c.r.f, v);
    SameRegisters(e, i.dst);
    PointedKept(e.c.r, f);
    if i.dst != 6 {
      SameLoad(e.c.r.(f := f), i.dst, res);
      LoadKeepsFlags(e.c.r.(f := f), i.dst, res);
    }
    assert Counts(e.c.r.f, v, i.Inr?, ExecAlu(e, i).c.r.f, res);
  }

  lemma PointedKept(r: Regs, f: Flags)
    ensures Pointed(r.(f := f)) == Pointed(r) && HL(r.(f := f)) == HL(r)
  {
  }

  lemma LoadKeepsFlags(r: Regs, n: Reg, v: byte)
    ensures WithReg(r, n, v).f == r.f
  {
  }

  lemma RotationsDo(e: Sys, i: Instr)
    requires |e.c.mc| == 1 && (i.Rlc? || i.Rrc? || i.Ral? || i.Rar?)
    ensures DoesAlu(e, i, ExecAlu(e, i))
  {
    hide Rotate, Rotates, Peek;
    RotateRotates(e.c.r, i);
  }

  lemma AluDoes(e: Sys, i: Instr)
    requires |e.c.mc| == 1 && IsAlu(i)
    ensures DoesAlu(e, i, ExecAlu(e, i))
  {
    hide DoesAlu, ExecAlu;
    if i.Dad? {
      DadDoes(e, i);
    } else if i.Alu? || i.AluImm? {
      OperationsDo(e, i);
    } else if i.Inr? || i.Dcr? {
      CountsDo(e, i);
    } else if i.Rlc? || i.Rrc? || i.Ral? || i.Rar? {
      RotationsDo(e, i);
    } else {
      FlagsDo(e, i);
    }
  }

  lemma ConditionIs(f: Flags, cc: Cond)
    ensures Condition(f, cc) <==> CondTrue(f, cc)
  {
  }

  lemma FlagByteIs(f: Flags)
    ensures FlagByte(f) == Psw(f)
  {
    hide BitSum;
    EightBits(f.cy, true, f.p, false, f.ac, false, f.z, f.s);
  }

  lemma FlagsFromIs(v: byte)
    ensures FlagsFrom(FromPsw(v), v)
  {
    hide BitAt, HasBit;
    ByteBits(v);
  }

  lemma PopDoes(e: Sys, i: Instr)
    requires |e.c.mc| == 1 && i.Pop?
    ensures DoesFlow(e, i, ExecFlow(e, i))
  {
    hide Peek, FromPsw, FlagsFrom, PairLoaded, SetPair, Word;
    var sp := e.c.r.sp;
    StackWords(sp);
    WordIs(Peek(e.w, Plus16(sp, 1)), Peek(e.w, sp));
    FlagsFromIs(Top(e.w, sp) % 256);
    SamePairs(e.c.r.(sp := Plus16(sp, 2)), i.rp, Top(e.w, sp));
  }

  lemma PushDoes(e: Sys, i: Instr)
    requires |e.c.mc| == 1 && i.Push?
    ensures DoesFlow(e, i, ExecFlow(e, i))
  {
    hide Poke, FlagByte, Psw, PairOf, GetPair;
    StackWords(e.c.r.sp);
    FlagByteIs(e.c.r.f);
    WordIs(e.c.r.a, Psw(e.c.r.f));
    SamePairs(e.c.r, i.rp, 0);
  }

  lemma XthlDoes(e: Sys, i: Instr)
    requires |e.c.mc| == 1 && i.Xthl?
    ensures DoesFlow(e, i, ExecFlow(e, i))
  {
    hide Peek, Poke, PairLoaded, SetPair, Word, Dec16;
    var sp := e.c.r.sp;
    StackWords(sp);
    UpAndDown(sp);
    WordIs(Peek(e.w, Plus16(sp, 1)), Peek(e.w, sp));
    WordIs(e.c.r.h, e.c.r.l);
    SamePairs(e.c.r, 2, Top(e.w, sp));
    PairKeepsStack(e.c.r, Top(e.w, sp));
  }

  lemma UpAndDown(sp: word)
    ensures Dec16(Inc16(Inc16(sp))) == Inc16(sp) && Dec16(Dec16(Inc16(Inc16(sp)))) == sp
  {
    hide Inc16, Dec16;
    DownFromUp(sp);
    DownFromUp(Inc16(sp));
  }

  lemma DownFromUp(v: word)
    ensures Dec16(Inc16(v)) == v
  {
  }

  lemma PairKeepsStack(r: Regs, v: word)
    ensures SetPair(r, 2, v).sp == r.sp
    ensures forall sp: word :: SetPair(r.(sp := sp), 2, v).(sp := r.sp) == SetPair(r, 2, v)
  {
  }

  lemma JumpsDo(e: Sys, i: Instr)
    requires |e.c.mc| == 1 && (i.Pchl? || i.Jmp? || i.Jcc?)
    ensures DoesFlow(e, i, ExecFlow(e, i))
  {
    hide Peek, Fetch16, Operand16, CondTrue, Condition;
    FetchesWord(e);
    if i.Jcc? {
      ConditionIs(e.c.r.f, i.cc);
    }
  }

  /** A push after the operands have been fetched. */
  lemma PushesBack(e: Sys, u: Sys, n: nat, v: word)
    requires |u.c.mc| <= 4 && u.c.mc == e.c.mc + Fetches(e, n) && u.c.r == e.c.r && u.w == e.w
    ensures var t := Push16(u, v);
            var sp := e.c.r.sp;
            && t.c.r == e.c.r.(sp := Below(sp, 2)) && t.w == Stacked(e.w, sp, v / 256, v % 256)
            && t.c.mc == e.c.mc + Fetches(e, n) + StackWrites(sp, v / 256, v % 256) && t.c.pc == u.c.pc
  {
    hide Poke, Fetches;
    StackWords(e.c.r.sp);
  }

  lemma CallsDo(e: Sys, i: Instr)
    requires |e.c.mc| == 1 && (i.Call? || i.Ccc? || i.Rst?)
    ensures DoesFlow(e, i, ExecFlow(e, i))
  {
    hide Peek, Poke, Fetch16, Operand16, CondTrue, Condition, Push16, Fetches, Stacked, StackWrites, Below;
    if i.Rst? {
      NoFetch(e);
      PushesBack(e, e, 0, e.c.pc);
    } else {
      FetchesWord(e);
      var u := Fetch16(e).0;
      PushesBack(e, u, 2, u.c.pc);
      if i.Ccc? {
        ConditionIs(e.c.r.f, i.cc);
      }
    }
  }

  lemma NoFetch(e: Sys)
    ensures Fetches(e, 0) == [] && Plus16(e.c.pc, 0) == e.c.pc
  {
  }

  lemma ReturnsDo(e: Sys, i: Instr)
    requires |e.c.mc| == 1 && (i.Ret? || i.Rcc?)
    ensures DoesFlow(e, i, ExecFlow(e, i))
  {
    hide Peek, CondTrue, Condition;
    StackWords(e.c.r.sp);
    if i.Rcc? {
      ConditionIs(e.c.r.f, i.cc);
    }
  }

  lemma FlowDoes(e: Sys, i: Instr)
    requires |e.c.mc| == 1 && IsFlow(i)
    ensures DoesFlow(e, i, ExecFlow(e, i))
  {
    hide DoesFlow, ExecFlow;
    if i.Pop? {
      PopDoes(e, i);
    } else if i.Push? {
      PushDoes(e, i);
    } else if i.Xthl? {
      XthlDoes(e, i);
    } else if i.Pchl? || i.Jmp? || i.Jcc? {
      JumpsDo(e, i);
    } else if i.Ret? || i.Rcc? {
      ReturnsDo(e, i);
    } else {
      CallsDo(e, i);
    }
  }

  lemma ControlDoes(e: Sys, i: Instr)
    requires |e.c.mc| == 1 && !IsMove(i) && !IsAlu(i) && !IsFlow(i)
    ensures DoesControl(e, i, ExecControl(e, i))
  {
    hide Peek, PortIn, PortOut, Operand8, Fetch8;
    FetchesByte(e);
  }

  /** Every opcode does what is written here of its instruction. */
  lemma ExecuteDoes(e: Sys, op: byte)
    requires |e.c.mc| == 1
    ensures Does(e, Decode(op), Execute(e, Decode(op)))
  {
    hide Decode, DoesMove, DoesAlu, DoesFlow, DoesControl, ExecMove, ExecAlu, ExecFlow, ExecControl;
    var i := Decode(op);
    IsaTables.NoMoveFromMemoryToMemory(op);
    if IsMove(i) {
      MoveDoes(e, i);
    } else if IsAlu(i) {
      AluDoes(e, i);
    } else if IsFlow(i) {
      FlowDoes(e, i);
    } else {
      ControlDoes(e, i);
    }
  }

  /** So does every step that executes one, fetched or jammed. */
  lemma StepDoes(s: Sys)
    requires Executes(s)
    ensures Does(StepLaws.Entered(s), Decode(Opcode(s)), Step(s))
  {
    hide Decode, Execute, Step;
    StepLaws.EnteredLaw(s);
    ExecuteDoes(StepLaws.Entered(s), Opcode(s));
    OnlyVisible(StepLaws.Entered(s), Decode(Opcode(s)), Execute(StepLaws.Entered(s), Decode(Opcode(s))), Step(s));
  }

  /** `Does` looks at the registers, PC, the trace and the board only. */
  lemma OnlyVisible(e: Sys, i: Instr, t: Sys, u: Sys)
    requires SameView(t, u) && Does(e, i, t)
    ensures Does(e, i, u)
  {
    hide DoesMove, DoesAlu, DoesFlow, DoesControl, SameView;
    if IsMove(i) {
      MoveVisible(e, i, t, u);
    } else if IsAlu(i) {
      AluVisible(e, i, t, u);
    } else if IsFlow(i) {
      FlowVisible(e, i, t, u);
    } else {
      ControlVisible(e, i, t, u);
    }
  }

  predicate SameView(t: Sys, u: Sys)
  {
    t.c.r == u.c.r && t.c.pc == u.c.pc && t.c.mc == u.c.mc && t.w == u.w
  }

  lemma EndVisible(e: Sys, t: Sys, u: Sys)
    requires SameView(t, u)
    ensures forall n: nat, r, w, pc, transfers ::
              Ends(e, t, n, r, w, pc, transfers) ==> Ends(e, u, n, r, w, pc, transfers)
  {
    hide Fetches;
  }

  lemma MoveVisible(e: Sys, i: Instr, t: Sys, u: Sys)
    requires SameView(t, u) && IsMove(i) && DoesMove(e, i, t)
    ensures DoesMove(e, i, u)
  {
    hide Peek, Poke, Ends, PairOf, PairLoaded, Loaded, Named, Reads, Writes, SameView, Pointed, Operand8, Operand16;
    EndVisible(e, t, u);
  }

  lemma AluVisible(e: Sys, i: Instr, t: Sys, u: Sys)
    requires SameView(t, u) && IsAlu(i) && DoesAlu(e, i, t)
    ensures DoesAlu(e, i, u)
  {
    hide Peek, Poke, Ends, PairOf, PairLoaded, Loaded, Named, Reads, Writes, Pointed, Operand8;
    hide Operates, Adjusts, Counts, Rotates;
    EndVisible(e, t, u);
  }

  lemma FlowVisible(e: Sys, i: Instr, t: Sys, u: Sys)
    requires SameView(t, u) && IsFlow(i) && DoesFlow(e, i, t)
    ensures DoesFlow(e, i, u)
  {
    hide Peek, Poke, Ends, PairOf, PairLoaded, Pointed, Operand16, Stacked, StackReads, StackWrites, Top, Below;
    hide Condition, FlagsFrom, FlagByte;
    EndVisible(e, t, u);
  }

  lemma ControlVisible(e: Sys, i: Instr, t: Sys, u: Sys)
    requires SameView(t, u) && !IsMove(i) && !IsAlu(i) && !IsFlow(i) && DoesControl(e, i, t)
    ensures DoesControl(e, i, u)
  {
    hide Peek, PortIn, PortOut, Ends, Operand8;
    EndVisible(e, t, u);
  }

  // ---------- pairs of instructions ----------

  /** What PUSH puts on a stack in RAM, POP of the same pair takes back: all registers, and for PSW all flags. */
  lemma PushThenPop(e: Sys, t: Sys, v: Sys, u: Sys, rp: Pair)
    requires IsRam(Below(e.c.r.sp, 1)) && IsRam(Below(e.c.r.sp, 2))
    requires Does(e, Push(rp), t) && v.c.r == t.c.r && v.w == t.w && Does(v, Pop(rp), u)
    ensures u.c.r == e.c.r && u.w == t.w
  {
    hide Poke, Peek, FlagByte, FlagsFrom, Stacked, Top, Below, PairOf, PairLoaded, Does, Plus16, IsRam;
    var r, sp := e.c.r, e.c.r.sp;
    var hi: byte := if rp == 3 then r.a else PairOf(r, rp) / 256;
    PushDone(e, t, rp);
    PopDone(v, u, rp);
    FlagByteIs(r.f);
    var lo: byte := if rp == 3 then FlagByte(r.f) else PairOf(r, rp) % 256;
    StackReturns(e.w, sp, hi, lo);
    if rp == 3 {
      FlagsReturn(r.f, u.c.r.f);
    } else {
      PairReturns(r, rp, Below(sp, 2));
    }
  }

  lemma PushDone(e: Sys, t: Sys, rp: Pair)
    requires Does(e, Push(rp), t)
    ensures var hi: byte := if rp == 3 then e.c.r.a else PairOf(e.c.r, rp) / 256;
            var lo := if rp == 3 then FlagByte(e.c.r.f) else PairOf(e.c.r, rp) % 256;
            lo < 256 && t.c.r == e.c.r.(sp := Below(e.c.r.sp, 2)) && t.w == Stacked(e.w, e.c.r.sp, hi, lo)
  {
    hide Poke, Peek, FlagByte, Stacked, PairOf, Fetches;
  }

  lemma PopDone(v: Sys, u: Sys, rp: Pair)
    requires Does(v, Pop(rp), u)
    ensures u.w == v.w
    ensures var (r, top) := (v.c.r.(sp := Plus16(v.c.r.sp, 2)), Top(v.w, v.c.r.sp));
            && (rp < 3 ==> u.c.r == PairLoaded(r, rp, top))
            && (rp == 3 ==> u.c.r == r.(a := top / 256, f := u.c.r.f) && FlagsFrom(u.c.r.f, top % 256))
  {
    hide Peek, FlagsFrom, PairLoaded, Fetches;
  }

  lemma PairReturns(r: Regs, rp: Pair, sp: word)
    requires rp < 3
    ensures PairLoaded(r.(sp := sp).(sp := r.sp), rp, PairOf(r, rp)) == r
  {
  }

  lemma StackReturns(w: World, sp: word, hi: byte, lo: byte)
    requires IsRam(Below(sp, 1)) && IsRam(Below(sp, 2))
    ensures Plus16(Below(sp, 2), 1) == Below(sp, 1) && Plus16(Below(sp, 2), 2) == sp
    ensures Top(Stacked(w, sp, hi, lo), Below(sp, 2)) == 256 * hi + lo
  {
    hide Peek, Poke;
    WhatReads(Poke(w, Below(sp, 1), hi), Below(sp, 2), lo, Below(sp, 2));
    WhatReads(Poke(w, Below(sp, 1), hi), Below(sp, 2), lo, Below(sp, 1));
    WhatReads(w, Below(sp, 1), hi, Below(sp, 1));
    SameChip(w, Below(sp, 1), hi);
  }

  lemma SameChip(w: World, a: word, v: byte)
    ensures Poke(w, a, v).ramSize == w.ramSize
  {
  }

  lemma FlagsReturn(f: Flags, g: Flags)
    requires FlagByte(f) < 256 && FlagsFrom(g, FlagByte(f))
    ensures g == f
  {
    hide BitAt, BitSum;
    var bs := [f.cy, true, f.p, false, f.ac, false, f.z, f.s];
    forall k: nat ensures BitAt(FlagByte(f), k) <==> k < 8 && bs[k] {
      BitsOfBitSum(bs, k);
    }
  }
}
