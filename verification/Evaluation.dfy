// What tools/umkasm.c computes from an operand: values of expressions and numbers, the bytes that
// directives and instructions emit for them, and which operands are refused.
module Evaluation {
  import opened Bits
  import opened Assembler
  import opened AssemblerLaws
  import Listing

  // ---------- expressions ----------

  /** The operators are arithmetic on values; an expression evaluates if its parts do. */
  lemma Operators(x: Expr, y: Expr, t: Table, here: int)
    ensures Eval(Sub(x, y), t, here).0 + Eval(y, t, here).0 == Eval(x, t, here).0
    ensures Eval(Add(x, y), t, here).0 - Eval(y, t, here).0 == Eval(x, t, here).0
    ensures Eval(Neg(x), t, here).0 + Eval(x, t, here).0 == 0
    ensures Eval(Not(x), t, here).0 + Eval(x, t, here).0 == -1
    ensures Eval(Here, t, here) == (here, true)
    ensures Eval(Sub(x, y), t, here).1 <==> Eval(x, t, here).1 && Eval(y, t, here).1
    ensures Eval(Add(x, y), t, here).1 <==> Eval(x, t, here).1 && Eval(y, t, here).1
    ensures Eval(Neg(x), t, here).1 == Eval(Not(x), t, here).1 == Eval(x, t, here).1
  {
  }

  /** A symbol has the value of the first entry under its first 31 characters, and without one none. */
  lemma {:induction false} SymbolIsEntry(name: string, t: Table, here: int, i: nat)
    requires i < |t| && t[i].name == Clip(name) && forall j :: 0 <= j < i ==> t[j].name != Clip(name)
    ensures Eval(Sym(name), t, here) == (t[i].value, true)
    decreases i
  {
    if i > 0 {
      assert Clip(Clip(name)) == Clip(name);
      SymbolIsEntry(Clip(name), t[1..], here, i - 1);
    }
  }

  lemma {:induction false} UnknownSymbol(name: string, t: Table, here: int)
    requires forall j :: 0 <= j < |t| ==> t[j].name != Clip(name)
    ensures Eval(Sym(name), t, here) == (0, false)
  {
    if t != [] {
      assert Clip(Clip(name)) == Clip(name);
      UnknownSymbol(Clip(name), t[1..], here);
    }
  }

  /** Only the first 31 characters of a name count, and all of those. */
  lemma NamesAgree(a: string, b: string)
    ensures |a| <= 31 ==> Clip(a) == a
    ensures |a| >= 31 && |b| >= 31 ==> (Clip(a) == Clip(b) <==> a[..31] == b[..31])
    ensures Clip(a) == Clip(b) ==> forall t: Table, here :: Eval(Sym(a), t, here) == Eval(Sym(b), t, here)
  {
    if |a| >= 31 {
      assert a[..31] == Clip(a);
    }
    if |b| >= 31 {
      assert b[..31] == Clip(b);
    }
  }

  /** Once a pass has settled, a symbol defined as x - y plus the value of y is the value of x. */
  lemma SettledDifference(t: Table, size: nat, prog: seq<Stmt>, i: nat, name: string, x: Expr, y: Expr)
    requires ShortNames(prog) && !Pass(t, prog).changed && |t| < MAX_SYMS && |Pass(t, prog).table| < MAX_SYMS
    requires i < |prog| && prog[i].body == Equ(name, Sub(x, y))
    ensures var here := Lines(Start(t, true, size), Prefix(prog, i)).pc;
            Eval(x, t, here).1 && Eval(y, t, here).1 ==>
              && Lookup(t, name).Some?
              && Lookup(t, name).value + Eval(y, t, here).0 == Eval(x, t, here).0
  {
    hide Lookup, Pass, Lines;
    FixpointIsConsistent(t, size, prog);
    Operators(x, y, t, Lines(Start(t, true, size), Prefix(prog, i)).pc);
  }

  // ---------- numbers ----------

  predicate AllDigits(s: string, base: nat) { forall k :: 0 <= k < |s| ==> DigitOf(s[k]) < base }

  /** The number that digits stand for, from the last one on. */
  function Positional(s: string, base: nat): nat
  {
    if s == "" then 0 else DigitOf(s[|s| - 1]) + base * Positional(s[..|s| - 1], base)
  }

  lemma {:induction false} StrtolAppends(s: string, c: char, base: nat, acc: nat)
    requires AllDigits(s, base) && DigitOf(c) < base
    ensures Strtol(s + [c], base, acc) == Strtol(s, base, acc) * base + DigitOf(c)
    decreases |s|
  {
    hide DigitOf;
    if s == "" {
      assert ("" + [c])[1..] == "";
    } else {
      assert (s + [c])[1..] == s[1..] + [c];
      StrtolAppends(s[1..], c, base, acc * base + DigitOf(s[0]));
    }
  }

  lemma {:induction false} StrtolIsPositional(s: string, base: nat)
    requires AllDigits(s, base)
    ensures Strtol(s, base, 0) == Positional(s, base)
  {
    hide DigitOf;
    if s != "" {
      var n := |s| - 1;
      StrtolIsPositional(s[..n], base);
      StrtolAppends(s[..n], s[n], base, 0);
      assert s[..n] + [s[n]] == s;
    }
  }

  /** Digits and a suffix: H for base 16, B for base 2, D or nothing for base 10. */
  lemma NumbersRead(s: string)
    requires s != ""
    ensures AllDigits(s, 16) ==> Number(s + "H") == Positional(s, 16)
    ensures AllDigits(s, 2) ==> Number(s + "B") == Positional(s, 2)
    ensures AllDigits(s, 10) ==> Number(s) == Number(s + "D") == Positional(s, 10)
  {
    hide Strtol, Positional;
    forall base: nat | AllDigits(s, base) ensures Strtol(s, base, 0) == Positional(s, base) {
      StrtolIsPositional(s, base);
    }
    var n := |s|;
    assert forall c: char :: (s + [c])[n] == c && (s + [c])[..n] == s;
  }

  // ---------- the bytes of data ----------

  function Low(ops: seq<Operand>, t: Table, here: int): seq<byte>
  {
    seq<byte>(|ops|, k requires 0 <= k < |ops| => Eval(ops[k].expr, t, here).0 % 256)
  }

  /** How many of the operands do not evaluate. */
  function Unknowns(ops: seq<Operand>, t: Table, here: int): nat
  {
    if ops == [] then 0 else (if Eval(ops[0].expr, t, here).1 then 0 else 1) + Unknowns(ops[1..], t, here)
  }

  lemma OneByte(s: Asm, v: byte)
    ensures EmitByte(s, v) == EmitAll(s, [v])
  {
    hide EmitByte;
    assert [v][1..] == [];
  }

  /** DB: the values modulo 256, one after another; an operand that does not evaluate is reported. */
  lemma {:induction false} BytesOfDb(s: Asm, ops: seq<Operand>, here: int)
    requires s.emitting && 0 <= s.pc && s.pc + |ops| <= s.size
    ensures var t := EmitBytes(s, ops, here);
            && t == s.(pc := s.pc + |ops|, errors := s.errors + Unknowns(ops, s.table, here), image := t.image)
            && Listing.Placed(s.image, t.image, s.pc, Low(ops, s.table, here))
    decreases |ops|
  {
    hide Eval, EmitAll, EmitByte, Listing.Placed;
    if ops == [] {
      Listing.NothingPlaced(s.image, s.pc);
    } else {
      var (v, ok) := Eval(ops[0].expr, s.table, here);
      var s1 := Complain(s, Fault(!ok));
      var u := EmitByte(s1, LowByte(v));
      OneByte(s1, LowByte(v));
      Listing.EmitPlaces(s1, [LowByte(v)]);
      BytesOfDb(u, ops[1..], here);
      Listing.PlacedTwice(s.image, u.image, EmitBytes(s, ops, here).image, s.pc,
                          [LowByte(v)], Low(ops[1..], s.table, here));
      assert Low(ops, s.table, here) == [LowByte(v)] + Low(ops[1..], s.table, here);
    }
  }

  /** The bytes of words, the low one of each first. */
  function Words(ops: seq<Operand>, t: Table, here: int): seq<byte>
  {
    if ops == [] then [] else WordBytes(Eval(ops[0].expr, t, here).0) + Words(ops[1..], t, here)
  }

  lemma {:induction false} WordAt(ops: seq<Operand>, t: Table, here: int, k: nat)
    ensures |Words(ops, t, here)| == 2 * |ops|
    ensures k < |ops| ==>
              Words(ops, t, here)[2 * k] as int + 256 * Words(ops, t, here)[2 * k + 1] as int
              == Eval(ops[k].expr, t, here).0 % 0x1_0000
  {
    hide Eval;
    if ops != [] {
      WordAt(ops[1..], t, here, if k == 0 then 0 else k - 1);
      var v := Eval(ops[0].expr, t, here).0;
      assert v % 256 + 256 * (v / 256 % 256) == v % 0x1_0000;
    }
  }

  /** DW: the values modulo 65536, two bytes each; reports as for DB. */
  lemma {:induction false} WordsOfDw(s: Asm, ops: seq<Operand>, here: int)
    requires s.emitting && 0 <= s.pc && s.pc + 2 * |ops| <= s.size
    ensures var t := EmitWords(s, ops, here);
            && t == s.(pc := s.pc + 2 * |ops|, errors := s.errors + Unknowns(ops, s.table, here), image := t.image)
            && Listing.Placed(s.image, t.image, s.pc, Words(ops, s.table, here))
    decreases |ops|
  {
    hide Eval, EmitAll, Listing.Placed;
    if ops == [] {
      Listing.NothingPlaced(s.image, s.pc);
    } else {
      var (v, ok) := Eval(ops[0].expr, s.table, here);
      var s1 := Complain(s, Fault(!ok));
      var u := EmitAll(s1, WordBytes(v));
      Listing.EmitPlaces(s1, WordBytes(v));
      WordsOfDw(u, ops[1..], here);
      Listing.PlacedTwice(s.image, u.image, EmitWords(s, ops, here).image, s.pc,
                          WordBytes(v), Words(ops[1..], s.table, here));
    }
  }

  /** Lines emit at the location where they start, and $ is that location. */
  lemma DataLines(s: Asm, ops: seq<Operand>, m: Mnemonic)
    ensures Line(s, Stmt(None, Do(Db, ops))) == EmitBytes(s, ops, s.pc)
    ensures Line(s, Stmt(None, Do(Dw, ops))) == EmitWords(s, ops, s.pc)
    ensures var (bs, faults) := Encode(m, ops, s.table, s.pc);
            Line(s, Stmt(None, Do(Instr(m), ops))) ==
              EmitAll(s.(errors := s.errors + if s.emitting then faults else 0), bs)
  {
    hide Encode, EmitAll, EmitBytes, EmitWords;
  }

  // ---------- operands of instructions ----------

  /** The number that an instruction carries: in its second operand after a register, else in its first. */
  function Carried(m: Mnemonic, ops: seq<Operand>, t: Table, here: int): int
  {
    var k := if Row(m).1 == KMvi || Row(m).1 == KLxi then 1 else 0;
    if k < |ops| then Eval(ops[k].expr, t, here).0 else 0
  }

  /** An instruction emits its operand after the opcode: a byte modulo 256 or a word modulo 65536, low byte first. */
  lemma OperandBytes(m: Mnemonic, ops: seq<Operand>, t: Table, here: int)
    ensures var bs := Encode(m, ops, t, here).0;
            && (|bs| == 2 ==> bs[1] == Carried(m, ops, t, here) % 256)
            && (|bs| == 3 ==> bs[1] as int + 256 * bs[2] as int == Carried(m, ops, t, here) % 0x1_0000)
  {
    hide Eval, Reg8, RegPair, Row;
    var v := Carried(m, ops, t, here);
    assert v % 256 + 256 * (v / 256 % 256) == v % 0x1_0000;
  }

  /** The operand names a register, a pair, or a pair that can be stacked. */
  predicate Names(ops: seq<Operand>, k: nat, regs: set<RegName>) { k < |ops| && ops[k].reg in regs }

  const REGISTERS := {RegA, RegB, RegC, RegD, RegE, RegH, RegL, RegM}
  const PAIRS := {RegB, RegD, RegH, RegSP}
  const STACK_PAIRS := {RegB, RegD, RegH, RegPSW}

  predicate Evaluates(ops: seq<Operand>, k: nat, t: Table, here: int)
  {
    k < |ops| ==> Eval(ops[k].expr, t, here).1
  }

  /** The operands that an instruction takes without a complaint. */
  predicate Takes(m: Mnemonic, ops: seq<Operand>, t: Table, here: int)
  {
    match Row(m).1
    case KNone => true
    case KRst => true
    case KR8d => Names(ops, 0, REGISTERS)
    case KR8s => Names(ops, 0, REGISTERS)
    case KMov => Names(ops, 0, REGISTERS) && Names(ops, 1, REGISTERS)
    case KMvi => Names(ops, 0, REGISTERS) && Evaluates(ops, 1, t, here)
    case KLxi => Names(ops, 0, PAIRS) && Evaluates(ops, 1, t, here)
    case KRp => Names(ops, 0, PAIRS)
    case KStk => Names(ops, 0, STACK_PAIRS)
    case KAx => Names(ops, 0, {RegB, RegD})
    case KImm8 => Evaluates(ops, 0, t, here)
    case KAddr => Evaluates(ops, 0, t, here)
    case KPort => Evaluates(ops, 0, t, here)
  }

  lemma RegistersNamed(ops: seq<Operand>, k: nat)
    ensures Reg8(ops, k).Some? <==> Names(ops, k, REGISTERS)
  {
  }

  lemma PairsNamed(ops: seq<Operand>)
    ensures RegPair(ops, false).Some? <==> Names(ops, 0, PAIRS)
    ensures RegPair(ops, true).Some? <==> Names(ops, 0, STACK_PAIRS)
    ensures RegPair(ops, false) == Some(0) || RegPair(ops, false) == Some(1) <==> Names(ops, 0, {RegB, RegD})
  {
  }

  /** An instruction is reported exactly if its operands are not the ones it takes. */
  lemma ReportsMisfits(m: Mnemonic, ops: seq<Operand>, t: Table, here: int)
    ensures Encode(m, ops, t, here).1 == 0 <==> Takes(m, ops, t, here)
  {
    hide Eval, Reg8, RegPair, Names, Row;
    RegistersNamed(ops, 0);
    RegistersNamed(ops, 1);
    PairsNamed(ops);
  }

  // ---------- directives ----------

  /** ORG moves to its value if it evaluates, DS skips as many bytes, and neither emits; an unknown word is reported. */
  lemma Directives(s: Asm, e: Expr, ops: seq<Operand>)
    ensures var (v, ok) := Eval(e, s.table, s.pc);
            && Line(s, Stmt(None, Do(Org, [Operand(NoReg, e)]))) == (if ok then s.(pc := v) else s)
            && Line(s, Stmt(None, Do(Ds, [Operand(NoReg, e)]))) == s.(pc := s.pc + v)
    ensures Line(s, Stmt(None, Do(End, ops))) == s
    ensures Line(s, Stmt(None, Do(Unknown, ops))) == s.(errors := s.errors + if s.emitting then 1 else 0)
  {
    hide Eval;
  }

  /** A byte outside the image is reported and not written; the location moves on all the same. */
  lemma OutsideIsReported(s: Asm, v: byte)
    requires s.emitting && !(0 <= s.pc < s.size)
    ensures EmitByte(s, v) == s.(pc := s.pc + 1, errors := s.errors + 1)
  {
  }
}
