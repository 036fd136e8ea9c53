// Sweeping a whole image with the disassembler and assembling the listing: the bytes that come
// back, and the numbers that do not because their hexadecimal text starts with a letter.
module Listing {
  import opened Bits
  import opened A = Assembler
  import opened Disassembler
  import opened RoundTrip
  import opened AssemblerLaws
  import Isa
  import IsaTables

  // ---------- the sweep ----------

  lemma LengthIsPositive(op: byte)
    ensures 1 <= Isa.Length(op) <= 3
  {
    IsaTables.TablesAgree(op);
  }

  /** The lines printed from offset `pc` to the end of the image. */
  function Sweep(mem: seq<byte>, pc: nat): seq<Text>
    decreases |mem| - pc
  {
    if pc >= |mem| then []
    else
      LengthIsPositive(mem[pc]);
      DisassemblerNamesInstruction(mem[pc], At(mem, pc + 1), At(mem, pc + 2));
      [DecodeAt(mem, pc).value] + Sweep(mem, pc + Isa.Length(mem[pc]))
  }

  /** Where the sweep stops: beyond the end when the last instruction is truncated. */
  function Stop(mem: seq<byte>, pc: nat): nat
    decreases |mem| - pc
  {
    if pc >= |mem| then pc
    else
      LengthIsPositive(mem[pc]);
      Stop(mem, pc + Isa.Length(mem[pc]))
  }

  /** The operand bytes of the instruction at `pc`. */
  function Operands(mem: seq<byte>, pc: nat): seq<byte>
    requires pc < |mem|
  {
    RoundTrip.OperandBytes(Isa.Decode(mem[pc]), At(mem, pc + 1), At(mem, pc + 2))
  }

  /** The image with every swept opcode replaced by its documented equivalent. */
  function Canonical(mem: seq<byte>, pc: nat): seq<byte>
    decreases |mem| - pc
  {
    if pc >= |mem| then []
    else
      LengthIsPositive(mem[pc]);
      [Canon(mem[pc])] + Operands(mem, pc) + Canonical(mem, pc + Isa.Length(mem[pc]))
  }

  /** No opcode that the sweep meets is one of the twelve alternatives. */
  predicate AllDocumented(mem: seq<byte>, pc: nat)
    decreases |mem| - pc
  {
    pc >= |mem| ||
    (LengthIsPositive(mem[pc]);
     !Undocumented(mem[pc]) && AllDocumented(mem, pc + Isa.Length(mem[pc])))
  }

  lemma {:induction false} StopIsAhead(mem: seq<byte>, pc: nat)
    ensures pc <= Stop(mem, pc)
    ensures pc < |mem| ==> |mem| <= Stop(mem, pc) <= |mem| + 2
    decreases |mem| - pc
  {
    if pc < |mem| {
      LengthIsPositive(mem[pc]);
      StopIsAhead(mem, pc + Isa.Length(mem[pc]));
    }
  }

  lemma OperandLength(mem: seq<byte>, pc: nat)
    requires pc < |mem|
    ensures |Operands(mem, pc)| == Isa.Length(mem[pc]) - 1
    ensures forall k :: 0 <= k < |Operands(mem, pc)| ==> Operands(mem, pc)[k] == At(mem, pc + 1 + k)
  {
    IsaTables.TablesAgree(mem[pc]);
  }

  lemma {:induction false} CanonicalLength(mem: seq<byte>, pc: nat)
    ensures |Canonical(mem, pc)| == Stop(mem, pc) - pc
    decreases |mem| - pc
  {
    if pc < |mem| {
      LengthIsPositive(mem[pc]);
      OperandLength(mem, pc);
      CanonicalLength(mem, pc + Isa.Length(mem[pc]));
    }
  }

  lemma SplitEqual(c: byte, ops: seq<byte>, rest: seq<byte>, m: byte, mid: seq<byte>, tail: seq<byte>)
    requires |ops| == |mid|
    ensures [c] + ops + rest == [m] + mid + tail <==> c == m && ops == mid && rest == tail
  {
    var l, r := [c] + ops + rest, [m] + mid + tail;
    if l == r {
      assert l[0] == c && r[0] == m;
      assert l[1..1 + |ops|] == ops && r[1..1 + |ops|] == mid;
      assert l[1 + |ops|..] == rest && r[1 + |ops|..] == tail;
    }
  }

  lemma ImageSplits(mem: seq<byte>, pc: nat, n: nat)
    requires 1 <= n && pc + n <= |mem| && n == Isa.Length(mem[pc])
    ensures mem[pc..] == [mem[pc]] + mem[pc + 1..pc + n] + mem[pc + n..]
    ensures Operands(mem, pc) == mem[pc + 1..pc + n]
  {
    hide Isa.Length, Operands;
    OperandLength(mem, pc);
  }

  lemma CanonicalUnfolds(mem: seq<byte>, pc: nat)
    requires pc < |mem| && pc + Isa.Length(mem[pc]) <= |mem|
    ensures Canonical(mem, pc) == [Canon(mem[pc])] + Operands(mem, pc) + Canonical(mem, pc + Isa.Length(mem[pc]))
  {
    hide Isa.Length, Canon, Operands;
  }

  lemma CanonicalStep(mem: seq<byte>, pc: nat, n: nat)
    requires 1 <= n && pc + n <= |mem| && n == Isa.Length(mem[pc])
    ensures Canonical(mem, pc) == mem[pc..] <==>
            Canon(mem[pc]) == mem[pc] && Canonical(mem, pc + n) == mem[pc + n..]
  {
    hide Isa.Length, Canon, Operands, Canonical;
    CanonicalUnfolds(mem, pc);
    ImageSplits(mem, pc, n);
    SplitEqual(Canon(mem[pc]), Operands(mem, pc), Canonical(mem, pc + n),
               mem[pc], mem[pc + 1..pc + n], mem[pc + n..]);
  }

  /** The canonical image is the image itself exactly if nothing is truncated and nothing undocumented. */
  lemma {:induction false} CanonicalIsImage(mem: seq<byte>, pc: nat)
    requires pc <= |mem|
    ensures Canonical(mem, pc) == mem[pc..] <==> Stop(mem, pc) == |mem| && AllDocumented(mem, pc)
    decreases |mem| - pc
  {
    CanonicalLength(mem, pc);
    hide Isa.Length, Canon, Undocumented, Canonical;
    if pc < |mem| {
      var n := Isa.Length(mem[pc]);
      LengthIsPositive(mem[pc]);
      DocumentedIsCanon(mem[pc]);
      StopIsAhead(mem, pc + n);
      if pc + n <= |mem| {
        CanonicalIsImage(mem, pc + n);
        CanonicalStep(mem, pc, n);
      }
    } else {
      CanonicalAtEnd(mem);
    }
  }

  lemma CanonicalAtEnd(mem: seq<byte>)
    ensures Canonical(mem, |mem|) == [] == mem[|mem|..]
  {
  }

  // ---------- reading the printed numbers ----------

  /** An operand as the assembler reads its text. */
  function ByText(a: Arg): Operand
  {
    match a
    case Reg(r) => Operand(r, Bad)
    case _ => Operand(NoReg, Factor(Printed(a)))
  }

  /** The operands of a line: from their printed texts, or with the numbers understood. */
  function Read(args: seq<Arg>, printed: bool): seq<Operand>
  {
    seq(|args|, k requires 0 <= k < |args| => if printed then ByText(args[k]) else ByValue(args[k]))
  }

  /** The printed number starts with a decimal digit. */
  predicate Leads(a: Arg)
  {
    match a
    case Hex2(b) => b < 0xA0
    case Hex4(w) => w < 0xA000
    case _ => true
  }

  lemma DigitReads(d: nat)
    requires d < 16
    ensures DigitOf(HexDigit(d)) == d
    ensures '0' <= HexDigit(d) <= '9' <==> d < 10
    ensures d >= 10 ==> 'A' <= HexDigit(d) <= 'Z'
  {
  }

  lemma NumberReads2(b: byte)
    ensures Strtol(Printed(Hex2(b))[..2], 16, 0) == b
  {
    var s := Printed(Hex2(b))[..2];
    DigitReads(b / 16);
    DigitReads(b % 16);
    hide HexDigit, DigitOf;
    assert Strtol(s, 16, 0) == Strtol(s[1..], 16, b / 16) == Strtol(s[1..][1..], 16, b / 16 * 16 + b % 16);
  }

  lemma FourDigits(w: word)
    ensures w / 0x1000 * 16 + w / 0x100 % 16 == w / 0x100
    ensures w / 0x100 * 16 + w / 16 % 16 == w / 16
    ensures w / 16 * 16 + w % 16 == w
  {
  }

  lemma NumberReads4(w: word)
    ensures Strtol(Printed(Hex4(w))[..4], 16, 0) == w
  {
    var s := Printed(Hex4(w))[..4];
    FourDigits(w);
    var a, b, c, d := w / 0x1000, w / 0x100 % 16, w / 16 % 16, w % 16;
    assert s == [HexDigit(a), HexDigit(b), HexDigit(c), HexDigit(d)];
    FourRead(a, b, c, d);
  }

  lemma FourRead(a: nat, b: nat, c: nat, d: nat)
    requires a < 16 && b < 16 && c < 16 && d < 16
    ensures Strtol([HexDigit(a), HexDigit(b), HexDigit(c), HexDigit(d)], 16, 0) == ((a * 16 + b) * 16 + c) * 16 + d
  {
    DigitReads(a);
    DigitReads(b);
    DigitReads(c);
    DigitReads(d);
    hide HexDigit, DigitOf;
    var s := [HexDigit(a), HexDigit(b), HexDigit(c), HexDigit(d)];
    assert s[1..] == [HexDigit(b), HexDigit(c), HexDigit(d)];
    assert s[1..][1..] == [HexDigit(c), HexDigit(d)];
    assert s[1..][1..][1..] == [HexDigit(d)];
    assert Strtol(s, 16, 0) == Strtol(s[1..], 16, a);
    assert Strtol(s[1..], 16, a) == Strtol(s[1..][1..], 16, a * 16 + b);
    assert Strtol(s[1..][1..], 16, a * 16 + b) == Strtol([HexDigit(d)], 16, (a * 16 + b) * 16 + c);
  }

  /** A printed number is read back exactly if it starts with a decimal digit; otherwise it is a symbol. */
  lemma PrintedReads(a: Arg)
    requires !a.Reg?
    ensures Leads(a) ==> ByText(a) == ByValue(a)
    ensures !Leads(a) ==> ByText(a) == Operand(NoReg, Sym(Printed(a)))
  {
    match a {
      case Hex2(b) =>
        NumberReads2(b);
        DigitReads(b / 16);
        assert Printed(a)[2] == 'H';
      case Hex4(w) =>
        NumberReads4(w);
        DigitReads(w / 0x1000);
        assert Printed(a)[4] == 'H';
      case Dec(n) =>
        DigitReads(n);
        assert Strtol(Printed(a), 10, 0) == Strtol(Printed(a)[1..], 10, n);
    }
  }

  // ---------- assembling the listing ----------

  /** The bytes and the complaints of a listing, line after line. */
  function Assembled(lines: seq<Text>, printed: bool): (seq<byte>, nat)
  {
    if lines == [] then ([], 0)
    else
      var (bs, faults) := Encode(lines[0].m, Read(lines[0].args, printed), [], 0);
      var (rest, more) := Assembled(lines[1..], printed);
      (bs + rest, faults + more)
  }

  /** With its numbers understood, a swept image comes back as its canonical form. */
  lemma {:induction false} SweepRoundTrip(mem: seq<byte>, pc: nat)
    ensures Assembled(Sweep(mem, pc), false) == (Canonical(mem, pc), 0)
    decreases |mem| - pc
  {
    hide Encode, Isa.Length, Isa.Decode, Canon, Decode, Documented, ByValue, Render;
    if pc < |mem| {
      var op := mem[pc];
      var b1, b2 := At(mem, pc + 1), At(mem, pc + 2);
      LengthIsPositive(op);
      DisassemblerNamesInstruction(op, b1, b2);
      DocumentedIsCanon(op);
      IndirectPairs(op);
      InvertsInstruction(Isa.Decode(op), b1, b2, 0);
      SweepRoundTrip(mem, pc + Isa.Length(op));
      var line := DecodeAt(mem, pc).value;
      assert line == Render(Isa.Decode(op), b1, b2);
      assert Read(line.args, false) == Values(line.args);
      assert Sweep(mem, pc)[1..] == Sweep(mem, pc + Isa.Length(op));
      assert Encode(line.m, Values(line.args), [], 0).0 == [Canon(op)] + Operands(mem, pc);
    }
  }

  lemma IndirectPairs(op: byte)
    ensures Isa.Decode(op).Stax? || Isa.Decode(op).Ldax? ==> Isa.Decode(op).rp < 2
  {
  }

  predicate LineLeads(t: Text)
  {
    forall k :: 0 <= k < |t.args| ==> Leads(t.args[k])
  }

  predicate AllLead(lines: seq<Text>)
  {
    forall k :: 0 <= k < |lines| ==> LineLeads(lines[k])
  }

  lemma ReadsTheSame(line: Text)
    requires LineLeads(line)
    ensures Read(line.args, true) == Read(line.args, false)
  {
    forall k | 0 <= k < |line.args| ensures Read(line.args, true)[k] == Read(line.args, false)[k] {
      if !line.args[k].Reg? {
        PrintedReads(line.args[k]);
      }
    }
  }

  lemma UnknownWithoutSymbols(a: Arg, here: int)
    requires !Leads(a)
    ensures !Eval(ByText(a).expr, [], here).1
  {
    PrintedReads(a);
  }

  /** The instructions that carry a number, by what the encoder checks. */
  lemma UnreadableIsReported(i: Isa.Instr, b1: byte, b2: byte)
    ensures !LineLeads(Render(i, b1, b2)) ==>
              Encode(Render(i, b1, b2).m, Read(Render(i, b1, b2).args, true), [], 0).1 > 0
  {
    var t := Render(i, b1, b2);
    if k :| 0 <= k < |t.args| && !Leads(t.args[k]) {
      UnknownWithoutSymbols(t.args[k], 0);
      NumberIsChecked(i, b1, b2, k);
      hide Encode, Render, ByText, Leads;
      CheckedIsReported(t, k);
    }
  }

  /** Operand k is a number the encoder evaluates and reports. */
  predicate Checked(m: Mnemonic, k: nat)
  {
    var kind := Row(m).1;
    if k == 0 then kind == KImm8 || kind == KAddr || kind == KPort else k == 1 && (kind == KMvi || kind == KLxi)
  }

  lemma CheckedIsReported(t: Text, k: nat)
    requires k < |t.args| && Checked(t.m, k) && !Eval(ByText(t.args[k]).expr, [], 0).1
    ensures Encode(t.m, Read(t.args, true), [], 0).1 > 0
  {
    hide Row, Eval, ByText, Reg8, RegPair;
  }

  lemma NumberIsChecked(i: Isa.Instr, b1: byte, b2: byte, k: nat)
    requires k < |Render(i, b1, b2).args| && !Leads(Render(i, b1, b2).args[k])
    ensures Checked(Render(i, b1, b2).m, k)
  {
    hide R8, PairName, StackName, Row, JumpCC, CallCC, ALUI;
    CarrierRows();
    match i
    case Jcc(c) => JumpRow(c);
    case Ccc(c) => CallRow(c);
    case AluImm(c) => ImmediateRow(c);
    case _ =>
  }

  lemma CarrierRows()
    ensures Row(MVI).1 == KMvi && Row(LXI).1 == KLxi && Row(IN).1 == KPort && Row(OUT).1 == KPort
    ensures Row(JMP).1 == KAddr && Row(CALL).1 == KAddr && Row(LDA).1 == KAddr && Row(STA).1 == KAddr
    ensures Row(LHLD).1 == KAddr && Row(SHLD).1 == KAddr
  {
    hide Row;
    ByteRows();
    PortRows();
    BranchRows();
    AccumulatorRows();
    PairRows();
  }

  lemma ByteRows()
    ensures Row(MVI).1 == KMvi && Row(LXI).1 == KLxi
  {
  }

  lemma BranchRows()
    ensures Row(JMP).1 == KAddr && Row(CALL).1 == KAddr
  {
  }

  lemma AccumulatorRows()
    ensures Row(LDA).1 == KAddr && Row(STA).1 == KAddr
  {
  }

  lemma PairRows()
    ensures Row(LHLD).1 == KAddr && Row(SHLD).1 == KAddr
  {
  }

  /** The sweep is its first line and the sweep from the next. */
  lemma SweepParts(mem: seq<byte>, pc: nat)
    requires pc < |mem|
    ensures 0 < Isa.Length(mem[pc])
    ensures var line := Render(Isa.Decode(mem[pc]), At(mem, pc + 1), At(mem, pc + 2));
            Sweep(mem, pc) == [line] + Sweep(mem, pc + Isa.Length(mem[pc]))
  {
    hide Isa.Length, Isa.Decode, Decode, Render;
    LengthIsPositive(mem[pc]);
    DisassemblerNamesInstruction(mem[pc], At(mem, pc + 1), At(mem, pc + 2));
  }

  lemma AssembledParts(line: Text, rest: seq<Text>, printed: bool)
    ensures var (bs, faults) := Encode(line.m, Read(line.args, printed), [], 0);
            var (more, others) := Assembled(rest, printed);
            Assembled([line] + rest, printed) == (bs + more, faults + others)
  {
    hide Encode, Read;
    assert ([line] + rest)[1..] == rest;
  }

  /**
   * As printed, a listing assembles without complaint exactly if each of its numbers starts with a
   * decimal digit; then, too, the canonical image comes back.
   */
  lemma {:induction false} PrintedRoundTrip(mem: seq<byte>, pc: nat)
    ensures Assembled(Sweep(mem, pc), true).1 == 0 <==> AllLead(Sweep(mem, pc))
    ensures AllLead(Sweep(mem, pc)) ==> Assembled(Sweep(mem, pc), true) == (Canonical(mem, pc), 0)
    decreases |mem| - pc
  {
    hide Encode, Isa.Length, Isa.Decode, Canonical, Render, Read, Assembled, Sweep, AllLead, LineLeads, At;
    if pc < |mem| {
      var next := pc + Isa.Length(mem[pc]);
      var line := Render(Isa.Decode(mem[pc]), At(mem, pc + 1), At(mem, pc + 2));
      SweepParts(mem, pc);
      SweepRoundTrip(mem, pc);
      SweepRoundTrip(mem, next);
      PrintedRoundTrip(mem, next);
      UnreadableIsReported(Isa.Decode(mem[pc]), At(mem, pc + 1), At(mem, pc + 2));
      AssembledParts(line, Sweep(mem, next), true);
      AssembledParts(line, Sweep(mem, next), false);
      if LineLeads(line) {
        ReadsTheSame(line);
      }
      AllLeadSplits(line, Sweep(mem, next));
    } else {
      NothingSwept(mem, pc);
    }
  }

  lemma NothingSwept(mem: seq<byte>, pc: nat)
    requires pc >= |mem|
    ensures Sweep(mem, pc) == [] && Canonical(mem, pc) == [] && AllLead([]) && Assembled([], true) == ([], 0)
  {
  }

  lemma AllLeadSplits(line: Text, rest: seq<Text>)
    ensures AllLead([line] + rest) <==> LineLeads(line) && AllLead(rest)
  {
    hide LineLeads;
    var all := [line] + rest;
    if AllLead(all) {
      assert LineLeads(all[0]);
      forall k | 0 <= k < |rest| ensures LineLeads(rest[k]) {
        assert LineLeads(all[k + 1]);
      }
    }
  }

  // ---------- through a pass of the assembler ----------

  /** The listing as source lines: no labels, one instruction each. */
  function Source(lines: seq<Text>, printed: bool): seq<Stmt>
  {
    seq(|lines|, k requires 0 <= k < |lines| => Stmt(None, Do(A.Instr(lines[k].m), Read(lines[k].args, printed))))
  }

  /** Operands read from a listing do not depend on the location. */
  lemma ReadIsHereFree(args: seq<Arg>, printed: bool, m: Mnemonic, t: Table, here: int)
    ensures Encode(m, Read(args, printed), t, here) == Encode(m, Read(args, printed), t, 0)
  {
    var ops := Read(args, printed);
    forall k | 0 <= k < |ops| ensures Eval(ops[k].expr, t, here) == Eval(ops[k].expr, t, 0) {
      if printed && !args[k].Reg? {
        PrintedReads(args[k]);
      }
    }
    hide Read, Eval, EncodeWith;
    assert Value(ops, 0, t, here) == Value(ops, 0, t, 0) && Value(ops, 1, t, here) == Value(ops, 1, t, 0);
  }

  lemma {:induction false} LinesHead(s: Asm, st: Stmt, rest: seq<Stmt>)
    ensures Lines(s, [st] + rest) == Lines(Line(s, st), rest)
  {
    hide Line;
    var all := [st] + rest;
    if rest == [] {
      assert all[..0] == [] && Lines(s, all[..0]) == s;
    } else {
      var n := |rest| - 1;
      assert all[..|all| - 1] == [st] + rest[..n];
      LinesHead(s, st, rest[..n]);
    }
  }

  /** The image has the bytes at the address, and is otherwise what it was. */
  ghost predicate Placed(before: map<int, byte>, after: map<int, byte>, at: int, bs: seq<byte>)
  {
    && (forall x :: at <= x < at + |bs| ==> x in after && after[x] == bs[x - at])
    && (forall x :: !(at <= x < at + |bs|) ==> (x in after <==> x in before) && (x in before ==> after[x] == before[x]))
  }

  lemma {:induction false} EmitPlaces(s: Asm, bs: seq<byte>)
    requires s.emitting && 0 <= s.pc && s.pc + |bs| <= s.size
    ensures var t := EmitAll(s, bs);
            t == s.(pc := s.pc + |bs|, image := t.image) && Placed(s.image, t.image, s.pc, bs)
    decreases |bs|
  {
    if bs != [] {
      EmitPlaces(EmitByte(s, bs[0]), bs[1..]);
    }
  }

  lemma PlacedTwice(a: map<int, byte>, b: map<int, byte>, c: map<int, byte>, at: int, xs: seq<byte>, ys: seq<byte>)
    requires Placed(a, b, at, xs) && Placed(b, c, at + |xs|, ys)
    ensures Placed(a, c, at, xs + ys)
  {
  }

  /** The emitting pass over a listing writes its bytes in order and reports its complaints. */
  lemma {:induction false} ListingIsEmitted(s: Asm, lines: seq<Text>, printed: bool)
    requires s.emitting && s.table == [] && 0 <= s.pc && s.pc + |Assembled(lines, printed).0| <= s.size
    ensures var t := Lines(s, Source(lines, printed));
            var (bs, faults) := Assembled(lines, printed);
            && t == s.(pc := s.pc + |bs|, errors := s.errors + faults, image := t.image)
            && Placed(s.image, t.image, s.pc, bs)
    decreases |lines|
  {
    hide Encode, Read, EmitAll, Placed;
    if lines == [] {
      NothingPlaced(s.image, s.pc);
    } else {
      var st := Source(lines, printed)[0];
      ReadIsHereFree(lines[0].args, printed, lines[0].m, [], s.pc);
      var (bs, faults) := Encode(lines[0].m, Read(lines[0].args, printed), [], 0);
      var s1 := s.(errors := s.errors + faults);
      EmitPlaces(s1, bs);
      var s2 := Line(s, st);
      assert s2 == EmitAll(s1, bs);
      assert Source(lines, printed) == [st] + Source(lines[1..], printed);
      LinesHead(s, st, Source(lines[1..], printed));
      ListingIsEmitted(s2, lines[1..], printed);
      var (rest, more) := Assembled(lines[1..], printed);
      PlacedTwice(s.image, s2.image, Lines(s2, Source(lines[1..], printed)).image, s.pc, bs, rest);
    }
  }

  lemma NothingPlaced(m: map<int, byte>, at: int)
    ensures Placed(m, m, at, [])
  {
  }

  // ---------- the whole file ----------

  /** What umkdis --asm prints: the ORG line, a blank line and the instructions. */
  function File(mem: seq<byte>, org: word, printed: bool): seq<Stmt>
  {
    [Stmt(None, Do(Org, Read([Hex4(org)], printed))), Stmt(None, Nothing)] + Source(Sweep(mem, 0), printed)
  }

  const HEADER_LINES := 2

  /** How many of the instructions the assembler reads. */
  function Lasting(lines: seq<Text>): nat
  {
    if HEADER_LINES + |lines| > MAX_LINES then MAX_LINES - HEADER_LINES else |lines|
  }

  lemma FileIsRead(mem: seq<byte>, org: word, printed: bool)
    ensures var lines := Sweep(mem, 0);
            FirstLines(File(mem, org, printed)) ==
              File(mem, org, printed)[..HEADER_LINES] + Source(lines[..Lasting(lines)], printed)
  {
    hide Sweep, Read;
  }

  /** Where the ORG line leaves the location counter: an origin above 9FFFH is taken for a symbol. */
  function Origin(org: word, printed: bool): word { if printed && org >= 0xA000 then 0 else org }

  lemma HeaderRuns(s: Asm, mem: seq<byte>, org: word, printed: bool, rest: seq<Stmt>)
    requires s.table == [] && s.pc == 0
    ensures Lines(s, File(mem, org, printed)[..HEADER_LINES] + rest) == Lines(s.(pc := Origin(org, printed)), rest)
  {
    hide Read, Source, Sweep, Line;
    var head := File(mem, org, printed)[..HEADER_LINES];
    var first := Stmt(None, Do(Org, Read([Hex4(org)], printed)));
    var blank := Stmt(None, Nothing);
    OriginLine(s, org, printed);
    BlankLine(s.(pc := Origin(org, printed)));
    assert head + rest == [first] + ([blank] + rest);
    LinesHead(s, first, [blank] + rest);
    LinesHead(Line(s, first), blank, rest);
  }

  lemma OriginLine(s: Asm, org: word, printed: bool)
    requires s.table == [] && s.pc == 0
    ensures Line(s, Stmt(None, Do(Org, Read([Hex4(org)], printed)))) == s.(pc := Origin(org, printed))
  {
    PrintedReads(Hex4(org));
    hide ByText, Encode;
  }

  lemma BlankLine(s: Asm)
    ensures Line(s, Stmt(None, Nothing)) == s
  {
  }

  // ---------- how long the bytes are ----------

  lemma {:induction false} AssembledSplits(a: seq<Text>, b: seq<Text>, printed: bool)
    ensures Assembled(a + b, printed).0 == Assembled(a, printed).0 + Assembled(b, printed).0
    ensures Assembled(a + b, printed).1 == Assembled(a, printed).1 + Assembled(b, printed).1
  {
    hide Encode, Read;
    if a == [] {
      assert a + b == b;
    } else {
      assert (a + b)[1..] == a[1..] + b;
      AssembledSplits(a[1..], b, printed);
    }
  }

  /** One to three bytes a line, however its numbers are read. */
  lemma {:induction false} AssembledLength(lines: seq<Text>, printed: bool)
    ensures |lines| <= |Assembled(lines, printed).0| <= 3 * |lines|
    ensures |Assembled(lines, printed).0| == |Assembled(lines, false).0|
  {
    hide Encode, Read;
    if lines != [] {
      AssembledLength(lines[1..], printed);
      EncodeSize(lines[0].m, Read(lines[0].args, printed), [], 0);
      EncodeSize(lines[0].m, Read(lines[0].args, false), [], 0);
    }
  }

  /** What the assembler reads of a file takes as many bytes as the canonical image, or fewer. */
  lemma ReadLength(mem: seq<byte>, printed: bool)
    ensures var lines := Sweep(mem, 0);
            var n := |Assembled(lines[..Lasting(lines)], printed).0|;
            && n <= |Canonical(mem, 0)| && n <= 3 * (MAX_LINES - HEADER_LINES)
            && (n == |Canonical(mem, 0)| <==> Lasting(lines) == |lines|)
  {
    hide Canonical, Sweep, Assembled;
    var lines := Sweep(mem, 0);
    var m := Lasting(lines);
    SweepRoundTrip(mem, 0);
    AssembledSplits(lines[..m], lines[m..], printed);
    assert lines[..m] + lines[m..] == lines;
    AssembledLength(lines, printed);
    AssembledLength(lines[..m], printed);
    AssembledLength(lines[m..], printed);
  }

  // ---------- nothing is written outside the image ----------

  ghost predicate Inside(s: Asm) { forall x :: x in s.image ==> 0 <= x < s.size }

  lemma {:induction false} EmitAllInside(s: Asm, bs: seq<byte>)
    requires Inside(s)
    ensures Inside(EmitAll(s, bs)) && EmitAll(s, bs).size == s.size
    decreases |bs|
  {
    if bs != [] {
      EmitAllInside(EmitByte(s, bs[0]), bs[1..]);
    }
  }

  lemma {:induction false} SourceInside(s: Asm, lines: seq<Text>, printed: bool)
    requires Inside(s)
    ensures Inside(Lines(s, Source(lines, printed))) && Lines(s, Source(lines, printed)).size == s.size
  {
    hide Encode, Read, EmitAll;
    if lines != [] {
      var n := |lines| - 1;
      SourceInside(s, lines[..n], printed);
      assert Source(lines, printed)[..n] == Source(lines[..n], printed);
      var u := Lines(s, Source(lines[..n], printed));
      var (bs, faults) := Encode(lines[n].m, Read(lines[n].args, printed), u.table, u.pc);
      EmitAllInside(Complain(u, faults), bs);
    }
  }

  // ---------- the round trip ----------

  /** The emitting pass over what is read of the file. */
  function Emission(mem: seq<byte>, org: word, size: nat, printed: bool): Asm
  {
    Lines(Start([], true, size), FirstLines(File(mem, org, printed)))
  }

  /** No errors, and every byte written in its place. */
  ghost predicate Restores(t: Asm, org: word, bytes: seq<byte>)
  {
    t.errors == 0 && forall k :: 0 <= k < |bytes| ==> Holds(t, org + k, bytes[k])
  }

  predicate Holds(t: Asm, x: int, b: byte) { x in t.image && t.image[x] == b }

  /** Printed or understood, the numbers of the listing and of its ORG line are read as numbers. */
  predicate Legible(mem: seq<byte>, org: word, printed: bool)
  {
    printed ==> org < 0xA000 && AllLead(Sweep(mem, 0))
  }

  /** The emitting pass, when the bytes fit: where they go and what is reported. */
  lemma FileIsEmitted(mem: seq<byte>, org: word, size: nat, printed: bool)
    requires org + |Canonical(mem, 0)| <= size
    ensures var lines := Sweep(mem, 0);
            var (bs, faults) := Assembled(lines[..Lasting(lines)], printed);
            var t := Emission(mem, org, size, printed);
            && t.errors == faults && t.pc == Origin(org, printed) + |bs|
            && Placed(map[], t.image, Origin(org, printed), bs)
  {
    hide Sweep, Canonical, Assembled, Lines, Read;
    var lines := Sweep(mem, 0);
    var kept := lines[..Lasting(lines)];
    var s := Start([], true, size);
    FileIsRead(mem, org, printed);
    HeaderRuns(s, mem, org, printed, Source(kept, printed));
    ReadLength(mem, printed);
    ListingIsEmitted(s.(pc := Origin(org, printed)), kept, printed);
  }

  /** Bytes that do not fit are not written. */
  lemma FileStaysInside(mem: seq<byte>, org: word, size: nat, printed: bool)
    ensures Inside(Emission(mem, org, size, printed)) && Emission(mem, org, size, printed).size == size
  {
    hide Sweep, Lines, Read;
    var lines := Sweep(mem, 0);
    var kept := lines[..Lasting(lines)];
    var s := Start([], true, size);
    FileIsRead(mem, org, printed);
    HeaderRuns(s, mem, org, printed, Source(kept, printed));
    SourceInside(s.(pc := Origin(org, printed)), kept, printed);
  }

  /**
   * Whole-file round trip. What umkdis --asm prints for an image assembles without an error to the
   * canonical image at the origin exactly if the image fits, the assembler reads every line, and, when
   * the numbers are read from their texts, the origin and all of them start with a decimal digit.
   */
  lemma FileComesBack(mem: seq<byte>, org: word, size: nat, printed: bool)
    requires mem != []
    ensures Restores(Emission(mem, org, size, printed), org, Canonical(mem, 0)) <==>
            && org + |Canonical(mem, 0)| <= size && HEADER_LINES + |Sweep(mem, 0)| <= MAX_LINES
            && Legible(mem, org, printed)
  {
    hide Sweep, Canonical, Emission, AllLead, Holds;
    var all := Canonical(mem, 0);
    CanonicalLength(mem, 0);
    StopIsAhead(mem, 0);
    if org + |all| > size {
      FileStaysInside(mem, org, size, printed);
      NotHeld(Emission(mem, org, size, printed), org, all);
    } else if HEADER_LINES + |Sweep(mem, 0)| > MAX_LINES || Origin(org, printed) != org {
      LastIsLost(mem, org, size, printed);
      NotHeld(Emission(mem, org, size, printed), org, all);
    } else {
      AllIsRead(mem, org, size, printed);
    }
  }

  lemma NotHeld(t: Asm, org: word, bytes: seq<byte>)
    requires bytes != [] && org + |bytes| - 1 !in t.image
    ensures !Restores(t, org, bytes)
  {
    assert !Holds(t, org + (|bytes| - 1), bytes[|bytes| - 1]);
  }

  /** Too many lines, or an origin that is not read: the last byte is not written where it belongs. */
  lemma LastIsLost(mem: seq<byte>, org: word, size: nat, printed: bool)
    requires mem != [] && org + |Canonical(mem, 0)| <= size
    requires HEADER_LINES + |Sweep(mem, 0)| > MAX_LINES || Origin(org, printed) != org
    ensures org + |Canonical(mem, 0)| - 1 !in Emission(mem, org, size, printed).image
  {
    hide Sweep, Canonical, Assembled, Emission;
    FileIsEmitted(mem, org, size, printed);
    ReadLength(mem, printed);
    CanonicalLength(mem, 0);
    StopIsAhead(mem, 0);
  }

  /** Every line read, and at the origin: only unread numbers can spoil it. */
  lemma AllIsRead(mem: seq<byte>, org: word, size: nat, printed: bool)
    requires org + |Canonical(mem, 0)| <= size
    requires HEADER_LINES + |Sweep(mem, 0)| <= MAX_LINES && Origin(org, printed) == org
    ensures Restores(Emission(mem, org, size, printed), org, Canonical(mem, 0)) <==>
            (printed ==> AllLead(Sweep(mem, 0)))
  {
    hide Sweep, Canonical, Assembled, Emission, AllLead;
    FileIsEmitted(mem, org, size, printed);
    var lines := Sweep(mem, 0);
    assert lines[..|lines|] == lines;
    SweepRoundTrip(mem, 0);
    PrintedRoundTrip(mem, 0);
  }

  /** With nothing undocumented and nothing truncated that is the image itself, byte for byte. */
  lemma ImageComesBack(mem: seq<byte>, org: word, size: nat, printed: bool)
    requires mem != [] && Stop(mem, 0) == |mem| && AllDocumented(mem, 0)
    ensures Restores(Emission(mem, org, size, printed), org, mem) <==>
            org + |mem| <= size && HEADER_LINES + |Sweep(mem, 0)| <= MAX_LINES && Legible(mem, org, printed)
  {
    hide Sweep, Canonical, Emission, Legible, Stop, AllDocumented, Restores;
    FileComesBack(mem, org, size, printed);
    CanonicalIsImage(mem, 0);
    assert mem[0..] == mem;
  }

  /** As printed, an image whose origin is above 9FFFH goes to address 0, and nothing is reported. */
  lemma OriginIsLost(mem: seq<byte>, org: word, size: nat)
    requires org >= 0xA000 && org + |Canonical(mem, 0)| <= size
    requires HEADER_LINES + |Sweep(mem, 0)| <= MAX_LINES && AllLead(Sweep(mem, 0))
    ensures Emission(mem, org, size, true).errors == 0
    ensures Placed(map[], Emission(mem, org, size, true).image, 0, Canonical(mem, 0))
  {
    hide Sweep, Canonical, Assembled, Emission, AllLead;
    FileIsEmitted(mem, org, size, true);
    PrintedRoundTrip(mem, 0);
    assert Sweep(mem, 0)[..|Sweep(mem, 0)|] == Sweep(mem, 0);
  }

  /** The instructions beyond the line limit are dropped, and nothing is reported. */
  lemma TailIsLost(mem: seq<byte>, org: word, size: nat, printed: bool)
    requires org + |Canonical(mem, 0)| <= size && Legible(mem, org, printed)
    requires HEADER_LINES + |Sweep(mem, 0)| > MAX_LINES
    ensures var t := Emission(mem, org, size, printed);
            t.errors == 0 && t.pc < org + |Canonical(mem, 0)| && org + |Canonical(mem, 0)| - 1 !in t.image
  {
    hide Sweep, Canonical, Assembled, Emission, AllLead;
    var lines := Sweep(mem, 0);
    var m := Lasting(lines);
    FileIsEmitted(mem, org, size, printed);
    ReadLength(mem, printed);
    SweepRoundTrip(mem, 0);
    PrintedRoundTrip(mem, 0);
    AssembledSplits(lines[..m], lines[m..], printed);
    assert lines[..m] + lines[m..] == lines;
  }

  function Nops(n: nat): seq<byte> { seq(n, _ => 0) }

  lemma {:induction false} NopSweep(n: nat, pc: nat)
    requires pc <= n
    ensures |Sweep(Nops(n), pc)| == n - pc && AllLead(Sweep(Nops(n), pc)) && |Canonical(Nops(n), pc)| == n - pc
    decreases n - pc
  {
    hide DecodeAt, Operands, Isa.Length;
    if pc < n {
      NopSweep(n, pc + 1);
      NopDecodes(n, pc);
      hide Nops;
      AllLeadSplits(Text(NOP, []), Sweep(Nops(n), pc + 1));
    }
  }

  lemma NopDecodes(n: nat, pc: nat)
    requires pc < n
    ensures Isa.Length(Nops(n)[pc]) == 1 && DecodeAt(Nops(n), pc) == Some(Text(NOP, [])) && |Operands(Nops(n), pc)| == 0
  {
    DisassemblerNamesInstruction(0, At(Nops(n), pc + 1), At(Nops(n), pc + 2));
    assert Isa.Length(0) == 1 && Isa.Decode(0) == Isa.Nop;
    OperandLength(Nops(n), pc);
  }

  /** Both happen: NOPs at an origin above 9FFFH, and more NOPs than there are lines. */
  lemma NopsAreLost(n: nat, org: word)
    requires 0 < n && org + n <= 0x1_0000
    ensures n <= 5998 && org >= 0xA000 ==>
              var t := Emission(Nops(n), org, 0x1_0000, true); t.errors == 0 && org !in t.image
    ensures n > 5998 && org < 0xA000 ==>
              var t := Emission(Nops(n), org, 0x1_0000, true); t.errors == 0 && org + n - 1 !in t.image
  {
    hide Sweep, Canonical, Emission, AllLead, Nops, Canon, Operands;
    NopSweep(n, 0);
    if n <= 5998 && org >= 0xA000 {
      OriginIsLost(Nops(n), org, 0x1_0000);
    }
    if n > 5998 && org < 0xA000 {
      TailIsLost(Nops(n), org, 0x1_0000, true);
    }
  }

  predicate Nameless(prog: seq<Stmt>)
  {
    forall i :: 0 <= i < |prog| ==> prog[i].name.None? && !prog[i].body.Equ?
  }

  lemma {:induction false} NamelessKeeps(s: Asm, prog: seq<Stmt>)
    requires Nameless(prog)
    ensures Lines(s, prog).table == s.table && Lines(s, prog).changed == s.changed
  {
    hide Perform, Next;
    if prog != [] {
      var n := |prog| - 1;
      NamelessKeeps(s, prog[..n]);
      if prog[n].body.Do? {
        PerformKeeps(Lines(s, prog[..n]), prog[n].body.verb, prog[n].body.ops);
      }
    }
  }

  /** The passes before the emitting one settle at once: a listing defines no symbol. */
  lemma ListingSettles(mem: seq<byte>, org: word, printed: bool)
    ensures Settles(FirstLines(File(mem, org, printed)), 1) && After(FirstLines(File(mem, org, printed)), 1) == []
  {
    hide Sweep, Read, Lines;
    var prog := FirstLines(File(mem, org, printed));
    NamelessKeeps(Start([], false, 0), prog);
    assert After(prog, 0) == [];
  }
}
