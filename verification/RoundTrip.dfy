// Disassembling an image and assembling the listing again.
module RoundTrip {
  import opened Bits
  import opened A = Assembler
  import opened Disassembler
  import Isa
  import IsaTables

  // ---------- one instruction, by way of the interpreter's decoder ----------

  /** How the disassembler writes the instruction that the interpreter runs. */
  function Render(i: Isa.Instr, b1: byte, b2: byte): Text
  {
    var imm16 := Word(b2, b1);
    match i
    case Nop => Text(NOP, []) case Hlt => Text(HLT, []) case Di => Text(DI, []) case Ei => Text(EI, [])
    case Lxi(rp) => Text(LXI, [Reg(PairName(rp)), Hex4(imm16)])
    case Stax(rp) => Text(STAX, [Reg(PairName(rp))])
    case Ldax(rp) => Text(LDAX, [Reg(PairName(rp))])
    case Shld => Text(SHLD, [Hex4(imm16)]) case Lhld => Text(LHLD, [Hex4(imm16)])
    case Sta => Text(STA, [Hex4(imm16)]) case Lda => Text(LDA, [Hex4(imm16)])
    case Inx(rp) => Text(INX, [Reg(PairName(rp))])
    case Dcx(rp) => Text(DCX, [Reg(PairName(rp))])
    case Dad(rp) => Text(DAD, [Reg(PairName(rp))])
    case Rlc => Text(RLC, []) case Rrc => Text(RRC, []) case Ral => Text(RAL, []) case Rar => Text(RAR, [])
    case Daa => Text(DAA, []) case Cma => Text(CMA, []) case Stc => Text(STC, []) case Cmc => Text(CMC, [])
    case Xchg => Text(XCHG, []) case Xthl => Text(XTHL, [])
    case Pchl => Text(PCHL, []) case Sphl => Text(SPHL, [])
    case Pop(rp) => Text(POP, [Reg(StackName(rp))])
    case Push(rp) => Text(PUSH, [Reg(StackName(rp))])
    case In => Text(IN, [Hex2(b1)]) case Out => Text(OUT, [Hex2(b1)])
    case Jmp => Text(JMP, [Hex4(imm16)]) case Call => Text(CALL, [Hex4(imm16)]) case Ret => Text(RET, [])
    case Mov(d, s) => Text(MOV, [Reg(R8(d)), Reg(R8(s))])
    case Alu(k, s) => Text(ALU(k), [Reg(R8(s))])
    case Inr(d) => Text(INR, [Reg(R8(d))])
    case Dcr(d) => Text(DCR, [Reg(R8(d))])
    case Mvi(d) => Text(MVI, [Reg(R8(d)), Hex2(b1)])
    case AluImm(k) => Text(ALUI(k), [Hex2(b1)])
    case Rst(n) => Text(RST, [Dec(n)])
    case Jcc(c) => Text(JumpCC(c), [Hex4(imm16)])
    case Ccc(c) => Text(CallCC(c), [Hex4(imm16)])
    case Rcc(c) => Text(RetCC(c), [])
  }

  /** The documented opcode of an instruction. */
  function Documented(i: Isa.Instr): byte
  {
    match i
    case Nop => 0x00 case Hlt => 0x76 case Di => 0xF3 case Ei => 0xFB
    case Lxi(rp) => 0x01 + 16 * rp case Stax(rp) => 0x02 + 16 * rp case Ldax(rp) => 0x0A + 16 * rp
    case Shld => 0x22 case Lhld => 0x2A case Sta => 0x32 case Lda => 0x3A
    case Inx(rp) => 0x03 + 16 * rp case Dcx(rp) => 0x0B + 16 * rp case Dad(rp) => 0x09 + 16 * rp
    case Rlc => 0x07 case Rrc => 0x0F case Ral => 0x17 case Rar => 0x1F
    case Daa => 0x27 case Cma => 0x2F case Stc => 0x37 case Cmc => 0x3F
    case Xchg => 0xEB case Xthl => 0xE3 case Pchl => 0xE9 case Sphl => 0xF9
    case Pop(rp) => 0xC1 + 16 * rp case Push(rp) => 0xC5 + 16 * rp
    case In => 0xDB case Out => 0xD3 case Jmp => 0xC3 case Call => 0xCD case Ret => 0xC9
    case Mov(d, s) => 0x40 + 8 * d + s case Alu(k, s) => 0x80 + 8 * k + s
    case Inr(d) => 0x04 + 8 * d case Dcr(d) => 0x05 + 8 * d case Mvi(d) => 0x06 + 8 * d
    case AluImm(k) => 0xC6 + 8 * k case Rst(n) => 0xC7 + 8 * n
    case Jcc(c) => 0xC2 + 8 * c case Ccc(c) => 0xC4 + 8 * c case Rcc(c) => 0xC0 + 8 * c
  }

  /** `i8080_opcode_undocumented` and what each of the twelve stands for. */
  function Canon(op: byte): byte
  {
    if op < 0x40 && op % 8 == 0 then 0x00
    else if op == 0xCB then 0xC3
    else if op == 0xD9 then 0xC9
    else if op == 0xDD || op == 0xED || op == 0xFD then 0xCD
    else op
  }

  predicate Undocumented(op: byte)
  {
    op in {0x08, 0x10, 0x18, 0x20, 0x28, 0x30, 0x38, 0xCB, 0xD9, 0xDD, 0xED, 0xFD}
  }

  /** The disassembler names the instruction that the interpreter executes. */
  predicate Named(op: byte, b1: byte, b2: byte)
  {
    Decode(op, b1, b2) == Some(Render(Isa.Decode(op), b1, b2))
  }

  lemma NamedFirst(op: byte, b1: byte, b2: byte)
    requires op < 0x40 && op % 8 < 2
    ensures Named(op, b1, b2)
  {
    hide R8, PairName, StackName, ALU, ALUI, JumpCC, CallCC, RetCC;
    hide Isa.DecodeHigh;
    IsaTables.Split(op, op / 8);
  }

  lemma NamedSecond(op: byte, b1: byte, b2: byte)
    requires op < 0x40 && 2 <= op % 8 < 4
    ensures Named(op, b1, b2)
  {
    hide R8, PairName, StackName, ALU, ALUI, JumpCC, CallCC, RetCC;
    hide Isa.DecodeHigh;
    IsaTables.Split(op, op / 8);
  }

  lemma NamedLow(op: byte, b1: byte, b2: byte)
    requires op < 0x40 && 4 <= op % 8 < 7
    ensures Named(op, b1, b2)
  {
    hide Isa.DecodeHigh;
    hide R8, PairName, StackName, ALU, ALUI, JumpCC, CallCC, RetCC;
    IsaTables.Split(op, op / 8);
  }

  lemma NamedFlags(op: byte, b1: byte, b2: byte)
    requires op < 0x40 && op % 8 == 7
    ensures Named(op, b1, b2)
  {
    hide Isa.DecodeHigh;
    hide R8, PairName, StackName, ALU, ALUI, JumpCC, CallCC, RetCC;
    IsaTables.Split(op, op / 8);
  }

  lemma NamedMiddle(op: byte, b1: byte, b2: byte)
    requires 0x40 <= op < 0xC0
    ensures Named(op, b1, b2)
  {
    hide Isa.DecodeLow, Isa.DecodeHigh;
    hide R8, PairName, StackName, ALU, ALUI, JumpCC, CallCC, RetCC;
  }

  lemma NamedReturns(op: byte, b1: byte, b2: byte)
    requires 0xC0 <= op && (op % 8 == 0 || op % 8 == 2)
    ensures Named(op, b1, b2)
  {
    hide R8, PairName, StackName, ALU, ALUI, JumpCC, CallCC, RetCC;
    hide Isa.DecodeLow;
    IsaTables.Split(op, op / 8);
  }

  lemma NamedCalls(op: byte, b1: byte, b2: byte)
    requires 0xC0 <= op && (op % 8 == 4 || op % 8 == 6)
    ensures Named(op, b1, b2)
  {
    hide R8, PairName, StackName, ALU, ALUI, JumpCC, CallCC, RetCC;
    hide Isa.DecodeLow;
    IsaTables.Split(op, op / 8);
  }

  lemma NamedThree(op: byte, b1: byte, b2: byte)
    requires 0xC0 <= op && op % 8 == 3
    ensures Named(op, b1, b2)
  {
    hide Isa.DecodeLow;
    hide R8, PairName, StackName, ALU, ALUI, JumpCC, CallCC, RetCC;
    IsaTables.Split(op, op / 8);
  }

  lemma NamedPops(op: byte, b1: byte, b2: byte)
    requires 0xC0 <= op && op % 8 == 1
    ensures Named(op, b1, b2)
  {
    hide R8, PairName, StackName, ALU, ALUI, JumpCC, CallCC, RetCC;
    hide Isa.DecodeLow;
    IsaTables.Split(op, op / 8);
  }

  lemma NamedPushes(op: byte, b1: byte, b2: byte)
    requires 0xC0 <= op && op % 8 == 5
    ensures Named(op, b1, b2)
  {
    hide R8, PairName, StackName, ALU, ALUI, JumpCC, CallCC, RetCC;
    hide Isa.DecodeLow;
    IsaTables.Split(op, op / 8);
  }

  lemma NamedSeven(op: byte, b1: byte, b2: byte)
    requires 0xC0 <= op && op % 8 == 7
    ensures Named(op, b1, b2)
  {
    hide Isa.DecodeLow;
    hide R8, PairName, StackName, ALU, ALUI, JumpCC, CallCC, RetCC;
    IsaTables.Split(op, op / 8);
  }

  /** All 256 opcodes have a name, the name of the instruction that the interpreter executes. */
  lemma DisassemblerNamesInstruction(op: byte, b1: byte, b2: byte)
    ensures Named(op, b1, b2)
  {
    hide Named;
    if op < 0x40 {
      if op % 8 < 4 {
        if op % 8 < 2 { NamedFirst(op, b1, b2); } else { NamedSecond(op, b1, b2); }
      } else if op % 8 < 7 {
        NamedLow(op, b1, b2);
      } else {
        NamedFlags(op, b1, b2);
      }
    } else if op < 0xC0 {
      NamedMiddle(op, b1, b2);
    } else if op % 8 == 3 {
      NamedThree(op, b1, b2);
    } else if op % 8 == 7 {
      NamedSeven(op, b1, b2);
    } else if op % 8 % 2 == 1 {
      if op % 8 == 1 { NamedPops(op, b1, b2); } else { NamedPushes(op, b1, b2); }
    } else {
      if op % 8 < 4 { NamedReturns(op, b1, b2); } else { NamedCalls(op, b1, b2); }
    }
  }

  lemma CodedPairs(op: byte)
    requires op < 0x40 && op % 8 < 4
    ensures Documented(Isa.Decode(op)) == Canon(op)
  {
    hide Isa.DecodeHigh;
    IsaTables.Split(op, op / 8);
  }

  lemma CodedCounts(op: byte)
    requires op < 0x40 && 4 <= op % 8 < 7
    ensures Documented(Isa.Decode(op)) == Canon(op)
  {
    hide Isa.DecodeHigh;
    IsaTables.Split(op, op / 8);
  }

  lemma CodedFlags(op: byte)
    requires op < 0x40 && op % 8 == 7
    ensures Documented(Isa.Decode(op)) == Canon(op)
  {
    hide Isa.DecodeHigh;
    IsaTables.Split(op, op / 8);
  }

  lemma CodedMiddle(op: byte)
    requires 0x40 <= op < 0xC0
    ensures Documented(Isa.Decode(op)) == Canon(op)
  {
    hide Isa.DecodeLow, Isa.DecodeHigh;
  }

  lemma CodedReturns(op: byte)
    requires 0xC0 <= op && (op % 8 == 0 || op % 8 == 2)
    ensures Documented(Isa.Decode(op)) == Canon(op)
  {
    hide Isa.DecodeLow;
    IsaTables.Split(op, op / 8);
  }

  lemma CodedCalls(op: byte)
    requires 0xC0 <= op && (op % 8 == 4 || op % 8 > 5)
    ensures Documented(Isa.Decode(op)) == Canon(op)
  {
    hide Isa.DecodeLow;
    IsaTables.Split(op, op / 8);
  }

  lemma CodedPops(op: byte)
    requires 0xC0 <= op && op % 8 == 1
    ensures Documented(Isa.Decode(op)) == Canon(op)
  {
    hide Isa.DecodeLow;
    IsaTables.Split(op, op / 8);
  }

  lemma CodedPushes(op: byte)
    requires 0xC0 <= op && op % 8 == 5
    ensures Documented(Isa.Decode(op)) == Canon(op)
  {
    hide Isa.DecodeLow;
    IsaTables.Split(op, op / 8);
  }

  lemma CodedThree(op: byte)
    requires 0xC0 <= op && op % 8 == 3
    ensures Documented(Isa.Decode(op)) == Canon(op)
  {
    hide Isa.DecodeLow;
    IsaTables.Split(op, op / 8);
  }

  /** An instruction's documented opcode is the opcode itself, except for the twelve alternatives. */
  lemma DocumentedIsCanon(op: byte)
    ensures Documented(Isa.Decode(op)) == Canon(op)
    ensures Canon(op) != op <==> Undocumented(op)
  {
    hide Isa.Decode, Documented;
    if op < 0x40 {
      if op % 8 < 4 {
        CodedPairs(op);
      } else {
        if op % 8 < 7 { CodedCounts(op); } else { CodedFlags(op); }
      }
    } else if op < 0xC0 {
      CodedMiddle(op);
    } else if 0xC0 <= op {
      if op % 8 == 3 {
        CodedThree(op);
      } else if op % 8 == 1 || op % 8 == 5 {
        if op % 8 == 1 { CodedPops(op); } else { CodedPushes(op); }
      } else {
        if op % 8 < 4 { CodedReturns(op); } else { CodedCalls(op); }
      }
    }
  }

  /** The alternatives run as what they are disassembled to. */
  lemma CanonRunsTheSame(op: byte)
    ensures Isa.Decode(Canon(op)) == Isa.Decode(op)
    ensures Isa.Length(Canon(op)) == Isa.Length(op)
  {
    hide Isa.Length, Isa.Cycles, Isa.Decode;
    CanonDecodes(op);
    IsaTables.TablesAgree(op);
    IsaTables.TablesAgree(Canon(op));
  }

  lemma CanonDecodes(op: byte)
    ensures Isa.Decode(Canon(op)) == Isa.Decode(op)
  {
    if op < 0x40 && op % 8 == 0 {
      IsaTables.Split(op, op / 8);
      hide Isa.DecodeHigh;
    } else if op != Canon(op) {
      hide Isa.DecodeLow;
    } else {
      hide Isa.Decode;
    }
  }

  // ---------- operands as values and as texts ----------

  /** The operand the assembler would read if the number were written in a form it accepts. */
  function ByValue(a: Arg): Operand
  {
    match a
    case Reg(r) => Operand(r, Bad)
    case Hex2(b) => Operand(NoReg, Num(b))
    case Hex4(w) => Operand(NoReg, Num(w))
    case Dec(n) => Operand(NoReg, Num(n))
  }

  function Values(args: seq<Arg>): seq<Operand>
  {
    seq(|args|, k requires 0 <= k < |args| => ByValue(args[k]))
  }

  function OperandBytes(i: Isa.Instr, b1: byte, b2: byte): seq<byte>
  {
    if Isa.OperandBytes(i) == 2 then [b1, b2] else if Isa.OperandBytes(i) == 1 then [b1] else []
  }

  /** The assembler inverts the disassembler: opcode and operand bytes come back, with no complaint. */
  predicate Inverts(i: Isa.Instr, b1: byte, b2: byte, here: int)
  {
    var t := Render(i, b1, b2);
    var (bs, faults) := Encode(t.m, Values(t.args), [], here);
    bs == [Documented(i)] + OperandBytes(i, b1, b2) && faults == 0
  }

  /** What one kind of instruction encodes to, given its row of MNEM. */
  ghost predicate Gives(m: Mnemonic, args: seq<Arg>, here: int, bs: seq<byte>)
  {
    Encode(m, Values(args), [], here).0 == bs && Encode(m, Values(args), [], here).1 == 0
  }

  lemma GivesNone(m: Mnemonic, here: int)
    requires Row(m).1 == KNone
    ensures Gives(m, [], here, [Row(m).0])
  {
    hide Row;
  }

  lemma GivesAddr(m: Mnemonic, w: word, here: int)
    requires Row(m).1 == KAddr
    ensures Gives(m, [Hex4(w)], here, [Row(m).0, Lo(w), Hi(w)])
  {
    hide Row;
    assert LowByte(w / 256) == Hi(w) && LowByte(w) == Lo(w);
  }

  lemma GivesByte(m: Mnemonic, b: byte, here: int)
    requires Row(m).1 == KImm8 || Row(m).1 == KPort
    ensures Gives(m, [Hex2(b)], here, [Row(m).0, b])
  {
    hide Row;
  }

  lemma GivesRst(n: Isa.Reg, here: int)
    ensures Gives(RST, [Dec(n)], here, [0xC7 + 8 * n])
  {
  }

  lemma GivesReg(m: Mnemonic, base: byte, kind: Kind, r: Isa.Reg, here: int)
    requires Row(m) == (base, kind) && (kind == KR8d || kind == KR8s)
    requires base + (if kind == KR8d then 8 * r else r) < 256
    ensures Gives(m, [Reg(R8(r))], here, [base + (if kind == KR8d then 8 * r else r)])
  {
    hide Row;
    NamesComeBack(r);
    assert Reg8(Values([Reg(R8(r))]), 0) == Some(r);
  }

  lemma GivesMov(d: Isa.Reg, r: Isa.Reg, here: int)
    ensures Gives(MOV, [Reg(R8(d)), Reg(R8(r))], here, [0x40 + 8 * d + r])
  {
    hide Row, Reg8;
    assert Row(MOV) == (0x40, KMov) by { MovRow(); }
    NamesComeBack(d);
    NamesComeBack(r);
    SecondReg(Values([Reg(R8(d)), Reg(R8(r))]), d, r);
  }

  lemma MovRow()
    ensures Row(MOV) == (0x40, KMov)
  {
  }

  lemma SecondReg(ops: seq<Operand>, d: nat, r: nat)
    requires |ops| == 2 && Reg8([ops[0]], 0) == Some(d) && Reg8([ops[1]], 0) == Some(r)
    ensures Reg8(ops, 0) == Some(d) && Reg8(ops, 1) == Some(r)
  {
  }

  lemma NamesComeBack(r: Isa.Reg)
    ensures Reg8([ByValue(Reg(R8(r)))], 0) == Some(r)
  {
  }

  lemma PairsComeBack(rp: Isa.Pair)
    ensures RegPair([ByValue(Reg(PairName(rp)))], false) == Some(rp)
    ensures RegPair([ByValue(Reg(StackName(rp)))], true) == Some(rp)
  {
  }

  lemma GivesMvi(r: Isa.Reg, b: byte, here: int)
    ensures Gives(MVI, [Reg(R8(r)), Hex2(b)], here, [0x06 + 8 * r, b])
  {
    NamesComeBack(r);
    hide R8, Reg8;
    var ops := Values([Reg(R8(r)), Hex2(b)]);
    FirstReg(ops, r);
  }

  lemma FirstReg(ops: seq<Operand>, d: nat)
    requires ops != [] && Reg8([ops[0]], 0) == Some(d)
    ensures Reg8(ops, 0) == Some(d)
  {
  }

  lemma FirstPair(ops: seq<Operand>, stack: bool, rp: nat)
    requires ops != [] && RegPair([ops[0]], stack) == Some(rp)
    ensures RegPair(ops, stack) == Some(rp)
  {
  }

  lemma GivesLxi(rp: Isa.Pair, w: word, here: int)
    ensures Gives(LXI, [Reg(PairName(rp)), Hex4(w)], here, [0x01 + 16 * rp, Lo(w), Hi(w)])
  {
    PairsComeBack(rp);
    hide PairName, RegPair;
    FirstPair(Values([Reg(PairName(rp)), Hex4(w)]), false, rp);
    assert LowByte(w / 256) == Hi(w) && LowByte(w) == Lo(w);
  }

  lemma GivesPair(m: Mnemonic, kind: Kind, name: RegName, rp: Isa.Pair, code: byte, here: int)
    requires Row(m).1 == kind && (kind == KRp || kind == KStk || (kind == KAx && rp < 2))
    requires code == Row(m).0 + 16 * rp && name == if kind == KStk then StackName(rp) else PairName(rp)
    ensures Gives(m, [Reg(name)], here, [code])
  {
    PairsComeBack(rp);
    hide Row, PairName, StackName, RegPair;
    FirstPair(Values([Reg(name)]), kind == KStk, rp);
  }

  // ---------- rows of MNEM ----------

  lemma AluRow(k: Isa.Reg)
    ensures Row(ALU(k)) == (0x80 + 8 * k, KR8s)
  {
  }

  lemma ImmediateRow(k: Isa.Reg)
    ensures Row(ALUI(k)) == (0xC6 + 8 * k, KImm8)
  {
  }

  lemma JumpRow(c: Isa.Cond)
    ensures Row(JumpCC(c)) == (0xC2 + 8 * c, KAddr)
  {
  }

  lemma CallRow(c: Isa.Cond)
    ensures Row(CallCC(c)) == (0xC4 + 8 * c, KAddr)
  {
  }

  lemma ReturnRow(c: Isa.Cond)
    ensures Row(RetCC(c)) == (0xC0 + 8 * c, KNone)
  {
  }

  lemma PortRows()
    ensures Row(IN) == (0xDB, KPort) && Row(OUT) == (0xD3, KPort)
  {
  }

  // ---------- every instruction ----------

  lemma InvertsLxi(i: Isa.Instr, b1: byte, b2: byte, here: int)
    requires i.Lxi?
    ensures Inverts(i, b1, b2, here)
  {
    hide Encode, PairName;
    assert Lo(Word(b2, b1)) == b1 && Hi(Word(b2, b1)) == b2;
    GivesLxi(i.rp, Word(b2, b1), here);
  }

  lemma InvertsStore(i: Isa.Instr, b1: byte, b2: byte, here: int)
    requires i.Shld? || i.Sta?
    ensures Inverts(i, b1, b2, here)
  {
    hide Encode;
    assert Lo(Word(b2, b1)) == b1 && Hi(Word(b2, b1)) == b2;
    GivesAddr(Render(i, b1, b2).m, Word(b2, b1), here);
  }

  lemma InvertsLoad(i: Isa.Instr, b1: byte, b2: byte, here: int)
    requires i.Lhld? || i.Lda?
    ensures Inverts(i, b1, b2, here)
  {
    hide Encode;
    assert Lo(Word(b2, b1)) == b1 && Hi(Word(b2, b1)) == b2;
    GivesAddr(Render(i, b1, b2).m, Word(b2, b1), here);
  }

  lemma InvertsAlways(i: Isa.Instr, b1: byte, b2: byte, here: int)
    requires i.Jmp? || i.Call?
    ensures Inverts(i, b1, b2, here)
  {
    hide Encode;
    assert Lo(Word(b2, b1)) == b1 && Hi(Word(b2, b1)) == b2;
    GivesAddr(Render(i, b1, b2).m, Word(b2, b1), here);
  }

  lemma InvertsJump(i: Isa.Instr, b1: byte, b2: byte, here: int)
    requires i.Jcc?
    ensures Inverts(i, b1, b2, here)
  {
    hide Encode, Row, JumpCC;
    var w := Word(b2, b1);
    assert Lo(w) == b1 && Hi(w) == b2;
    JumpRow(i.cc);
    GivesAddr(JumpCC(i.cc), w, here);
  }

  lemma InvertsCall(i: Isa.Instr, b1: byte, b2: byte, here: int)
    requires i.Ccc?
    ensures Inverts(i, b1, b2, here)
  {
    hide Encode, Row, CallCC;
    var w := Word(b2, b1);
    assert Lo(w) == b1 && Hi(w) == b2;
    CallRow(i.cc);
    GivesAddr(CallCC(i.cc), w, here);
  }

  lemma InvertsReturn(i: Isa.Instr, b1: byte, b2: byte, here: int)
    requires i.Rcc?
    ensures Inverts(i, b1, b2, here)
  {
    hide Encode, Row, RetCC;
    ReturnRow(i.cc);
    GivesNone(RetCC(i.cc), here);
  }

  lemma InvertsCount16(i: Isa.Instr, b1: byte, b2: byte, here: int)
    requires i.Inx? || i.Dcx? || i.Dad?
    ensures Inverts(i, b1, b2, here)
  {
    hide Encode, PairName, StackName;
    var t := Render(i, b1, b2);
    GivesPair(t.m, Row(t.m).1, t.args[0].name, i.rp, Row(t.m).0 + 16 * i.rp, here);
  }

  lemma InvertsStack(i: Isa.Instr, b1: byte, b2: byte, here: int)
    requires i.Pop? || i.Push?
    ensures Inverts(i, b1, b2, here)
  {
    hide Encode, PairName, StackName;
    var t := Render(i, b1, b2);
    GivesPair(t.m, Row(t.m).1, t.args[0].name, i.rp, Row(t.m).0 + 16 * i.rp, here);
  }

  lemma InvertsIndirect(i: Isa.Instr, b1: byte, b2: byte, here: int)
    requires (i.Stax? || i.Ldax?) && i.rp < 2
    ensures Inverts(i, b1, b2, here)
  {
    hide Encode, PairName, StackName;
    var t := Render(i, b1, b2);
    GivesPair(t.m, Row(t.m).1, t.args[0].name, i.rp, Row(t.m).0 + 16 * i.rp, here);
  }

  lemma InvertsAlu(i: Isa.Instr, b1: byte, b2: byte, here: int)
    requires i.Alu? || i.AluImm?
    ensures Inverts(i, b1, b2, here)
  {
    hide Encode, R8, Row, ALU, ALUI;
    if i.Alu? {
      AluRow(i.k);
      GivesReg(ALU(i.k), 0x80 + 8 * i.k, KR8s, i.src, here);
    } else {
      ImmediateRow(i.k);
      GivesByte(ALUI(i.k), b1, here);
    }
  }

  lemma InvertsMov(i: Isa.Instr, b1: byte, b2: byte, here: int)
    requires i.Mov?
    ensures Inverts(i, b1, b2, here)
  {
    hide Encode, R8;
    GivesMov(i.dst, i.src, here);
  }

  lemma InvertsCount8(i: Isa.Instr, b1: byte, b2: byte, here: int)
    requires i.Inr? || i.Dcr?
    ensures Inverts(i, b1, b2, here)
  {
    hide Encode, R8;
    GivesReg(if i.Inr? then INR else DCR, if i.Inr? then 0x04 else 0x05, KR8d, i.dst, here);
  }

  lemma InvertsMvi(i: Isa.Instr, b1: byte, b2: byte, here: int)
    requires i.Mvi?
    ensures Inverts(i, b1, b2, here)
  {
    hide Encode, R8;
    GivesMvi(i.dst, b1, here);
  }

  lemma InvertsRst(i: Isa.Instr, b1: byte, b2: byte, here: int)
    requires i.Rst?
    ensures Inverts(i, b1, b2, here)
  {
    hide Encode;
    GivesRst(i.n, here);
  }

  lemma InvertsIo(i: Isa.Instr, b1: byte, b2: byte, here: int)
    requires i.In? || i.Out?
    ensures Inverts(i, b1, b2, here)
  {
    hide Encode, Row;
    PortRows();
    GivesByte(Render(i, b1, b2).m, b1, here);
  }

  lemma InvertsRotate(i: Isa.Instr, b1: byte, b2: byte, here: int)
    requires i.Rlc? || i.Rrc? || i.Ral? || i.Rar?
    ensures Inverts(i, b1, b2, here)
  {
    hide Encode;
    GivesNone(Render(i, b1, b2).m, here);
  }

  lemma InvertsFlag(i: Isa.Instr, b1: byte, b2: byte, here: int)
    requires i.Daa? || i.Cma? || i.Stc? || i.Cmc?
    ensures Inverts(i, b1, b2, here)
  {
    hide Encode;
    GivesNone(Render(i, b1, b2).m, here);
  }

  lemma InvertsHl(i: Isa.Instr, b1: byte, b2: byte, here: int)
    requires i.Xchg? || i.Xthl? || i.Pchl? || i.Sphl?
    ensures Inverts(i, b1, b2, here)
  {
    hide Encode;
    GivesNone(Render(i, b1, b2).m, here);
  }

  lemma InvertsControl(i: Isa.Instr, b1: byte, b2: byte, here: int)
    requires i.Nop? || i.Hlt? || i.Di? || i.Ei? || i.Ret?
    ensures Inverts(i, b1, b2, here)
  {
    hide Encode;
    GivesNone(Render(i, b1, b2).m, here);
  }

  lemma InvertsInstruction(i: Isa.Instr, b1: byte, b2: byte, here: int)
    requires i.Stax? || i.Ldax? ==> i.rp < 2
    ensures Inverts(i, b1, b2, here)
  {
    hide Inverts;
    match i
    case Lxi(_) => InvertsLxi(i, b1, b2, here);
    case Shld => InvertsStore(i, b1, b2, here);
    case Sta => InvertsStore(i, b1, b2, here);
    case Lhld => InvertsLoad(i, b1, b2, here);
    case Lda => InvertsLoad(i, b1, b2, here);
    case Jmp => InvertsAlways(i, b1, b2, here);
    case Call => InvertsAlways(i, b1, b2, here);
    case Jcc(_) => InvertsJump(i, b1, b2, here);
    case Ccc(_) => InvertsCall(i, b1, b2, here);
    case Rcc(_) => InvertsReturn(i, b1, b2, here);
    case Inx(_) => InvertsCount16(i, b1, b2, here);
    case Dcx(_) => InvertsCount16(i, b1, b2, here);
    case Dad(_) => InvertsCount16(i, b1, b2, here);
    case Pop(_) => InvertsStack(i, b1, b2, here);
    case Push(_) => InvertsStack(i, b1, b2, here);
    case Stax(_) => InvertsIndirect(i, b1, b2, here);
    case Ldax(_) => InvertsIndirect(i, b1, b2, here);
    case Alu(_, _) => InvertsAlu(i, b1, b2, here);
    case AluImm(_) => InvertsAlu(i, b1, b2, here);
    case Mov(_, _) => InvertsMov(i, b1, b2, here);
    case Inr(_) => InvertsCount8(i, b1, b2, here);
    case Dcr(_) => InvertsCount8(i, b1, b2, here);
    case Mvi(_) => InvertsMvi(i, b1, b2, here);
    case Rst(_) => InvertsRst(i, b1, b2, here);
    case In => InvertsIo(i, b1, b2, here);
    case Out => InvertsIo(i, b1, b2, here);
    case Rlc => InvertsRotate(i, b1, b2, here);
    case Rrc => InvertsRotate(i, b1, b2, here);
    case Ral => InvertsRotate(i, b1, b2, here);
    case Rar => InvertsRotate(i, b1, b2, here);
    case Daa => InvertsFlag(i, b1, b2, here);
    case Cma => InvertsFlag(i, b1, b2, here);
    case Stc => InvertsFlag(i, b1, b2, here);
    case Cmc => InvertsFlag(i, b1, b2, here);
    case Xchg => InvertsHl(i, b1, b2, here);
    case Xthl => InvertsHl(i, b1, b2, here);
    case Pchl => InvertsHl(i, b1, b2, here);
    case Sphl => InvertsHl(i, b1, b2, here);
    case _ => InvertsControl(i, b1, b2, here);
  }
}
