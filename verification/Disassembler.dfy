// tools/disasm.c: one stateless decode from bytes to a mnemonic, operand texts and a length, and
// the sweep of tools/umkdis.c over an image.
module Disassembler {
  import opened Bits
  import Isa
  import A = Assembler

  /** An operand as printed: a register name, %02XH, %04XH or %u. */
  datatype Arg = Reg(name: A.RegName) | Hex2(b: byte) | Hex4(w: word) | Dec(n: Isa.Reg)

  function HexDigit(d: nat): char
    requires d < 16
  {
    "0123456789ABCDEF"[d]
  }

  /** The text of a number: %02XH, %04XH or %u. */
  function Printed(a: Arg): string
  {
    match a
    case Reg(_) => ""
    case Hex2(b) => [HexDigit(b / 16), HexDigit(b % 16), 'H']
    case Hex4(w) => [HexDigit(w / 0x1000), HexDigit(w / 0x100 % 16), HexDigit(w / 16 % 16), HexDigit(w % 16), 'H']
    case Dec(n) => [HexDigit(n)]
  }

  datatype Text = Text(m: A.Mnemonic, args: seq<Arg>)

  /** The name tables R8, PairName, StackName, ALU, ALUI and the three that CC makes. */
  function R8(k: nat): A.RegName
  {
    match k
    case 0 => A.RegB case 1 => A.RegC case 2 => A.RegD case 3 => A.RegE
    case 4 => A.RegH case 5 => A.RegL case 6 => A.RegM case _ => A.RegA
  }

  function PairName(k: nat): A.RegName
  {
    match k case 0 => A.RegB case 1 => A.RegD case 2 => A.RegH case _ => A.RegSP
  }

  function StackName(k: nat): A.RegName
  {
    match k case 0 => A.RegB case 1 => A.RegD case 2 => A.RegH case _ => A.RegPSW
  }

  function ALU(k: nat): A.Mnemonic
  {
    match k
    case 0 => A.ADD case 1 => A.ADC case 2 => A.SUB case 3 => A.SBB
    case 4 => A.ANA case 5 => A.XRA case 6 => A.ORA case _ => A.CMP
  }

  function ALUI(k: nat): A.Mnemonic
  {
    match k
    case 0 => A.ADI case 1 => A.ACI case 2 => A.SUI case 3 => A.SBI
    case 4 => A.ANI case 5 => A.XRI case 6 => A.ORI case _ => A.CPI
  }

  function JumpCC(k: nat): A.Mnemonic
  {
    match k
    case 0 => A.JNZ case 1 => A.JZ case 2 => A.JNC case 3 => A.JC
    case 4 => A.JPO case 5 => A.JPE case 6 => A.JP case _ => A.JM
  }

  function CallCC(k: nat): A.Mnemonic
  {
    match k
    case 0 => A.CNZ case 1 => A.CZ case 2 => A.CNC case 3 => A.CC
    case 4 => A.CPO case 5 => A.CPE case 6 => A.CP case _ => A.CM
  }

  function RetCC(k: nat): A.Mnemonic
  {
    match k
    case 0 => A.RNZ case 1 => A.RZ case 2 => A.RNC case 3 => A.RC
    case 4 => A.RPO case 5 => A.RPE case 6 => A.RP case _ => A.RM
  }

  /** The cases of the switch without operands, NOP apart. */
  function Plain(op: byte): A.Option<A.Mnemonic>
  {
    if op == 0x07 then A.Some(A.RLC) else if op == 0x0F then A.Some(A.RRC)
    else if op == 0x17 then A.Some(A.RAL) else if op == 0x1F then A.Some(A.RAR)
    else if op == 0x27 then A.Some(A.DAA) else if op == 0x2F then A.Some(A.CMA)
    else if op == 0x37 then A.Some(A.STC) else if op == 0x3F then A.Some(A.CMC)
    else if op == 0x76 then A.Some(A.HLT) else if op == 0xC9 || op == 0xD9 then A.Some(A.RET)
    else if op == 0xE3 then A.Some(A.XTHL) else if op == 0xE9 then A.Some(A.PCHL)
    else if op == 0xEB then A.Some(A.XCHG) else if op == 0xF3 then A.Some(A.DI)
    else if op == 0xF9 then A.Some(A.SPHL) else if op == 0xFB then A.Some(A.EI)
    else A.None
  }

  /** The cases of the switch with a 16-bit operand. */
  function Direct(op: byte): A.Option<A.Mnemonic>
  {
    if op == 0x22 then A.Some(A.SHLD) else if op == 0x2A then A.Some(A.LHLD)
    else if op == 0x32 then A.Some(A.STA) else if op == 0x3A then A.Some(A.LDA)
    else if op == 0xC3 || op == 0xCB then A.Some(A.JMP)
    else if op == 0xCD || op == 0xDD || op == 0xED || op == 0xFD then A.Some(A.CALL)
    else A.None
  }

  /** The masked cases after the switch; the last resort, DB, is None. */
  function Masked(op: byte, imm8: byte, imm16: word): A.Option<Text>
  {
    var r := op / 8 % 8;
    var rp := op / 16 % 4;
    var low := op < 0x40;          // op & 0xC0 == 0
    var high := op >= 0xC0;        // op & 0xC0 == 0xC0
    if 0x40 <= op <= 0x7F then A.Some(Text(A.MOV, [Reg(R8(r)), Reg(R8(op % 8))]))
    else if 0x80 <= op <= 0xBF then A.Some(Text(ALU(r), [Reg(R8(op % 8))]))
    else if low && op % 16 == 0x1 then A.Some(Text(A.LXI, [Reg(PairName(rp)), Hex4(imm16)]))
    else if low && op % 16 == 0x3 then A.Some(Text(A.INX, [Reg(PairName(rp))]))
    else if low && op % 16 == 0xB then A.Some(Text(A.DCX, [Reg(PairName(rp))]))
    else if low && op % 16 == 0x9 then A.Some(Text(A.DAD, [Reg(PairName(rp))]))
    else if high && op % 16 == 0x5 then A.Some(Text(A.PUSH, [Reg(StackName(rp))]))
    else if high && op % 16 == 0x1 then A.Some(Text(A.POP, [Reg(StackName(rp))]))
    else if low && op % 8 == 4 then A.Some(Text(A.INR, [Reg(R8(r))]))
    else if low && op % 8 == 5 then A.Some(Text(A.DCR, [Reg(R8(r))]))
    else if low && op % 8 == 6 then A.Some(Text(A.MVI, [Reg(R8(r)), Hex2(imm8)]))
    else if high && op % 8 == 6 then A.Some(Text(ALUI(r), [Hex2(imm8)]))
    else if high && op % 8 == 7 then A.Some(Text(A.RST, [Dec(r)]))
    else if high && op % 8 == 2 then A.Some(Text(JumpCC(r), [Hex4(imm16)]))
    else if high && op % 8 == 4 then A.Some(Text(CallCC(r), [Hex4(imm16)]))
    else if high && op % 8 == 0 then A.Some(Text(RetCC(r), []))
    else A.None
  }

  /** `umk_disasm` on an opcode and the two bytes after it. */
  function Decode(op: byte, b1: byte, b2: byte): A.Option<Text>
  {
    var imm16 := Word(b2, b1);
    if op < 0x40 && op % 8 == 0 then A.Some(Text(A.NOP, []))
    else if Plain(op).Some? then A.Some(Text(Plain(op).value, []))
    else if op == 0x02 || op == 0x12 then A.Some(Text(A.STAX, [Reg(PairName(op / 16))]))
    else if op == 0x0A || op == 0x1A then A.Some(Text(A.LDAX, [Reg(PairName(op / 16))]))
    else if Direct(op).Some? then A.Some(Text(Direct(op).value, [Hex4(imm16)]))
    else if op == 0xDB then A.Some(Text(A.IN, [Hex2(b1)]))
    else if op == 0xD3 then A.Some(Text(A.OUT, [Hex2(b1)]))
    else Masked(op, b1, imm16)
  }

  // ---------- the sweep ----------

  /** Bytes beyond the end of the image read 0. */
  function At(mem: seq<byte>, pc: nat): byte
  {
    if pc < |mem| then mem[pc] else 0
  }

  function DecodeAt(mem: seq<byte>, pc: nat): A.Option<Text>
    requires pc < |mem|
  {
    Decode(mem[pc], At(mem, pc + 1), At(mem, pc + 2))
  }
}
