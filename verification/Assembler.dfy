// tools/umkasm.c from the parsed line on: symbol table, evaluator, encoder, one line, one pass and
// the pass loop, as functions.
module Assembler {
  import opened Bits

  const MAX_SYMS := 1024
  const NAME_CHARS := 31
  const MAX_PASSES := 16
  const MAX_LINES := 6000

  datatype Option<T> = None | Some(value: T)

  // ---------- symbols and expressions ----------

  datatype Entry = Entry(name: string, value: int)

  type Table = seq<Entry>

  /** What fits a name[32] buffer. */
  function Clip(name: string): string { if |name| > NAME_CHARS then name[..NAME_CHARS] else name }

  /** `sym_find`, giving the value of the first entry with the name. */
  function Lookup(t: Table, name: string): Option<int>
  {
    if t == [] then None
    else if t[0].name == name then Some(t[0].value)
    else Lookup(t[1..], name)
  }

  function Replace(t: Table, name: string, v: int): Table
  {
    if t == [] then []
    else if t[0].name == name then [Entry(t[0].name, v)] + t[1..]
    else [t[0]] + Replace(t[1..], name, v)
  }

  /** An expression as `eval_expr` parses it; `Bad` is a factor it cannot read. */
  datatype Expr =
    | Num(n: int) | Sym(name: string) | Here | Bad
    | Not(e: Expr) | Neg(e: Expr) | Add(l: Expr, r: Expr) | Sub(l: Expr, r: Expr)

  /** `evaluate`: an unknown symbol counts as 0 and clears the flag. */
  function Eval(e: Expr, t: Table, here: int): (int, bool)
  {
    match e
    case Num(n) => (n, true)
    case Sym(name) => (
      match Lookup(t, Clip(name))
      case Some(v) => (v, true)
      case None => (0, false))
    case Here => (here, true)
    case Bad => (0, false)
    case Not(x) => var (v, ok) := Eval(x, t, here); (-v - 1, ok)
    case Neg(x) => var (v, ok) := Eval(x, t, here); (-v, ok)
    case Add(x, y) =>
      var (v, ok) := Eval(x, t, here);
      var (u, ok') := Eval(y, t, here);
      (v + u, ok && ok')
    case Sub(x, y) =>
      var (v, ok) := Eval(x, t, here);
      var (u, ok') := Eval(y, t, here);
      (v - u, ok && ok')
  }

  // ---------- number and symbol texts ----------

  function DigitOf(c: char): nat
  {
    if '0' <= c <= '9' then c as nat - '0' as nat
    else if 'A' <= c <= 'F' then c as nat - 'A' as nat + 10
    else if 'a' <= c <= 'f' then c as nat - 'a' as nat + 10
    else 99
  }

  /** `strtol` without sign or prefix: the digits up to the first that does not fit the base. */
  function Strtol(s: string, base: nat, acc: nat): nat
  {
    if s == "" || DigitOf(s[0]) >= base then acc else Strtol(s[1..], base, acc * base + DigitOf(s[0]))
  }

  /** The number branch of `eval_factor`, on a text of letters and digits that starts with a digit. */
  function Number(s: string): int
    requires s != ""
  {
    var n := |s| - 1;
    if 0 < n && s[n] in "Hh" then Strtol(s[..n], 16, 0)
    else if 0 < n && s[n] in "Bb" && forall k :: 0 <= k < n ==> s[k] in "01" then Strtol(s[..n], 2, 0)
    else if 0 < n && s[n] in "Dd" then Strtol(s[..n], 10, 0)
    else Strtol(s, 10, 0)
  }

  /** `eval_factor` on an upper-case text of letters and digits: a number if it starts with a digit, else a symbol. */
  function Factor(s: string): Expr
  {
    if s == "" then Bad
    else if '0' <= s[0] <= '9' then Num(Number(s))
    else if 'A' <= s[0] <= 'Z' then Sym(Clip(s))
    else Bad
  }

  // ---------- instructions ----------

  datatype Kind = KNone | KR8d | KR8s | KMov | KMvi | KLxi | KRp | KStk | KAx | KImm8 | KAddr | KRst | KPort

  datatype Mnemonic =
    | NOP | RLC | RRC | RAL | RAR | DAA | CMA | STC | CMC | HLT | RET | XTHL | PCHL | XCHG | DI | SPHL | EI
    | RNZ | RZ | RNC | RC | RPO | RPE | RP | RM
    | INR | DCR
    | ADD | ADC | SUB | SBB | ANA | XRA | ORA | CMP
    | MOV | MVI | LXI | INX | DCX | DAD | PUSH | POP | STAX | LDAX
    | ADI | ACI | SUI | SBI | ANI | XRI | ORI | CPI
    | JMP | JNZ | JZ | JNC | JC | JPO | JPE | JP | JM
    | CALL | CNZ | CZ | CNC | CC | CPO | CPE | CP | CM
    | LDA | STA | LHLD | SHLD | RST | IN | OUT

  /** The table MNEM: base opcode and operand kind. */
  function Row(m: Mnemonic): (byte, Kind)
  {
    match m
    case NOP => (0x00, KNone) case RLC => (0x07, KNone) case RRC => (0x0F, KNone)
    case RAL => (0x17, KNone) case RAR => (0x1F, KNone) case DAA => (0x27, KNone)
    case CMA => (0x2F, KNone) case STC => (0x37, KNone) case CMC => (0x3F, KNone)
    case HLT => (0x76, KNone) case RET => (0xC9, KNone) case XTHL => (0xE3, KNone)
    case PCHL => (0xE9, KNone) case XCHG => (0xEB, KNone) case DI => (0xF3, KNone)
    case SPHL => (0xF9, KNone) case EI => (0xFB, KNone)
    case RNZ => (0xC0, KNone) case RZ => (0xC8, KNone) case RNC => (0xD0, KNone)
    case RC => (0xD8, KNone) case RPO => (0xE0, KNone) case RPE => (0xE8, KNone)
    case RP => (0xF0, KNone) case RM => (0xF8, KNone)
    case INR => (0x04, KR8d) case DCR => (0x05, KR8d)
    case ADD => (0x80, KR8s) case ADC => (0x88, KR8s) case SUB => (0x90, KR8s) case SBB => (0x98, KR8s)
    case ANA => (0xA0, KR8s) case XRA => (0xA8, KR8s) case ORA => (0xB0, KR8s) case CMP => (0xB8, KR8s)
    case MOV => (0x40, KMov) case MVI => (0x06, KMvi) case LXI => (0x01, KLxi)
    case INX => (0x03, KRp) case DCX => (0x0B, KRp) case DAD => (0x09, KRp)
    case PUSH => (0xC5, KStk) case POP => (0xC1, KStk)
    case STAX => (0x02, KAx) case LDAX => (0x0A, KAx)
    case ADI => (0xC6, KImm8) case ACI => (0xCE, KImm8) case SUI => (0xD6, KImm8) case SBI => (0xDE, KImm8)
    case ANI => (0xE6, KImm8) case XRI => (0xEE, KImm8) case ORI => (0xF6, KImm8) case CPI => (0xFE, KImm8)
    case JMP => (0xC3, KAddr) case JNZ => (0xC2, KAddr) case JZ => (0xCA, KAddr)
    case JNC => (0xD2, KAddr) case JC => (0xDA, KAddr) case JPO => (0xE2, KAddr)
    case JPE => (0xEA, KAddr) case JP => (0xF2, KAddr) case JM => (0xFA, KAddr)
    case CALL => (0xCD, KAddr) case CNZ => (0xC4, KAddr) case CZ => (0xCC, KAddr)
    case CNC => (0xD4, KAddr) case CC => (0xDC, KAddr) case CPO => (0xE4, KAddr)
    case CPE => (0xEC, KAddr) case CP => (0xF4, KAddr) case CM => (0xFC, KAddr)
    case LDA => (0x3A, KAddr) case STA => (0x32, KAddr) case LHLD => (0x2A, KAddr) case SHLD => (0x22, KAddr)
    case RST => (0xC7, KRst) case IN => (0xDB, KPort) case OUT => (0xD3, KPort)
  }

  /** The register an operand's text names, if any. */
  datatype RegName = RegB | RegC | RegD | RegE | RegH | RegL | RegM | RegA | RegSP | RegPSW | NoReg

  /** One operand, read both as a register name and as an expression. */
  datatype Operand = Operand(reg: RegName, expr: Expr)

  /** `reg8`. */
  function Reg8(ops: seq<Operand>, k: nat): Option<nat>
  {
    if k >= |ops| then None
    else
      match ops[k].reg
      case RegB => Some(0) case RegC => Some(1) case RegD => Some(2) case RegE => Some(3)
      case RegH => Some(4) case RegL => Some(5) case RegM => Some(6) case RegA => Some(7)
      case _ => None
  }

  /** `regpair`. */
  function RegPair(ops: seq<Operand>, stack: bool): Option<nat>
  {
    if ops == [] then None
    else
      match ops[0].reg
      case RegB => Some(0) case RegD => Some(1) case RegH => Some(2)
      case RegSP => if stack then None else Some(3)
      case RegPSW => if stack then Some(3) else None
      case _ => None
  }

  /** The value of operand k, 0 when it is missing. */
  function Value(ops: seq<Operand>, k: nat, t: Table, here: int): (int, bool)
  {
    if k < |ops| then Eval(ops[k].expr, t, here) else (0, true)
  }

  function Or0(r: Option<nat>): nat { match r case Some(n) => n case None => 0 }

  function Fault(bad: bool): nat { if bad then 1 else 0 }

  function LowByte(v: int): byte { v % 256 }

  function WordBytes(v: int): seq<byte> { [LowByte(v), LowByte(v / 256)] }

  /** The bytes of an instruction, and how many errors are reported for it when emitting. */
  function Encode(m: Mnemonic, ops: seq<Operand>, t: Table, here: int): (seq<byte>, nat)
  {
    EncodeWith(m, ops, Value(ops, 0, t, here), Value(ops, 1, t, here))
  }

  /** The switch over operand kinds, given what the first two operands evaluate to. */
  function EncodeWith(m: Mnemonic, ops: seq<Operand>, first: (int, bool), second: (int, bool)): (seq<byte>, nat)
  {
    var (base, kind) := Row(m);
    var (v0, ok0) := first;
    var (v1, ok1) := second;
    var pair := RegPair(ops, kind == KStk);
    match kind
    case KNone => ([base], 0)
    case KR8d => ([LowByte(base + 8 * Or0(Reg8(ops, 0)))], Fault(Reg8(ops, 0).None?))
    case KR8s => ([LowByte(base + Or0(Reg8(ops, 0)))], Fault(Reg8(ops, 0).None?))
    case KMov =>
      var d, s := Reg8(ops, 0), Reg8(ops, 1);
      if d.None? || s.None? then ([0x40], 1) else ([LowByte(0x40 + 8 * d.value + s.value)], 0)
    case KMvi =>
      ([LowByte(base + 8 * Or0(Reg8(ops, 0))), LowByte(v1)], Fault(Reg8(ops, 0).None?) + Fault(!ok1))
    case KLxi => ([LowByte(0x01 + 16 * Or0(pair))] + WordBytes(v1), Fault(pair.None?) + Fault(!ok1))
    case KRp => ([LowByte(base + 16 * Or0(pair))], Fault(pair.None?))
    case KStk => ([LowByte(base + 16 * Or0(pair))], Fault(pair.None?))
    case KAx =>
      if pair == Some(0) || pair == Some(1) then ([LowByte(base + 16 * pair.value)], 0) else ([base], 1)
    case KImm8 => ([base, LowByte(v0)], Fault(!ok0))
    case KAddr => ([base] + WordBytes(v0), Fault(!ok0))
    case KRst => ([LowByte(0xC7 + 8 * (v0 % 8))], 0)
    case KPort => ([base, LowByte(v0)], Fault(!ok0))
  }

  // ---------- statements ----------

  datatype Verb = Instr(m: Mnemonic) | Org | End | Ds | Db | Dw | Unknown

  datatype Body = Nothing | Equ(name: string, e: Expr) | Do(verb: Verb, ops: seq<Operand>)

  /** A line: an optional label and what follows it. */
  datatype Stmt = Stmt(name: Option<string>, body: Body)

  /** The globals of the assembler; `image` has the covered addresses only. */
  datatype Asm = Asm(
    pc: int, table: Table, changed: bool, emitting: bool, errors: nat,
    size: nat, image: map<int, byte>)

  /** `err` counts always; the guards on `emitting` stand at its callers. */
  function Report(s: Asm, n: nat): Asm { s.(errors := s.errors + n) }

  /** `sym_set`, with the flag it raises. */
  function Define(s: Asm, name: string, v: int): Asm
  {
    match Lookup(s.table, name)
    case None =>
      if |s.table| >= MAX_SYMS then Report(s, 1)
      else s.(table := s.table + [Entry(Clip(name), v)], changed := true)
    case Some(u) =>
      if u == v then s else s.(table := Replace(s.table, name, v), changed := true)
  }

  function EmitByte(s: Asm, v: byte): Asm
  {
    var s1 :=
      if !s.emitting then s
      else if 0 <= s.pc < s.size then s.(image := s.image[s.pc := v])
      else Report(s, 1);
    s1.(pc := s.pc + 1)
  }

  function EmitAll(s: Asm, bs: seq<byte>): Asm
    decreases |bs|
  {
    if bs == [] then s else EmitAll(EmitByte(s, bs[0]), bs[1..])
  }

  function Complain(s: Asm, n: nat): Asm { if s.emitting then Report(s, n) else s }

  /** DB: one byte for each operand. */
  function EmitBytes(s: Asm, ops: seq<Operand>, here: int): Asm
    decreases |ops|
  {
    if ops == [] then s
    else
      var (v, ok) := Eval(ops[0].expr, s.table, here);
      EmitBytes(EmitByte(Complain(s, Fault(!ok)), LowByte(v)), ops[1..], here)
  }

  /** DW: one word for each operand. */
  function EmitWords(s: Asm, ops: seq<Operand>, here: int): Asm
    decreases |ops|
  {
    if ops == [] then s
    else
      var (v, ok) := Eval(ops[0].expr, s.table, here);
      EmitWords(EmitAll(Complain(s, Fault(!ok)), WordBytes(v)), ops[1..], here)
  }

  function Perform(s: Asm, verb: Verb, ops: seq<Operand>, here: int): Asm
  {
    match verb
    case Org => var (v, ok) := Value(ops, 0, s.table, here); if ok then s.(pc := v) else s
    case End => s
    case Ds => s.(pc := s.pc + Value(ops, 0, s.table, here).0)
    case Db => EmitBytes(s, ops, here)
    case Dw => EmitWords(s, ops, here)
    case Instr(m) =>
      var (bs, faults) := Encode(m, ops, s.table, here);
      EmitAll(Complain(s, faults), bs)
    case Unknown => Complain(s, 1)
  }

  /** The label part of `assemble_line`. */
  function Labelled(s: Asm, st: Stmt): Asm
  {
    match st.name case Some(name) => Define(s, Clip(name), s.pc) case None => s
  }

  /** `assemble_line`. */
  function Line(s: Asm, st: Stmt): Asm
  {
    var s1 := Labelled(s, st);
    match st.body
    case Nothing => s1
    case Equ(name, e) =>
      var (v, ok) := Eval(e, s1.table, s.pc);
      if ok then Define(s1, name, v) else Complain(s1, 1)
    case Do(verb, ops) => Perform(s1, verb, ops, s.pc)
  }

  /** What `main` keeps of a source file: lines beyond the buffer are not read. */
  function FirstLines(file: seq<Stmt>): seq<Stmt> { if |file| > MAX_LINES then file[..MAX_LINES] else file }

  function Lines(s: Asm, prog: seq<Stmt>): Asm
  {
    if prog == [] then s else Line(Lines(s, prog[..|prog| - 1]), prog[|prog| - 1])
  }

  // ---------- passes ----------

  /** The globals at the start of a pass. */
  function Start(t: Table, emitting: bool, size: nat): Asm { Asm(0, t, false, emitting, 0, size, map[]) }

  function Pass(t: Table, prog: seq<Stmt>): Asm { Lines(Start(t, false, 0), prog) }

  /** The symbol table after `k` passes from nothing. */
  function After(prog: seq<Stmt>, k: nat): Table
  {
    if k == 0 then [] else Pass(After(prog, k - 1), prog).table
  }

  /** Pass number `k`, counting from 1, leaves the symbols alone. */
  predicate Settles(prog: seq<Stmt>, k: nat)
    requires 0 < k
  {
    !Pass(After(prog, k - 1), prog).changed
  }

  /** Outside the emitting pass neither the image nor its size plays a part. */
  lemma {:induction false} SizeDoesNotMatter(t: Table, prog: seq<Stmt>, size: nat)
    ensures Lines(Start(t, false, size), prog) == Lines(Start(t, false, 0), prog).(size := size)
    ensures Lines(Start(t, false, size), prog).image == map[] && !Lines(Start(t, false, size), prog).emitting
  {
    hide Line;
    if prog != [] {
      var n := |prog| - 1;
      SizeDoesNotMatter(t, prog[..n], size);
      SizedLine(Lines(Start(t, false, 0), prog[..n]), prog[n], size);
    }
  }

  /** Everything but the size is the same, and nothing has been emitted. */
  ghost predicate Sized(s: Asm, t: Asm, size: nat)
  {
    t == s.(size := size) && !s.emitting
  }

  lemma SizedDefine(s: Asm, t: Asm, size: nat, name: string, v: int)
    requires Sized(s, t, size)
    ensures Sized(Define(s, name, v), Define(t, name, v), size) && Define(s, name, v).image == s.image
  {
  }

  lemma SizedPerform(s: Asm, t: Asm, size: nat, verb: Verb, ops: seq<Operand>, here: int)
    requires Sized(s, t, size)
    ensures Sized(Perform(s, verb, ops, here), Perform(t, verb, ops, here), size)
    ensures Perform(s, verb, ops, here).image == s.image
  {
    hide Encode, EmitAll, EmitBytes, EmitWords, Eval;
    SizedData(s, ops, here, size);
    if verb.Instr? {
      SizedBytes(s, Encode(verb.m, ops, s.table, here).0, size);
    }
  }

  lemma SizedLine(s: Asm, st: Stmt, size: nat)
    requires !s.emitting
    ensures Line(s.(size := size), st) == Line(s, st).(size := size)
    ensures Line(s, st).image == s.image && !Line(s, st).emitting
  {
    hide Define, Perform, Eval;
    var t := s.(size := size);
    if st.name.Some? {
      SizedDefine(s, t, size, Clip(st.name.value), s.pc);
    }
    var s1, t1 := Labelled(s, st), Labelled(t, st);
    match st.body
    case Nothing =>
    case Equ(name, e) => SizedDefine(s1, t1, size, name, Eval(e, s1.table, s.pc).0);
    case Do(verb, ops) => SizedPerform(s1, t1, size, verb, ops, s.pc);
  }

  /** The loop of `sym_find` finds the entry that `Lookup` reads and `Replace` writes. */
  lemma {:induction false} FirstMatch(t: Table, name: string, i: int, v: int)
    requires -1 <= i < |t|
    requires 0 <= i ==> t[i].name == name && forall j :: 0 <= j < i ==> t[j].name != name
    requires i < 0 ==> forall j :: 0 <= j < |t| ==> t[j].name != name
    ensures Lookup(t, name) == if i < 0 then None else Some(t[i].value)
    ensures 0 <= i ==> Replace(t, name, v) == t[i := Entry(t[i].name, v)]
    decreases |t|
  {
    if t != [] && i != 0 {
      FirstMatch(t[1..], name, if i < 0 then i else i - 1, v);
    }
  }

  lemma {:induction false} SizedBytes(s: Asm, bs: seq<byte>, size: nat)
    requires !s.emitting
    ensures EmitAll(s.(size := size), bs) == EmitAll(s, bs).(size := size)
    ensures EmitAll(s, bs).image == s.image && !EmitAll(s, bs).emitting
    decreases |bs|
  {
    if bs != [] {
      SizedBytes(EmitByte(s, bs[0]), bs[1..], size);
    }
  }

  lemma {:induction false} SizedData(s: Asm, ops: seq<Operand>, here: int, size: nat)
    requires !s.emitting
    ensures EmitBytes(s.(size := size), ops, here) == EmitBytes(s, ops, here).(size := size)
    ensures EmitWords(s.(size := size), ops, here) == EmitWords(s, ops, here).(size := size)
    ensures EmitBytes(s, ops, here).image == s.image && !EmitBytes(s, ops, here).emitting
    ensures EmitWords(s, ops, here).image == s.image && !EmitWords(s, ops, here).emitting
    decreases |ops|
  {
    hide Eval;
    if ops != [] {
      var (v, ok) := Eval(ops[0].expr, s.table, here);
      SizedData(EmitByte(s, LowByte(v)), ops[1..], here, size);
      SizedBytes(s, WordBytes(v), size);
      SizedData(EmitAll(s, WordBytes(v)), ops[1..], here, size);
    }
  }
}
