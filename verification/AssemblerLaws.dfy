// A settled pass is a consistent one: the symbol table, the labels and the EQUs agree with each
// other and with the addresses the emitting pass uses.
module AssemblerLaws {
  import opened Bits
  import opened Assembler

  // ---------- emission leaves the symbols alone ----------

  /** Only the location counter, the image and the error count move. */
  ghost predicate SameSymbols(s: Asm, t: Asm)
  {
    t.table == s.table && t.changed == s.changed && t.emitting == s.emitting && t.size == s.size
  }

  lemma {:induction false} EmitAllKeeps(s: Asm, bs: seq<byte>)
    ensures SameSymbols(s, EmitAll(s, bs)) && EmitAll(s, bs).pc == s.pc + |bs|
    decreases |bs|
  {
    if bs != [] {
      EmitAllKeeps(EmitByte(s, bs[0]), bs[1..]);
    }
  }

  lemma {:induction false} EmitBytesKeeps(s: Asm, ops: seq<Operand>, here: int)
    ensures SameSymbols(s, EmitBytes(s, ops, here)) && EmitBytes(s, ops, here).pc == s.pc + |ops|
    decreases |ops|
  {
    if ops != [] {
      var (v, ok) := Eval(ops[0].expr, s.table, here);
      EmitBytesKeeps(EmitByte(Complain(s, Fault(!ok)), LowByte(v)), ops[1..], here);
    }
  }

  lemma {:induction false} EmitWordsKeeps(s: Asm, ops: seq<Operand>, here: int)
    ensures SameSymbols(s, EmitWords(s, ops, here)) && EmitWords(s, ops, here).pc == s.pc + 2 * |ops|
    decreases |ops|
  {
    if ops != [] {
      var (v, ok) := Eval(ops[0].expr, s.table, here);
      var s1 := Complain(s, Fault(!ok));
      EmitAllKeeps(s1, WordBytes(v));
      EmitWordsKeeps(EmitAll(s1, WordBytes(v)), ops[1..], here);
    }
  }

  /** How many bytes an instruction takes: a matter of its mnemonic alone. */
  function Size(m: Mnemonic): nat
  {
    match Row(m).1
    case KMvi => 2 case KImm8 => 2 case KPort => 2
    case KLxi => 3 case KAddr => 3
    case _ => 1
  }

  lemma EncodeSize(m: Mnemonic, ops: seq<Operand>, t: Table, here: int)
    ensures |Encode(m, ops, t, here).0| == Size(m)
  {
    hide Row, Eval, RegPair, Reg8;
  }

  /** Where a statement leaves the location counter. */
  function Next(pc: int, verb: Verb, ops: seq<Operand>, t: Table): int
  {
    match verb
    case Org => var (v, ok) := Value(ops, 0, t, pc); if ok then v else pc
    case End => pc
    case Ds => pc + Value(ops, 0, t, pc).0
    case Db => pc + |ops|
    case Dw => pc + 2 * |ops|
    case Instr(m) => pc + Size(m)
    case Unknown => pc
  }

  lemma PerformKeeps(s: Asm, verb: Verb, ops: seq<Operand>)
    ensures SameSymbols(s, Perform(s, verb, ops, s.pc))
    ensures Perform(s, verb, ops, s.pc).pc == Next(s.pc, verb, ops, s.table)
  {
    hide Encode, Size;
    match verb
    case Org =>
    case End =>
    case Ds =>
    case Db => EmitBytesKeeps(s, ops, s.pc);
    case Dw => EmitWordsKeeps(s, ops, s.pc);
    case Instr(m) =>
      var (bs, faults) := Encode(m, ops, s.table, s.pc);
      EncodeSize(m, ops, s.table, s.pc);
      EmitAllKeeps(Complain(s, faults), bs);
    case Unknown =>
  }

  /** The same location, table and flag; reports, image and mode may differ. */
  ghost predicate SamePlace(s: Asm, t: Asm) { s.pc == t.pc && s.table == t.table && s.changed == t.changed }

  lemma DefinePlaces(s: Asm, t: Asm, name: string, v: int)
    requires SamePlace(s, t)
    ensures SamePlace(Define(s, name, v), Define(t, name, v)) && Define(s, name, v).pc == s.pc
  {
    hide Lookup, Replace;
  }

  lemma LinePlaces(s: Asm, t: Asm, st: Stmt)
    requires SamePlace(s, t)
    ensures SamePlace(Line(s, st), Line(t, st))
  {
    hide Perform, Next, Define, Eval;
    if st.name.Some? {
      DefinePlaces(s, t, Clip(st.name.value), s.pc);
    }
    var s1, t1 := Labelled(s, st), Labelled(t, st);
    assert SamePlace(s1, t1);
    match st.body
    case Nothing =>
    case Equ(name, e) => DefinePlaces(s1, t1, name, Eval(e, s1.table, s.pc).0);
    case Do(verb, ops) =>
      PerformKeeps(s1, verb, ops);
      PerformKeeps(t1, verb, ops);
  }

  /** What a pass does to the symbols depends on nothing but the symbols it starts from. */
  lemma {:induction false} LinesPlace(s: Asm, t: Asm, prog: seq<Stmt>)
    requires SamePlace(s, t)
    ensures SamePlace(Lines(s, prog), Lines(t, prog))
  {
    hide Line;
    if prog != [] {
      var n := |prog| - 1;
      LinesPlace(s, t, prog[..n]);
      LinePlaces(Lines(s, prog[..n]), Lines(t, prog[..n]), prog[n]);
    }
  }

  // ---------- lines that change nothing ----------

  predicate ShortName(st: Stmt) { st.body.Equ? ==> |st.body.name| <= NAME_CHARS }

  predicate ShortNames(prog: seq<Stmt>)
  {
    forall i :: 0 <= i < |prog| ==> ShortName(prog[i])
  }

  /** What a line defines agrees with the table `t` at location `pc`. */
  ghost predicate Agrees(t: Table, pc: int, st: Stmt)
  {
    && (st.name.Some? ==> Lookup(t, Clip(st.name.value)) == Some(pc))
    && (st.body.Equ? && Eval(st.body.e, t, pc).1 ==> Lookup(t, st.body.name) == Some(Eval(st.body.e, t, pc).0))
  }

  lemma {:induction false} LookupReplace(t: Table, name: string, v: int, other: string)
    requires Lookup(t, name).Some?
    ensures Lookup(Replace(t, name, v), other) == if other == name then Some(v) else Lookup(t, other)
    ensures |Replace(t, name, v)| == |t|
  {
    if t[0].name != name {
      LookupReplace(t[1..], name, v, other);
      assert Replace(t, name, v)[1..] == Replace(t[1..], name, v);
    } else {
      assert Replace(t, name, v)[1..] == t[1..];
    }
  }

  lemma {:induction false} LookupAppend(t: Table, e: Entry, other: string)
    ensures Lookup(t + [e], other) ==
            if Lookup(t, other).Some? then Lookup(t, other) else if e.name == other then Some(e.value) else None
  {
    if t == [] {
      assert ([] + [e])[1..] == [];
    } else {
      LookupAppend(t[1..], e, other);
      assert (t + [e])[1..] == t[1..] + [e];
    }
  }

  /** sym_set, in terms of what the table says afterwards. */
  lemma DefineLaw(s: Asm, name: string, v: int)
    requires |name| <= NAME_CHARS
    ensures var t := Define(s, name, v);
            && t.pc == s.pc && t.emitting == s.emitting && t.size == s.size && |s.table| <= |t.table|
            && (s.changed ==> t.changed)
            && (!t.changed && |t.table| < MAX_SYMS ==> t == s && Lookup(s.table, name) == Some(v))
            && (Lookup(s.table, name) == Some(v) ==> t == s)
            && (|s.table| < MAX_SYMS ==> t.errors == s.errors && forall other ::
                  Lookup(t.table, other) == if other == name then Some(v) else Lookup(s.table, other))
  {
    forall other | |s.table| < MAX_SYMS
      ensures Lookup(Define(s, name, v).table, other) == if other == name then Some(v) else Lookup(s.table, other)
    {
      if Lookup(s.table, name).Some? {
        LookupReplace(s.table, name, v, other);
      } else {
        LookupAppend(s.table, Entry(name, v), other);
      }
    }
    if Lookup(s.table, name).Some? {
      LookupReplace(s.table, name, v, name);
    }
  }

  lemma LineMonotone(s: Asm, st: Stmt)
    requires ShortName(st)
    ensures var t := Line(s, st);
            && (s.changed ==> t.changed) && |s.table| <= |t.table|
            && t.emitting == s.emitting && t.size == s.size
  {
    hide Define, Perform;
    if st.name.Some? {
      DefineLaw(s, Clip(st.name.value), s.pc);
    }
    var s1 := Labelled(s, st);
    match st.body
    case Nothing =>
    case Equ(name, e) => DefineLaw(s1, name, Eval(e, s1.table, s.pc).0);
    case Do(verb, ops) => PerformKeeps(s1, verb, ops);
  }

  /** A line that raises no flag, with room in the table, finds everything it defines already there. */
  lemma QuietLine(s: Asm, st: Stmt)
    requires ShortName(st) && !Line(s, st).changed && |Line(s, st).table| < MAX_SYMS
    ensures Line(s, st).table == s.table && Agrees(s.table, s.pc, st)
  {
    hide Define, Perform;
    if st.name.Some? {
      DefineLaw(s, Clip(st.name.value), s.pc);
    }
    var s1 := Labelled(s, st);
    match st.body
    case Nothing =>
    case Equ(name, e) => DefineLaw(s1, name, Eval(e, s1.table, s.pc).0);
    case Do(verb, ops) => PerformKeeps(s1, verb, ops);
  }

  /** A line that agrees with the table leaves it alone, emitting or not. */
  lemma AgreeingLine(s: Asm, st: Stmt)
    requires ShortName(st) && Agrees(s.table, s.pc, st)
    ensures SameSymbols(s, Line(s, st))
    ensures Line(s, st).pc == if st.body.Do? then Next(s.pc, st.body.verb, st.body.ops, s.table) else s.pc
  {
    hide Define, Perform;
    if st.name.Some? {
      DefineLaw(s, Clip(st.name.value), s.pc);
    }
    assert Labelled(s, st) == s;
    match st.body
    case Nothing =>
    case Equ(name, e) => DefineLaw(s, name, Eval(e, s.table, s.pc).0);
    case Do(verb, ops) => PerformKeeps(s, verb, ops);
  }

  // ---------- passes that change nothing ----------

  function Prefix(prog: seq<Stmt>, i: nat): seq<Stmt>
    requires i <= |prog|
  {
    prog[..i]
  }

  lemma {:induction false} LinesMonotone(s: Asm, prog: seq<Stmt>, i: nat)
    requires i <= |prog| && ShortNames(prog)
    ensures var u := Lines(s, Prefix(prog, i));
            var t := Lines(s, prog);
            (u.changed ==> t.changed) && |u.table| <= |t.table|
  {
    if i == |prog| {
      assert Prefix(prog, i) == prog;
    } else {
      var n := |prog| - 1;
      assert Prefix(prog[..n], i) == Prefix(prog, i);
      LinesMonotone(s, prog[..n], i);
      LineMonotone(Lines(s, prog[..n]), prog[n]);
    }
  }

  /** In a quiet pass the table stands still and every line agrees with it. */
  lemma {:induction false} QuietLines(t: Table, size: nat, prog: seq<Stmt>)
    requires ShortNames(prog)
    requires !Lines(Start(t, false, size), prog).changed && |Lines(Start(t, false, size), prog).table| < MAX_SYMS
    ensures Lines(Start(t, false, size), prog).table == t
    ensures forall i :: 0 <= i < |prog| ==> Agrees(t, Lines(Start(t, false, size), Prefix(prog, i)).pc, prog[i])
  {
    if prog != [] {
      var n := |prog| - 1;
      var s := Start(t, false, size);
      LinesMonotone(s, prog, n);
      QuietLines(t, size, prog[..n]);
      QuietLine(Lines(s, prog[..n]), prog[n]);
      forall i | 0 <= i < |prog| ensures Agrees(t, Lines(s, Prefix(prog, i)).pc, prog[i]) {
        if i < n {
          assert Prefix(prog[..n], i) == Prefix(prog, i) && prog[..n][i] == prog[i];
        }
      }
    }
  }

  /** The emitting pass walks the same addresses as the quiet one. */
  lemma {:induction false} EmittingFollows(t: Table, size: nat, prog: seq<Stmt>)
    requires ShortNames(prog)
    requires forall i :: 0 <= i < |prog| ==> Agrees(t, Lines(Start(t, false, 0), Prefix(prog, i)).pc, prog[i])
    ensures var e := Lines(Start(t, true, size), prog);
            && e.table == t && e.emitting && !e.changed
            && Lines(Start(t, false, 0), prog).table == t
            && e.pc == Lines(Start(t, false, 0), prog).pc
  {
    hide Line, Agrees, ShortName;
    if prog != [] {
      var n := |prog| - 1;
      forall i | 0 <= i < n ensures Agrees(t, Lines(Start(t, false, 0), Prefix(prog[..n], i)).pc, prog[..n][i]) {
        assert Prefix(prog[..n], i) == Prefix(prog, i);
      }
      EmittingFollows(t, size, prog[..n]);
      assert Prefix(prog, n) == prog[..n];
      AgreeingLine(Lines(Start(t, false, 0), prog[..n]), prog[n]);
      AgreeingLine(Lines(Start(t, true, size), prog[..n]), prog[n]);
    }
  }

  /**
   * The fixpoint is self-consistent. If a pass from table `t` raises no flag and the table has room,
   * the emitting pass leaves the table unchanged; at the address where the emitting pass reaches each
   * line, the line's label has that address and its EQU, if it evaluates, has its value.
   */
  lemma FixpointIsConsistent(t: Table, size: nat, prog: seq<Stmt>)
    requires ShortNames(prog) && !Pass(t, prog).changed && |t| < MAX_SYMS && |Pass(t, prog).table| < MAX_SYMS
    ensures Lines(Start(t, true, size), prog).table == t
    ensures forall i :: 0 <= i < |prog| ==>
              Agrees(t, Lines(Start(t, true, size), Prefix(prog, i)).pc, prog[i])
  {
    QuietLines(t, 0, prog);
    EmittingFollows(t, size, prog);
    forall i | 0 <= i < |prog|
      ensures Agrees(t, Lines(Start(t, true, size), Prefix(prog, i)).pc, prog[i])
    {
      forall j | 0 <= j < i
        ensures Agrees(t, Lines(Start(t, false, 0), Prefix(Prefix(prog, i), j)).pc, Prefix(prog, i)[j])
      {
        assert Prefix(Prefix(prog, i), j) == Prefix(prog, j);
      }
      EmittingFollows(t, size, Prefix(prog, i));
    }
  }

  /** The name and value a line would define, label first. */
  function Defines(t: Table, pc: int, st: Stmt): set<(string, int)>
  {
    (if st.name.Some? then {(Clip(st.name.value), pc)} else {}) +
    (if st.body.Equ? && Eval(st.body.e, t, pc).1 then {(st.body.name, Eval(st.body.e, t, pc).0)} else {})
  }

  /** No symbol has two definitions that disagree once a pass has settled. */
  lemma NoDisagreement(t: Table, size: nat, prog: seq<Stmt>, i: nat, j: nat, name: string, u: int, v: int)
    requires ShortNames(prog) && !Pass(t, prog).changed && |t| < MAX_SYMS && |Pass(t, prog).table| < MAX_SYMS
    requires i < |prog| && j < |prog|
    requires (name, u) in Defines(t, Lines(Start(t, true, size), Prefix(prog, i)).pc, prog[i])
    requires (name, v) in Defines(t, Lines(Start(t, true, size), Prefix(prog, j)).pc, prog[j])
    ensures u == v
  {
    FixpointIsConsistent(t, size, prog);
  }

  // ---------- names that do not fit ----------

  predicate Clipped(t: Table)
  {
    forall i :: 0 <= i < |t| ==> |t[i].name| <= NAME_CHARS
  }

  lemma {:induction false} ReplaceClipped(t: Table, name: string, v: int)
    requires Clipped(t)
    ensures Clipped(Replace(t, name, v))
  {
    if t != [] && t[0].name != name {
      ReplaceClipped(t[1..], name, v);
    }
  }

  lemma LineClipped(s: Asm, st: Stmt)
    requires Clipped(s.table)
    ensures Clipped(Line(s, st).table)
  {
    hide Perform, Replace, Lookup;
    forall u: Asm, name, v | Clipped(u.table) ensures Clipped(Define(u, name, v).table) {
      ReplaceClipped(u.table, name, v);
    }
    match st.body
    case Nothing =>
    case Equ(name, e) =>
    case Do(verb, ops) => PerformKeeps(Labelled(s, st), verb, ops);
  }

  lemma {:induction false} LinesClipped(s: Asm, prog: seq<Stmt>)
    requires Clipped(s.table)
    ensures Clipped(Lines(s, prog).table)
  {
    hide Line;
    if prog != [] {
      LinesClipped(s, prog[..|prog| - 1]);
      LineClipped(Lines(s, prog[..|prog| - 1]), prog[|prog| - 1]);
    }
  }

  lemma {:induction false} NotThere(t: Table, name: string)
    requires |name| > NAME_CHARS && Clipped(t)
    ensures Lookup(t, name) == None
  {
    if t != [] {
      NotThere(t[1..], name);
    }
  }

  /** sym_set keeps the flag and the table growing, whatever the name. */
  lemma LineGrows(s: Asm, st: Stmt)
    ensures (s.changed ==> Line(s, st).changed) && |s.table| <= |Line(s, st).table|
  {
    hide Perform, Lookup;
    forall u: Asm, name, v
      ensures (u.changed ==> Define(u, name, v).changed) && |u.table| <= |Define(u, name, v).table|
    {
      if Lookup(u.table, name).Some? {
        LookupReplace(u.table, name, v, name);
      }
    }
    match st.body
    case Nothing =>
    case Equ(name, e) =>
    case Do(verb, ops) => PerformKeeps(Labelled(s, st), verb, ops);
  }

  lemma {:induction false} LinesGrow(s: Asm, prog: seq<Stmt>, i: nat)
    requires i <= |prog|
    ensures var u := Lines(s, Prefix(prog, i));
            (u.changed ==> Lines(s, prog).changed) && |u.table| <= |Lines(s, prog).table|
  {
    hide Line;
    if i == |prog| {
      assert Prefix(prog, i) == prog;
    } else {
      var n := |prog| - 1;
      assert Prefix(prog[..n], i) == Prefix(prog, i);
      LinesGrow(s, prog[..n], i);
      LineGrows(Lines(s, prog[..n]), prog[n]);
    }
  }

  /** An EQU whose name does not fit a name[32] buffer. */
  predicate LongEqu(st: Stmt) { st.body.Equ? && |st.body.name| > NAME_CHARS }

  /** The program without those EQUs; their labels stay. */
  function Trimmed(prog: seq<Stmt>): (p: seq<Stmt>)
    ensures |p| == |prog| && ShortNames(p)
  {
    seq(|prog|, i requires 0 <= i < |prog| => if LongEqu(prog[i]) then Stmt(prog[i].name, Nothing) else prog[i])
  }

  /** A long EQU that evaluates never finds its own entry: it adds one, or finds no room. */
  lemma LongEquLine(s: Asm, st: Stmt)
    requires LongEqu(st) && Clipped(s.table) && !s.emitting
    ensures var u := Line(s, Stmt(st.name, Nothing));
            && (!Eval(st.body.e, u.table, s.pc).1 ==> Line(s, st) == u)
            && (Eval(st.body.e, u.table, s.pc).1 && |u.table| < MAX_SYMS ==> Line(s, st).changed)
            && (|u.table| >= MAX_SYMS ==> SamePlace(Line(s, st), u))
  {
    hide Lookup, Eval, Replace;
    LineClipped(s, Stmt(st.name, Nothing));
    NotThere(Line(s, Stmt(st.name, Nothing)).table, st.body.name);
  }

  /** Without the flag the table has not grown. */
  lemma QuietSize(s: Asm, st: Stmt)
    ensures !Line(s, st).changed ==> |Line(s, st).table| == |s.table|
  {
    hide Perform, Lookup;
    forall u: Asm, name, v
      ensures !Define(u, name, v).changed ==> !u.changed && |Define(u, name, v).table| == |u.table|
    {
      if Lookup(u.table, name).Some? {
        LookupReplace(u.table, name, v, name);
      }
    }
    match st.body
    case Nothing =>
    case Equ(name, e) =>
    case Do(verb, ops) => PerformKeeps(Labelled(s, st), verb, ops);
  }

  lemma {:induction false} QuietSizes(s: Asm, prog: seq<Stmt>)
    ensures !Lines(s, prog).changed ==> |Lines(s, prog).table| == |s.table|
  {
    hide Line;
    if prog != [] {
      var n := |prog| - 1;
      QuietSizes(s, prog[..n]);
      QuietSize(Lines(s, prog[..n]), prog[n]);
      LineGrows(Lines(s, prog[..n]), prog[n]);
    }
  }

  /** No long EQU evaluates under `t` where the trimmed program reaches its line. */
  ghost predicate LongEqusFail(t: Table, prog: seq<Stmt>)
  {
    forall i :: 0 <= i < |prog| && LongEqu(prog[i]) ==>
      !Eval(prog[i].body.e, t, Lines(Start(t, false, 0), Prefix(Trimmed(prog), i)).pc).1
  }

  /** Up to a line, a pass that stays quiet runs as over the trimmed program. */
  lemma {:induction false} QuietIsTrimmed(t: Table, prog: seq<Stmt>)
    requires Clipped(t) && |t| < MAX_SYMS && !Pass(t, prog).changed
    ensures Pass(t, Trimmed(prog)) == Pass(t, prog) && LongEqusFail(t, prog) && Pass(t, prog).table == t
  {
    hide Line, Eval, Lines, Trimmed, Clipped;
    TrimmedLines(t, prog);
    if prog != [] {
      var n := |prog| - 1;
      var u := Pass(t, prog[..n]);
      QuietStep(t, prog);
      QuietIsTrimmed(t, prog[..n]);
      if LongEqu(prog[n]) {
        QuietLongEqu(u, prog[n]);
        QuietLine(u, Stmt(prog[n].name, Nothing));
      } else {
        QuietLine(u, prog[n]);
      }
      forall i | 0 <= i < |prog| && LongEqu(prog[i])
        ensures !Eval(prog[i].body.e, t, Lines(Start(t, false, 0), Prefix(Trimmed(prog), i)).pc).1
      {
        if i < n {
          assert prog[..n][i] == prog[i] && Prefix(Trimmed(prog), i) == Prefix(Trimmed(prog[..n]), i);
        }
      }
    }
  }

  lemma TrimmedLines(t: Table, prog: seq<Stmt>)
    ensures prog == [] ==> Trimmed(prog) == [] && Pass(t, prog) == Start(t, false, 0)
    ensures prog != [] ==>
              var n := |prog| - 1;
              var st := if LongEqu(prog[n]) then Stmt(prog[n].name, Nothing) else prog[n];
              && Trimmed(prog)[..n] == Trimmed(prog[..n])
              && Pass(t, Trimmed(prog)) == Line(Pass(t, Trimmed(prog[..n])), st)
  {
    hide Line;
    if prog != [] {
      assert Trimmed(prog)[..|prog| - 1] == Trimmed(prog[..|prog| - 1]);
    }
  }

  /** A quiet pass was quiet before its last line, had room, and emitted nothing. */
  lemma QuietStep(t: Table, prog: seq<Stmt>)
    requires prog != [] && |t| < MAX_SYMS && !Pass(t, prog).changed
    ensures var u := Pass(t, prog[..|prog| - 1]);
            && !u.changed && |u.table| == |t| && !u.emitting && Pass(t, prog) == Line(u, prog[|prog| - 1])
            && |Pass(t, prog).table| == |t|
  {
    hide Line;
    var s := Start(t, false, 0);
    LinesGrow(s, prog, |prog| - 1);
    QuietSizes(s, prog);
    QuietSizes(s, prog[..|prog| - 1]);
    SizeDoesNotMatter(t, prog[..|prog| - 1], 0);
  }

  /** A long EQU that raises no flag did not evaluate, and left what its label left. */
  lemma QuietLongEqu(u: Asm, st: Stmt)
    requires LongEqu(st) && Clipped(u.table) && |u.table| < MAX_SYMS && !u.emitting && !Line(u, st).changed
    ensures Line(u, st) == Line(u, Stmt(st.name, Nothing)) && !Eval(st.body.e, u.table, u.pc).1
  {
    hide Line, Eval;
    LongEquLine(u, st);
    LabelGrows(u, st);
    QuietSize(u, st);
    QuietLine(u, Stmt(st.name, Nothing));
  }

  /** An EQU grows the table from where its label left it. */
  lemma LabelGrows(s: Asm, st: Stmt)
    requires st.body.Equ?
    ensures var v := Line(s, Stmt(st.name, Nothing));
            (v.changed ==> Line(s, st).changed) && |v.table| <= |Line(s, st).table|
  {
    hide Eval, Lookup, Replace;
    var v := Line(s, Stmt(st.name, Nothing));
    if Lookup(v.table, st.body.name).Some? {
      LookupReplace(v.table, st.body.name, Eval(st.body.e, v.table, s.pc).0, st.body.name);
    }
  }

  /** Conversely a quiet trimmed pass whose long EQUs all fail is the pass itself. */
  lemma {:induction false} FailingIsQuiet(t: Table, prog: seq<Stmt>)
    requires Clipped(t) && |t| < MAX_SYMS && !Pass(t, Trimmed(prog)).changed && LongEqusFail(t, prog)
    ensures Pass(t, prog) == Pass(t, Trimmed(prog))
  {
    hide Line, Eval;
    if prog != [] {
      var n := |prog| - 1;
      var s := Start(t, false, 0);
      assert Trimmed(prog)[..n] == Trimmed(prog[..n]) == Prefix(Trimmed(prog), n);
      LinesGrow(s, Trimmed(prog), n);
      forall i | 0 <= i < n ensures Prefix(Trimmed(prog), i) == Prefix(Trimmed(prog[..n]), i) {
      }
      FailingIsQuiet(t, prog[..n]);
      if LongEqu(prog[n]) {
        var u := Lines(s, prog[..n]);
        QuietSizes(s, Trimmed(prog));
        QuietLines(t, 0, Trimmed(prog));
        LinesClipped(s, prog[..n]);
        SizeDoesNotMatter(t, prog[..n], 0);
        LongEquLine(u, prog[n]);
      }
    }
  }

  /** With a full table a long EQU only reports. */
  lemma {:induction false} FullTable(t: Table, prog: seq<Stmt>)
    requires Clipped(t) && |t| >= MAX_SYMS
    ensures SamePlace(Pass(t, prog), Pass(t, Trimmed(prog)))
  {
    hide Line, Eval;
    if prog != [] {
      var n := |prog| - 1;
      var s := Start(t, false, 0);
      assert Trimmed(prog)[..n] == Trimmed(prog[..n]);
      FullTable(t, prog[..n]);
      var u, v := Lines(s, prog[..n]), Lines(s, Trimmed(prog)[..n]);
      LinePlaces(u, v, Trimmed(prog)[n]);
      if LongEqu(prog[n]) {
        LinesClipped(s, prog[..n]);
        LinesGrow(s, prog[..n], 0);
        assert Prefix(prog[..n], 0) == [];
        SizeDoesNotMatter(t, prog[..n], 0);
        LineGrows(u, Stmt(prog[n].name, Nothing));
        LongEquLine(u, prog[n]);
      }
    }
  }

  /**
   * When a pass settles, whatever the names. While the table has room it does exactly if the program
   * without its long EQUs does and none of those EQUs evaluates; once the table is full they play no part.
   */
  lemma SettlesWithLongNames(t: Table, prog: seq<Stmt>)
    requires Clipped(t)
    ensures !Pass(t, prog).changed <==>
            !Pass(t, Trimmed(prog)).changed && (|t| < MAX_SYMS ==> LongEqusFail(t, prog))
  {
    hide Line, Eval, Pass, LongEqusFail;
    if |t| >= MAX_SYMS {
      FullTable(t, prog);
    } else {
      if !Pass(t, prog).changed {
        QuietIsTrimmed(t, prog);
      }
      if !Pass(t, Trimmed(prog)).changed && LongEqusFail(t, prog) {
        FailingIsQuiet(t, prog);
      }
    }
  }

  /** Why names must fit: with room in the table, a long EQU that evaluates changes every pass. */
  lemma LongNameNeverSettles(t: Table, prog: seq<Stmt>, i: nat)
    requires Clipped(t) && |t| < MAX_SYMS && i < |prog| && LongEqu(prog[i])
    requires Eval(prog[i].body.e, t, Lines(Start(t, false, 0), Prefix(Trimmed(prog), i)).pc).1
    ensures Pass(t, prog).changed
  {
    SettlesWithLongNames(t, prog);
  }

  lemma OneLine(t: Table, st: Stmt)
    ensures Pass(t, [st]) == Line(Start(t, false, 0), st)
  {
    hide Line;
    assert [st][..0] == [] && Lines(Start(t, false, 0), []) == Start(t, false, 0);
  }

  /** An EQU of a number takes one more entry under a long name, and a full table settles in spite of it. */
  lemma FullTableSettles(t: Table, name: string, n: int)
    requires |name| > NAME_CHARS && Clipped(t)
    ensures var u := Pass(t, [Stmt(None, Equ(name, Num(n)))]);
            if |t| < MAX_SYMS then u.changed && |u.table| == |t| + 1 else !u.changed && u.table == t
  {
    hide Lookup, Clip, Replace, Pass;
    OneLine(t, Stmt(None, Equ(name, Num(n))));
    NotThere(t, name);
  }

  /** The tables a run goes through have clipped names. */
  lemma {:induction false} AfterIsClipped(prog: seq<Stmt>, k: nat)
    ensures Clipped(After(prog, k))
  {
    hide Lines;
    if k > 0 {
      AfterIsClipped(prog, k - 1);
      LinesClipped(Start(After(prog, k - 1), false, 0), prog);
    }
  }

  /** So for every pass of a run: the condition on the k-th. */
  lemma PassesWithLongNames(prog: seq<Stmt>, k: nat)
    requires 0 < k
    ensures var t := After(prog, k - 1);
            Settles(prog, k) <==>
            !Pass(t, Trimmed(prog)).changed && (|t| < MAX_SYMS ==> LongEqusFail(t, prog))
  {
    hide Pass, LongEqusFail, Clipped;
    AfterIsClipped(prog, k - 1);
    SettlesWithLongNames(After(prog, k - 1), prog);
  }

  /** The smallest such program: one EQU, which takes an entry in every pass until the table is full. */
  lemma {:induction false} LongNameFillsTable(name: string, n: int, k: nat)
    requires |name| > NAME_CHARS
    ensures var prog := [Stmt(None, Equ(name, Num(n)))];
            && |After(prog, k)| == (if k <= 1024 then k else 1024)
            && (0 < k ==> (Settles(prog, k) <==> k > 1024))
  {
    hide Pass;
    if k > 0 {
      var prog := [Stmt(None, Equ(name, Num(n)))];
      LongNameFillsTable(name, n, k - 1);
      AfterIsClipped(prog, k - 1);
      FullTableSettles(After(prog, k - 1), name, n);
    }
  }
}
