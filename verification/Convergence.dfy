// When the repeated passes of tools/umkasm.c settle: symbol values never change once set, and the
// number of passes is the longest chain of forward references plus two.
module Convergence {
  import opened Assembler
  import opened AssemblerLaws

  // ---------- programs as lists of definitions ----------

  datatype Source = Label(at: int) | Formula(e: Expr, here: int)

  datatype Def = Def(name: string, source: Source)

  function SymFree(e: Expr): bool
  {
    match e
    case Num(_) => true
    case Sym(_) => false
    case Here => true
    case Bad => true
    case Not(x) => SymFree(x)
    case Neg(x) => SymFree(x)
    case Add(x, y) => SymFree(x) && SymFree(y)
    case Sub(x, y) => SymFree(x) && SymFree(y)
  }

  /** ORG and DS do not depend on symbols. */
  predicate Placed(st: Stmt)
  {
    st.body.Do? && (st.body.verb.Org? || st.body.verb.Ds?) && st.body.ops != [] ==> SymFree(st.body.ops[0].expr)
  }

  predicate AllPlaced(prog: seq<Stmt>)
  {
    forall i :: 0 <= i < |prog| ==> Placed(prog[i])
  }

  lemma {:induction false} SymFreeEval(e: Expr, t: Table, u: Table, here: int)
    requires SymFree(e)
    ensures Eval(e, t, here) == Eval(e, u, here)
  {
    match e
    case Num(_) =>
    case Here =>
    case Bad =>
    case Not(x) => SymFreeEval(x, t, u, here);
    case Neg(x) => SymFreeEval(x, t, u, here);
    case Add(x, y) => SymFreeEval(x, t, u, here); SymFreeEval(y, t, u, here);
    case Sub(x, y) => SymFreeEval(x, t, u, here); SymFreeEval(y, t, u, here);
  }

  /** The location counter after a line, whatever the symbols. */
  function NextPc(pc: int, st: Stmt): int
  {
    if st.body.Do? then Next(pc, st.body.verb, st.body.ops, []) else pc
  }

  /** The location counter at the end of a program. */
  function EndPc(prog: seq<Stmt>): int
  {
    if prog == [] then 0 else NextPc(EndPc(prog[..|prog| - 1]), prog[|prog| - 1])
  }

  /** What a line at `pc` defines, in order. */
  function DefsOf(st: Stmt, pc: int): seq<Def>
  {
    (if st.name.Some? then [Def(Clip(st.name.value), Label(pc))] else []) +
    (if st.body.Equ? then [Def(st.body.name, Formula(st.body.e, pc))] else [])
  }

  function Defs(prog: seq<Stmt>): seq<Def>
  {
    if prog == [] then []
    else Defs(prog[..|prog| - 1]) + DefsOf(prog[|prog| - 1], EndPc(prog[..|prog| - 1]))
  }

  /** The value a definition gives, if it evaluates. */
  function Given(d: Def, t: Table): (int, bool)
  {
    match d.source
    case Label(at) => (at, true)
    case Formula(e, here) => Eval(e, t, here)
  }

  /** One definition met during a pass: the table and the flag. */
  function Meet(r: (Table, bool), d: Def): (Table, bool)
  {
    var (v, ok) := Given(d, r.0);
    if !ok then r
    else
      match Lookup(r.0, d.name)
      case None => if |r.0| >= MAX_SYMS then r else (r.0 + [Entry(Clip(d.name), v)], true)
      case Some(u) => if u == v then r else (Replace(r.0, d.name, v), true)
  }

  function MeetAll(r: (Table, bool), ds: seq<Def>): (Table, bool)
  {
    if ds == [] then r else Meet(MeetAll(r, ds[..|ds| - 1]), ds[|ds| - 1])
  }

  lemma {:induction false} MeetAllSplits(r: (Table, bool), ds: seq<Def>, es: seq<Def>)
    ensures MeetAll(r, ds + es) == MeetAll(MeetAll(r, ds), es)
  {
    hide Meet;
    if es == [] {
      assert ds + es == ds;
    } else {
      var n := |es| - 1;
      assert (ds + es)[..|ds + es| - 1] == ds + es[..n];
      MeetAllSplits(r, ds, es[..n]);
    }
  }

  lemma MeetOne(r: (Table, bool), d: Def)
    ensures MeetAll(r, [d]) == Meet(r, d)
  {
    assert [d][..0] == [];
  }

  lemma LabelMeets(s: Asm, st: Stmt)
    ensures var t := Labelled(s, st);
            && (t.table, t.changed) == MeetAll((s.table, s.changed), DefsOf(st.(body := Nothing), s.pc))
            && t.pc == s.pc
  {
    if st.name.Some? {
      MeetOne((s.table, s.changed), Def(Clip(st.name.value), Label(s.pc)));
    }
  }

  lemma EquMeets(s: Asm, pc: int, name: string, e: Expr)
    ensures var (v, ok) := Eval(e, s.table, pc);
            var t := if ok then Define(s, name, v) else Complain(s, 1);
            (t.table, t.changed) == MeetAll((s.table, s.changed), [Def(name, Formula(e, pc))]) && t.pc == s.pc
  {
    MeetOne((s.table, s.changed), Def(name, Formula(e, pc)));
  }

  lemma LineMeets(s: Asm, st: Stmt)
    requires Placed(st)
    ensures (Line(s, st).table, Line(s, st).changed) == MeetAll((s.table, s.changed), DefsOf(st, s.pc))
    ensures Line(s, st).pc == NextPc(s.pc, st)
  {
    hide Perform, Define, Eval, Meet, MeetAll, Labelled;
    var s1 := Labelled(s, st);
    LabelMeets(s, st);
    match st.body
    case Nothing =>
    case Equ(name, e) =>
      EquMeets(s1, s.pc, name, e);
      MeetAllSplits((s.table, s.changed), DefsOf(st.(body := Nothing), s.pc), [Def(name, Formula(e, s.pc))]);
      assert DefsOf(st, s.pc) == DefsOf(st.(body := Nothing), s.pc) + [Def(name, Formula(e, s.pc))];
    case Do(verb, ops) =>
      PerformKeeps(s1, verb, ops);
      PlacedNext(s.pc, st, s1.table);
  }

  lemma PlacedNext(pc: int, st: Stmt, t: Table)
    requires Placed(st) && st.body.Do?
    ensures Next(pc, st.body.verb, st.body.ops, t) == NextPc(pc, st)
  {
    if (st.body.verb.Org? || st.body.verb.Ds?) && st.body.ops != [] {
      SymFreeEval(st.body.ops[0].expr, t, [], pc);
    }
  }

  /** A pass is its definitions met in order. */
  lemma {:induction false} PassMeets(t: Table, emitting: bool, size: nat, prog: seq<Stmt>)
    requires AllPlaced(prog)
    ensures var e := Lines(Start(t, emitting, size), prog);
            (e.table, e.changed) == MeetAll((t, false), Defs(prog)) && e.pc == EndPc(prog)
  {
    hide Line, Meet, NextPc;
    if prog != [] {
      var n := |prog| - 1;
      PassMeets(t, emitting, size, prog[..n]);
      LineMeets(Lines(Start(t, emitting, size), prog[..n]), prog[n]);
      MeetAllSplits((t, false), Defs(prog[..n]), DefsOf(prog[n], EndPc(prog[..n])));
    }
  }

  // ---------- tables that only grow ----------

  predicate Known(t: Table, name: string) { Lookup(t, name).Some? }

  function Names(t: Table): set<string> { set e | e in t :: e.name }

  function DefNames(ds: seq<Def>): set<string> { set d | d in ds :: d.name }

  predicate Distinct(t: Table)
  {
    forall i, j :: 0 <= i < j < |t| ==> t[i].name != t[j].name
  }

  /** Symbols defined once, with names that fit, and room for all of them. */
  predicate WellFormed(ds: seq<Def>)
  {
    && (forall i :: 0 <= i < |ds| ==> |ds[i].name| <= NAME_CHARS)
    && (forall i, j :: 0 <= i < j < |ds| ==> ds[i].name != ds[j].name)
    && |ds| <= MAX_SYMS
  }

  lemma {:induction false} KnownIsNamed(t: Table, name: string)
    ensures Known(t, name) <==> name in Names(t)
  {
    if t != [] {
      KnownIsNamed(t[1..], name);
      assert Names(t) == {t[0].name} + Names(t[1..]);
    }
  }

  lemma {:induction false} DistinctCount(t: Table)
    requires Distinct(t)
    ensures |Names(t)| == |t|
  {
    if t != [] {
      DistinctCount(t[1..]);
      assert Names(t) == {t[0].name} + Names(t[1..]);
      assert t[0].name !in Names(t[1..]);
    }
  }

  lemma {:induction false} DefCount(ds: seq<Def>)
    ensures |DefNames(ds)| <= |ds|
  {
    if ds != [] {
      DefCount(ds[1..]);
      assert DefNames(ds) == {ds[0].name} + DefNames(ds[1..]);
    }
  }

  lemma SubsetCount(a: set<string>, b: set<string>)
    requires a <= b
    ensures |a| <= |b|
  {
    assert b == a + (b - a);
  }

  /** Every symbol in the table has the value its definition gives under the table. */
  ghost predicate Consistent(t: Table, ds: seq<Def>)
  {
    && Distinct(t) && Names(t) <= DefNames(ds)
    && forall i :: 0 <= i < |ds| && Known(t, ds[i].name) ==> Given(ds[i], t) == (Lookup(t, ds[i].name).value, true)
  }

  ghost predicate Extends(t: Table, u: Table)
  {
    forall name :: Known(t, name) ==> Lookup(u, name) == Lookup(t, name)
  }

  function Syms(e: Expr): set<string>
  {
    match e
    case Num(_) => {}
    case Sym(name) => {Clip(name)}
    case Here => {}
    case Bad => {}
    case Not(x) => Syms(x)
    case Neg(x) => Syms(x)
    case Add(x, y) => Syms(x) + Syms(y)
    case Sub(x, y) => Syms(x) + Syms(y)
  }

  predicate Readable(e: Expr)
  {
    match e
    case Num(_) => true
    case Sym(_) => true
    case Here => true
    case Bad => false
    case Not(x) => Readable(x)
    case Neg(x) => Readable(x)
    case Add(x, y) => Readable(x) && Readable(y)
    case Sub(x, y) => Readable(x) && Readable(y)
  }

  /** An expression evaluates exactly when it is readable and its symbols are known. */
  lemma {:induction false} EvalKnows(e: Expr, t: Table, here: int)
    ensures Eval(e, t, here).1 <==> Readable(e) && forall name :: name in Syms(e) ==> Known(t, name)
  {
    match e
    case Num(_) =>
    case Sym(name) =>
      assert Clip(name) in Syms(e);
      assert Eval(e, t, here).1 <==> Known(t, Clip(name));
    case Here =>
    case Bad =>
    case Not(x) => EvalKnows(x, t, here);
    case Neg(x) => EvalKnows(x, t, here);
    case Add(x, y) => EvalKnows(x, t, here); EvalKnows(y, t, here);
    case Sub(x, y) => EvalKnows(x, t, here); EvalKnows(y, t, here);
  }

  lemma {:induction false} EvalExtends(e: Expr, t: Table, u: Table, here: int)
    requires Extends(t, u) && Eval(e, t, here).1
    ensures Eval(e, u, here) == Eval(e, t, here)
  {
    match e
    case Num(_) =>
    case Sym(name) => assert Known(t, Clip(name));
    case Here =>
    case Bad =>
    case Not(x) => EvalExtends(x, t, u, here);
    case Neg(x) => EvalExtends(x, t, u, here);
    case Add(x, y) => EvalExtends(x, t, u, here); EvalExtends(y, t, u, here);
    case Sub(x, y) => EvalExtends(x, t, u, here); EvalExtends(y, t, u, here);
  }

  lemma GivenExtends(d: Def, t: Table, u: Table)
    requires Extends(t, u) && Given(d, t).1
    ensures Given(d, u) == Given(d, t)
  {
    if d.source.Formula? {
      EvalExtends(d.source.e, t, u, d.source.here);
    }
  }

  lemma RoomForOneMore(t: Table, ds: seq<Def>, name: string)
    requires WellFormed(ds) && Distinct(t) && Names(t) <= DefNames(ds)
    requires name in DefNames(ds) && !Known(t, name)
    ensures |t| < MAX_SYMS
  {
    KnownIsNamed(t, name);
    DistinctCount(t);
    DefCount(ds);
    SubsetCount(Names(t) + {name}, DefNames(ds));
  }

  /** The table with one new symbol. */
  lemma Grown(t: Table, name: string, v: int, other: string)
    requires !Known(t, name)
    ensures Lookup(t + [Entry(name, v)], other) == if other == name then Some(v) else Lookup(t, other)
  {
    LookupAppend(t, Entry(name, v), other);
  }

  lemma GrownStaysConsistent(t: Table, ds: seq<Def>, i: nat)
    requires WellFormed(ds) && Consistent(t, ds) && i < |ds| && !Known(t, ds[i].name) && Given(ds[i], t).1
    ensures var u := t + [Entry(ds[i].name, Given(ds[i], t).0)];
            Consistent(u, ds) && Extends(t, u)
  {
    hide Lookup, Given;
    var name, v := ds[i].name, Given(ds[i], t).0;
    var u := t + [Entry(name, v)];
    forall other ensures Lookup(u, other) == if other == name then Some(v) else Lookup(t, other) {
      Grown(t, name, v, other);
    }
    forall j | 0 <= j < |ds| && Known(u, ds[j].name) ensures Given(ds[j], u) == (Lookup(u, ds[j].name).value, true) {
      GivenExtends(ds[j], t, u);
    }
    KnownIsNamed(t, name);
    assert Names(u) == Names(t) + {name};
    assert ds[i] in ds;
  }

  /** Meeting a definition adds its symbol when it evaluates, and never changes a symbol that has a value. */
  lemma MeetLaw(t: Table, c: bool, ds: seq<Def>, i: nat)
    requires WellFormed(ds) && Consistent(t, ds) && i < |ds|
    ensures var (u, d) := Meet((t, c), ds[i]);
            && Consistent(u, ds) && Extends(t, u)
            && (forall name :: Known(u, name) <==> Known(t, name) || (name == ds[i].name && Given(ds[i], t).1))
            && (d <==> c || (!Known(t, ds[i].name) && Given(ds[i], t).1))
  {
    hide Lookup, Given, Replace;
    var name := ds[i].name;
    if Given(ds[i], t).1 && !Known(t, name) {
      assert ds[i] in ds;
      RoomForOneMore(t, ds, name);
      GrownStaysConsistent(t, ds, i);
      forall other ensures Known(t + [Entry(name, Given(ds[i], t).0)], other) <==> Known(t, other) || other == name {
        Grown(t, name, Given(ds[i], t).0, other);
      }
    }
  }

  // ---------- forward references ----------

  /**
   * Definition i gets a value through at most `d` forward references: every symbol of its formula is
   * defined before it, at depth d, or at or after it, at depth d - 1.
   */
  predicate Grounded(ds: seq<Def>, i: nat, d: nat)
    requires i < |ds|
    decreases d, i
  {
    match ds[i].source
    case Label(_) => true
    case Formula(e, _) =>
      Readable(e) && forall name :: name in Syms(e) ==>
        exists j :: 0 <= j < |ds| && ds[j].name == name &&
          if j < i then Grounded(ds, j, d) else 0 < d && Grounded(ds, j, d - 1)
  }

  /** Known after the first `i` definitions of pass d + 1. */
  predicate Settled(ds: seq<Def>, j: nat, i: nat, d: nat)
    requires j < |ds|
  {
    if j < i then Grounded(ds, j, d) else 0 < d && Grounded(ds, j, d - 1)
  }

  lemma {:induction false} DeeperIsGrounded(ds: seq<Def>, i: nat, d: nat)
    requires i < |ds| && Grounded(ds, i, d)
    ensures Grounded(ds, i, d + 1)
    decreases d, i
  {
    if ds[i].source.Formula? {
      forall name | name in Syms(ds[i].source.e)
        ensures exists j :: 0 <= j < |ds| && ds[j].name == name &&
                  if j < i then Grounded(ds, j, d + 1) else 0 < d + 1 && Grounded(ds, j, d)
      {
        var j :| 0 <= j < |ds| && ds[j].name == name &&
          if j < i then Grounded(ds, j, d) else 0 < d && Grounded(ds, j, d - 1);
        if j < i {
          DeeperIsGrounded(ds, j, d);
        } else {
          DeeperIsGrounded(ds, j, d - 1);
        }
      }
    }
  }

  /** The table knows exactly the settled symbols. */
  ghost predicate KnowsSettled(t: Table, ds: seq<Def>, i: nat, d: nat)
  {
    && Consistent(t, ds)
    && forall j :: 0 <= j < |ds| ==> (Known(t, ds[j].name) <==> Settled(ds, j, i, d))
  }

  lemma KnownNamesAreDefs(t: Table, ds: seq<Def>, name: string)
    requires Consistent(t, ds) && Known(t, name)
    ensures exists j :: 0 <= j < |ds| && ds[j].name == name
  {
    KnownIsNamed(t, name);
  }

  /** A definition evaluates when it is met exactly if it is grounded. */
  lemma GivenIfGrounded(t: Table, ds: seq<Def>, i: nat, d: nat)
    requires WellFormed(ds) && i < |ds| && KnowsSettled(t, ds, i, d)
    ensures Given(ds[i], t).1 <==> Grounded(ds, i, d)
  {
    hide Lookup;
    if ds[i].source.Formula? {
      var e := ds[i].source.e;
      EvalKnows(e, t, ds[i].source.here);
      forall name
        ensures Known(t, name) <==> exists j :: 0 <= j < |ds| && ds[j].name == name && Settled(ds, j, i, d)
      {
        if Known(t, name) {
          KnownNamesAreDefs(t, ds, name);
        }
      }
    }
  }

  lemma MeetSettles(t: Table, c: bool, ds: seq<Def>, i: nat, d: nat)
    requires WellFormed(ds) && i < |ds| && KnowsSettled(t, ds, i, d)
    ensures var (u, c') := Meet((t, c), ds[i]);
            && KnowsSettled(u, ds, i + 1, d) && Extends(t, u)
            && (c' <==> c || (Grounded(ds, i, d) && !(0 < d && Grounded(ds, i, d - 1))))
  {
    hide Meet, Lookup, Given, Grounded;
    MeetLaw(t, c, ds, i);
    GivenIfGrounded(t, ds, i, d);
    if 0 < d && Grounded(ds, i, d - 1) {
      DeeperIsGrounded(ds, i, d - 1);
    }
  }

  /** Some of the first `i` definitions become grounded at depth d and were not before. */
  predicate Fresh(ds: seq<Def>, i: nat, d: nat)
    requires i <= |ds|
  {
    exists j :: 0 <= j < i && Grounded(ds, j, d) && !(0 < d && Grounded(ds, j, d - 1))
  }

  lemma {:induction false} PassSettles(t: Table, ds: seq<Def>, i: nat, d: nat)
    requires WellFormed(ds) && i <= |ds| && KnowsSettled(t, ds, 0, d)
    ensures var (u, c) := MeetAll((t, false), ds[..i]);
            KnowsSettled(u, ds, i, d) && Extends(t, u) && (c <==> Fresh(ds, i, d))
  {
    hide Meet, Lookup, Given, Grounded;
    if i > 0 {
      PassSettles(t, ds, i - 1, d);
      assert ds[..i][..i - 1] == ds[..i - 1];
      var (u, c) := MeetAll((t, false), ds[..i - 1]);
      MeetSettles(u, c, ds, i - 1, d);
    }
  }

  // ---------- the passes of a program ----------

  /** The programs whose passes converge: ORG and DS free of symbols, names short and defined once. */
  predicate Orderly(prog: seq<Stmt>)
  {
    AllPlaced(prog) && WellFormed(Defs(prog))
  }

  /** After d + 1 passes exactly the symbols grounded at depth d have values, and earlier values stand. */
  lemma {:induction false} PassesSettle(prog: seq<Stmt>, d: nat)
    requires Orderly(prog)
    ensures KnowsSettled(After(prog, d), Defs(prog), 0, d)
    ensures Extends(After(prog, d), After(prog, d + 1))
    ensures Settles(prog, d + 1) <==> !Fresh(Defs(prog), |Defs(prog)|, d)
  {
    hide Lines, Meet, MeetAll, Lookup, Given, Grounded;
    var ds := Defs(prog);
    if d > 0 {
      PassesSettle(prog, d - 1);
      PassSettles(After(prog, d - 1), ds, |ds|, d - 1);
      PassMeets(After(prog, d - 1), false, 0, prog);
      assert ds[..|ds|] == ds;
    } else {
      assert Names([]) == {};
      EmptyKnowsNothing(ds);
    }
    PassSettles(After(prog, d), ds, |ds|, d);
    PassMeets(After(prog, d), false, 0, prog);
    assert ds[..|ds|] == ds;
  }

  lemma EmptyKnowsNothing(ds: seq<Def>)
    ensures KnowsSettled([], ds, 0, 0)
  {
  }

  /** A symbol that has a value after k passes has that value after every later pass. */
  lemma {:induction false} ValuesNeverChange(prog: seq<Stmt>, k: nat, n: nat, name: string)
    requires Orderly(prog) && k <= n && Known(After(prog, k), name)
    ensures Lookup(After(prog, n), name) == Lookup(After(prog, k), name)
    decreases n
  {
    hide Lookup, After;
    if k < n {
      ValuesNeverChange(prog, k, n - 1, name);
      PassesSettle(prog, n - 1);
    }
  }

  lemma {:induction false} GroundedFromTo(ds: seq<Def>, i: nat, c: nat, d: nat)
    requires i < |ds| && c <= d && Grounded(ds, i, c)
    ensures Grounded(ds, i, d)
    decreases d
  {
    hide Grounded;
    if c < d {
      GroundedFromTo(ds, i, c, d - 1);
      DeeperIsGrounded(ds, i, d - 1);
    }
  }

  /** `depth` is the longest chain of forward references among the symbols that ever get a value. */
  ghost predicate LongestChain(ds: seq<Def>, depth: nat)
  {
    && (forall i, d :: 0 <= i < |ds| && Grounded(ds, i, d) ==> Grounded(ds, i, depth))
    && (0 < depth ==> exists i :: 0 <= i < |ds| && Grounded(ds, i, depth) && !Grounded(ds, i, depth - 1))
  }

  /** If nothing new is grounded at one depth, nothing is at the next. */
  lemma {:induction false} QuietStaysQuiet(ds: seq<Def>, d: nat, i: nat)
    requires 0 < d && i <= |ds| && !Fresh(ds, |ds|, d)
    ensures !Fresh(ds, i, d + 1)
  {
    if i > 0 {
      QuietStaysQuiet(ds, d, i - 1);
      var k := i - 1;
      if Grounded(ds, k, d + 1) && ds[k].source.Formula? {
        forall name | name in Syms(ds[k].source.e)
          ensures exists j :: 0 <= j < |ds| && ds[j].name == name &&
                    if j < k then Grounded(ds, j, d) else 0 < d && Grounded(ds, j, d - 1)
        {
          var j :| 0 <= j < |ds| && ds[j].name == name &&
            if j < k then Grounded(ds, j, d + 1) else 0 < d + 1 && Grounded(ds, j, d);
          assert j < k ==> !(Grounded(ds, j, d + 1) && !Grounded(ds, j, d));
        }
        assert Grounded(ds, k, d);
      }
    }
  }

  /** How many of the first `i` definitions are grounded at depth d. */
  function GroundedCount(ds: seq<Def>, i: nat, d: nat): (n: nat)
    requires i <= |ds|
    ensures n <= i
  {
    if i == 0 then 0 else GroundedCount(ds, i - 1, d) + if Grounded(ds, i - 1, d) then 1 else 0
  }

  lemma {:induction false} CountGrows(ds: seq<Def>, i: nat, d: nat)
    requires i <= |ds| && 0 < d
    ensures GroundedCount(ds, i, d - 1) <= GroundedCount(ds, i, d)
    ensures Fresh(ds, i, d) ==> GroundedCount(ds, i, d - 1) < GroundedCount(ds, i, d)
  {
    hide Grounded;
    if i > 0 {
      CountGrows(ds, i - 1, d);
      if Grounded(ds, i - 1, d - 1) {
        DeeperIsGrounded(ds, i - 1, d - 1);
      }
    }
  }

  lemma {:induction false} CountStarts(ds: seq<Def>, i: nat)
    requires i <= |ds|
    ensures Fresh(ds, i, 0) ==> 0 < GroundedCount(ds, i, 0)
  {
    hide Grounded;
    if i > 0 {
      CountStarts(ds, i - 1);
    }
  }

  /** The first depth from `d` on at which nothing becomes grounded, or one more than there are definitions. */
  function Quiet(ds: seq<Def>, d: nat): nat
    decreases |ds| + 1 - d
  {
    if d > |ds| || !Fresh(ds, |ds|, d) then d else Quiet(ds, d + 1)
  }

  /** Every depth that grounds something new takes a definition of its own, so a quiet one comes. */
  lemma {:induction false} QuietComes(ds: seq<Def>, d: nat)
    requires d <= |ds| + 1 && (0 < d ==> d <= GroundedCount(ds, |ds|, d - 1))
    ensures d <= Quiet(ds, d) <= |ds| && !Fresh(ds, |ds|, Quiet(ds, d))
    ensures forall c: nat :: d <= c < Quiet(ds, d) ==> Fresh(ds, |ds|, c)
    decreases |ds| + 1 - d
  {
    hide Fresh, Grounded;
    if d <= |ds| && Fresh(ds, |ds|, d) {
      if d == 0 {
        CountStarts(ds, |ds|);
      } else {
        CountGrows(ds, |ds|, d);
      }
      QuietComes(ds, d + 1);
    }
  }

  /** The pass that settles: the first whose depth grounds nothing new. */
  function Settling(prog: seq<Stmt>): nat { Quiet(Defs(prog), 0) + 1 }

  /** The longest chain of forward references among the symbols that get a value. */
  function Depth(ds: seq<Def>): nat { if Quiet(ds, 0) == 0 then 0 else Quiet(ds, 0) - 1 }

  /** It exists for every list of definitions, and nothing else is a longest chain unless nothing is grounded. */
  lemma DepthIsLongestChain(ds: seq<Def>, depth: nat)
    ensures Depth(ds) <= |ds| && LongestChain(ds, Depth(ds))
    ensures LongestChain(ds, depth) ==> depth == Depth(ds)
  {
    hide Grounded;
    QuietComes(ds, 0);
    var q := Quiet(ds, 0);
    QuietIsTop(ds, q);
    if q > 0 {
      assert Fresh(ds, |ds|, q - 1);
      assert forall i :: 0 <= i < |ds| && Grounded(ds, i, q) ==> Grounded(ds, i, q - 1);
    } else {
      assert forall i :: 0 <= i < |ds| ==> !Grounded(ds, i, 0);
    }
    if LongestChain(ds, depth) {
      OneLongestChain(ds, Depth(ds), depth);
      OneLongestChain(ds, depth, Depth(ds));
    }
  }

  lemma OneLongestChain(ds: seq<Def>, a: nat, b: nat)
    requires LongestChain(ds, a) && LongestChain(ds, b)
    ensures a <= b
  {
    hide Grounded;
    if b < a {
      var i :| 0 <= i < |ds| && Grounded(ds, i, a) && !Grounded(ds, i, a - 1);
      GroundedFromTo(ds, i, b, a - 1);
    }
  }

  /** Some definition gets a value at all: one that refers only to what stands before it. */
  predicate AnyGrounded(ds: seq<Def>) { Fresh(ds, |ds|, 0) }

  /**
   * Convergence. The passes settle: from the longest chain of forward references plus two on a pass
   * changes nothing, and every earlier one changes something; at once if no symbol ever gets a value.
   */
  lemma PassesToConverge(prog: seq<Stmt>, k: nat)
    requires Orderly(prog) && 0 < k
    ensures Settles(prog, k) <==> k >= Settling(prog)
    ensures Settling(prog) == if AnyGrounded(Defs(prog)) then Depth(Defs(prog)) + 2 else 1
    ensures Settling(prog) <= |Defs(prog)| + 1
  {
    hide Fresh, Pass;
    var ds := Defs(prog);
    var d := k - 1;
    QuietComes(ds, 0);
    PassesSettle(prog, d);
    if d > Quiet(ds, 0) {
      if Quiet(ds, 0) > 0 {
        StillQuiet(ds, Quiet(ds, 0), d);
      } else {
        NothingFresh(ds, d);
      }
    }
  }

  lemma NothingFresh(ds: seq<Def>, d: nat)
    requires !Fresh(ds, |ds|, 0)
    ensures !Fresh(ds, |ds|, d)
  {
    hide Grounded;
    forall i | 0 <= i < |ds| ensures !Grounded(ds, i, d) {
      NothingFromNothing(ds, i, d);
    }
  }

  /** The sixteen passes of `main` suffice exactly up to fourteen forward references in a chain. */
  lemma SixteenPasses(prog: seq<Stmt>)
    requires Orderly(prog)
    ensures Settling(prog) <= MAX_PASSES <==> Depth(Defs(prog)) <= 14
  {
    PassesToConverge(prog, 1);
  }

  lemma {:induction false} NothingFromNothing(ds: seq<Def>, i: nat, d: nat)
    requires i < |ds| && forall j :: 0 <= j < |ds| ==> !Grounded(ds, j, 0)
    ensures !Grounded(ds, i, d)
    decreases d, i
  {
    assert !Grounded(ds, i, 0);
    if Grounded(ds, i, d) {
      var e := ds[i].source.e;
      var name :| name in Syms(e);
      var j :| 0 <= j < |ds| && ds[j].name == name &&
        if j < i then Grounded(ds, j, d) else 0 < d && Grounded(ds, j, d - 1);
      NothingFromNothing(ds, j, if j < i then d else d - 1);
    }
  }

  // ---------- cycles ----------

  /** Formulas that only lead to each other, to symbols nobody defines, or to text that is no factor. */
  predicate Stuck(ds: seq<Def>, X: set<nat>)
  {
    forall i :: i in X ==>
      i < |ds| && ds[i].source.Formula? &&
      (!Readable(ds[i].source.e) ||
       exists name :: name in Syms(ds[i].source.e) && forall j: nat :: j < |ds| && ds[j].name == name ==> j in X)
  }

  lemma {:induction false} StuckIsNotGrounded(ds: seq<Def>, X: set<nat>, i: nat, d: nat)
    requires Stuck(ds, X) && i in X
    ensures !Grounded(ds, i, d)
    decreases d, i
  {
    if Grounded(ds, i, d) {
      var name :| name in Syms(ds[i].source.e) && forall j: nat :: j < |ds| && ds[j].name == name ==> j in X;
      var j: nat :| j < |ds| && ds[j].name == name &&
        if j < i then Grounded(ds, j, d) else 0 < d && Grounded(ds, j, d - 1);
      StuckIsNotGrounded(ds, X, j, if j < i then d else d - 1);
    }
  }

  function Ungrounded(ds: seq<Def>, d: nat): set<nat>
  {
    set i: nat | i < |ds| && !Grounded(ds, i, d)
  }

  /** A definition that some set of stuck formulas contains. */
  ghost predicate InStuckSet(ds: seq<Def>, i: nat) { exists X :: Stuck(ds, X) && i in X }

  /** Once the passes have settled a symbol has a value exactly when it is in no stuck set. */
  lemma ValueIffNotStuck(prog: seq<Stmt>, i: nat, k: nat)
    requires Orderly(prog) && i < |Defs(prog)| && Settling(prog) <= k
    ensures Known(After(prog, k), Defs(prog)[i].name) <==> !InStuckSet(Defs(prog), i)
  {
    hide Settling, Settles, Known, InStuckSet;
    NonZero(prog);
    PassesToConverge(prog, k);
    QuietValues(prog, i, k);
  }

  lemma NonZero(prog: seq<Stmt>)
    ensures 0 < Settling(prog)
  {
  }

  /** After a pass that changed nothing. */
  lemma QuietValues(prog: seq<Stmt>, i: nat, k: nat)
    requires Orderly(prog) && i < |Defs(prog)| && 0 < k && Settles(prog, k)
    ensures Known(After(prog, k), Defs(prog)[i].name) <==> !InStuckSet(Defs(prog), i)
  {
    hide Pass, Lookup, Stuck, Grounded;
    var ds := Defs(prog);
    PassesSettle(prog, k - 1);
    PassesSettle(prog, k);
    assert Settled(ds, i, 0, k) <==> Grounded(ds, i, k - 1);
    if Grounded(ds, i, k - 1) {
      forall X | Stuck(ds, X) ensures i !in X {
        if i in X {
          StuckIsNotGrounded(ds, X, i, k - 1);
        }
      }
    } else {
      QuietIsTop(ds, k - 1);
      TopIsStuck(ds, k - 1);
      assert i in Ungrounded(ds, k - 1);
    }
  }

  /** No more is grounded at any depth than when a pass first found nothing new. */
  lemma QuietIsTop(ds: seq<Def>, d: nat)
    requires !Fresh(ds, |ds|, d)
    ensures forall i, c: nat :: 0 <= i < |ds| && Grounded(ds, i, c) ==> Grounded(ds, i, d)
  {
    hide Grounded;
    forall i, c: nat | 0 <= i < |ds| && Grounded(ds, i, c) ensures Grounded(ds, i, d) {
      if d == 0 {
        if !Grounded(ds, i, 0) {
          NothingFromNothing(ds, i, c);
        }
      } else if c <= d {
        GroundedFromTo(ds, i, c, d);
      } else {
        QuietAbove(ds, d, c, i);
      }
    }
  }

  lemma {:induction false} QuietAbove(ds: seq<Def>, d: nat, c: nat, i: nat)
    requires 0 < d <= c && !Fresh(ds, |ds|, d) && i < |ds| && Grounded(ds, i, c)
    ensures Grounded(ds, i, d) && !Fresh(ds, |ds|, c)
    decreases c
  {
    hide Grounded;
    if d < c {
      StillQuiet(ds, d, c - 1);
      QuietStaysQuiet(ds, c - 1, |ds|);
      QuietAbove(ds, d, c - 1, i);
    }
  }

  lemma {:induction false} StillQuiet(ds: seq<Def>, d: nat, c: nat)
    requires 0 < d <= c && !Fresh(ds, |ds|, d)
    ensures !Fresh(ds, |ds|, c)
    decreases c
  {
    hide Grounded;
    if d < c {
      StillQuiet(ds, d, c - 1);
      QuietStaysQuiet(ds, c - 1, |ds|);
    }
  }

  /** What is grounded at no depth is stuck. */
  lemma TopIsStuck(ds: seq<Def>, d: nat)
    requires forall i, c: nat :: 0 <= i < |ds| && Grounded(ds, i, c) ==> Grounded(ds, i, d)
    ensures Stuck(ds, Ungrounded(ds, d))
  {
    var X := Ungrounded(ds, d);
    forall i | i in X && Readable(ds[i].source.e)
      ensures exists name :: name in Syms(ds[i].source.e) && forall j: nat :: j < |ds| && ds[j].name == name ==> j in X
    {
      assert !Grounded(ds, i, d + 1);
      var name :| name in Syms(ds[i].source.e) && !(exists j ::
        0 <= j < |ds| && ds[j].name == name &&
        if j < i then Grounded(ds, j, d + 1) else 0 < d + 1 && Grounded(ds, j, d));
      forall j: nat | j < |ds| && ds[j].name == name ensures j in X {
        if Grounded(ds, j, d) {
          DeeperIsGrounded(ds, j, d);
        }
      }
    }
  }

  /** The definition that an EQU line makes. */
  function EquDef(prog: seq<Stmt>, line: nat): Def
    requires line < |prog| && prog[line].body.Equ?
  {
    Def(prog[line].body.name, Formula(prog[line].body.e, EndPc(prog[..line])))
  }

  /** The definitions of a program up to a line are the first ones of the whole. */
  lemma {:induction false} DefsUpTo(prog: seq<Stmt>, line: nat)
    requires line <= |prog|
    ensures |Defs(prog[..line])| <= |Defs(prog)| && Defs(prog[..line]) == Defs(prog)[..|Defs(prog[..line])|]
  {
    hide DefsOf, EndPc;
    var n := |prog| - 1;
    if line == |prog| {
      assert prog[..line] == prog;
    } else {
      assert prog[..n][..line] == prog[..line];
      DefsUpTo(prog[..n], line);
    }
  }

  /** Where an EQU's definition stands: after those of the lines before and of its own label. */
  function EquPlace(prog: seq<Stmt>, line: nat): nat
    requires line < |prog|
  {
    |Defs(prog[..line])| + if prog[line].name.Some? then 1 else 0
  }

  lemma EquIsThere(prog: seq<Stmt>, line: nat)
    requires line < |prog| && prog[line].body.Equ?
    ensures EquPlace(prog, line) < |Defs(prog)| && Defs(prog)[EquPlace(prog, line)] == EquDef(prog, line)
    ensures prog[line].name.Some? ==>
              Defs(prog)[EquPlace(prog, line) - 1] == Def(Clip(prog[line].name.value), Label(EndPc(prog[..line])))
  {
    hide EndPc, Defs, DefsOf;
    var ds, upTo, here := Defs(prog), Defs(prog[..line + 1]), DefsOf(prog[line], EndPc(prog[..line]));
    var p := |Defs(prog[..line])|;
    DefsUpTo(prog, line + 1);
    OneMoreDef(prog, line);
    assert upTo == ds[..|upTo|];
    LineDefs(prog[line], EndPc(prog[..line]));
    assert ds[p + |here| - 1] == upTo[p + |here| - 1] == here[|here| - 1];
    assert ds[p] == upTo[p] == here[0];
  }

  lemma OneMoreDef(prog: seq<Stmt>, line: nat)
    requires line < |prog|
    ensures Defs(prog[..line + 1]) == Defs(prog[..line]) + DefsOf(prog[line], EndPc(prog[..line]))
  {
    hide DefsOf, EndPc;
    assert prog[..line + 1][..line] == prog[..line];
  }

  lemma LineDefs(st: Stmt, pc: int)
    requires st.body.Equ?
    ensures var here := DefsOf(st, pc);
            && |here| == (if st.name.Some? then 2 else 1)
            && here[|here| - 1] == Def(st.body.name, Formula(st.body.e, pc))
            && (st.name.Some? ==> here[0] == Def(Clip(st.name.value), Label(pc)))
  {
  }

  /** Where the emitting pass stands at a line: what it knows there, and its address. */
  lemma EmittingKnows(prog: seq<Stmt>, k: nat, line: nat, size: nat)
    requires Orderly(prog) && line < |prog|
    ensures var at := Lines(Start(After(prog, k), true, size), Prefix(prog, line));
            && at.pc == EndPc(prog[..line]) && at.emitting
            && |Defs(prog[..line])| <= |Defs(prog)|
            && KnowsSettled(at.table, Defs(prog), |Defs(prog[..line])|, k)
  {
    hide Lines, Meet, MeetAll, Lookup, Given, Grounded, Defs, After;
    DefsUpTo(prog, line);
    PassesSettle(prog, k);
    PassMeets(After(prog, k), true, size, prog[..line]);
    PassSettles(After(prog, k), Defs(prog), |Defs(prog[..line])|, k);
    EmittingStays(Start(After(prog, k), true, size), prog[..line]);
  }

  lemma {:induction false} EmittingStays(s: Asm, prog: seq<Stmt>)
    ensures Lines(s, prog).emitting == s.emitting
  {
    hide Line;
    if prog != [] {
      var n := |prog| - 1;
      EmittingStays(s, prog[..n]);
      EmittingLine(Lines(s, prog[..n]), prog[n]);
    }
  }

  lemma EmittingLine(s: Asm, st: Stmt)
    ensures Line(s, st).emitting == s.emitting
  {
    hide Perform, Lookup, Replace, Eval;
    if st.body.Do? {
      PerformKeeps(Labelled(s, st), st.body.verb, st.body.ops);
      assert Labelled(s, st).pc == s.pc;
    }
  }

  /** Once settled, the emitting pass reports the line of an EQU exactly if its definition is in a stuck set. */
  lemma StuckIsReported(prog: seq<Stmt>, k: nat, line: nat, size: nat)
    requires Orderly(prog) && Settling(prog) <= k
    requires line < |prog| && prog[line].body.Equ?
    ensures EquPlace(prog, line) < |Defs(prog)| && Defs(prog)[EquPlace(prog, line)] == EquDef(prog, line)
    ensures var at := Lines(Start(After(prog, k), true, size), Prefix(prog, line));
            Line(at, prog[line]).errors == at.errors + Fault(InStuckSet(Defs(prog), EquPlace(prog, line)))
  {
    hide Lines, Grounded, InStuckSet, Lookup, After;
    var ds := Defs(prog);
    var i := EquPlace(prog, line);
    var at := Lines(Start(After(prog, k), true, size), Prefix(prog, line));
    EquIsThere(prog, line);
    EmittingKnows(prog, k, line, size);
    SettledForGood(prog, i, k);
    hide Defs, Settling, EndPc;
    EquReports(at, prog[line], ds, i, k);
  }

  /** Nothing is grounded later that was not when the passes settled, and the rest is stuck. */
  lemma SettledForGood(prog: seq<Stmt>, i: nat, k: nat)
    requires Orderly(prog) && Settling(prog) <= k && i < |Defs(prog)|
    ensures 0 < k && (Grounded(Defs(prog), i, k) <==> Grounded(Defs(prog), i, k - 1))
    ensures Grounded(Defs(prog), i, k) <==> !InStuckSet(Defs(prog), i)
  {
    hide Grounded, InStuckSet, Fresh, Lookup, Pass;
    var ds := Defs(prog);
    ValueIffNotStuck(prog, i, k);
    PassesToConverge(prog, k);
    PassesSettle(prog, k - 1);
    PassesSettle(prog, k);
    QuietIsTop(ds, k - 1);
    if Grounded(ds, i, k - 1) {
      DeeperIsGrounded(ds, i, k - 1);
    }
  }

  /** The line of an EQU, met with exactly the settled symbols. */
  lemma EquReports(at: Asm, st: Stmt, ds: seq<Def>, i: nat, k: nat)
    requires WellFormed(ds) && i < |ds| && 0 < k && at.emitting && st.body.Equ?
    requires ds[i] == Def(st.body.name, Formula(st.body.e, at.pc))
    requires st.name.Some? ==> 0 < i && ds[i - 1] == Def(Clip(st.name.value), Label(at.pc))
    requires KnowsSettled(at.table, ds, if st.name.Some? then i - 1 else i, k)
    requires Grounded(ds, i, k) <==> Grounded(ds, i, k - 1)
    ensures Line(at, st).errors == at.errors + Fault(!Grounded(ds, i, k))
  {
    var v := Labelled(at, st);
    assert st.name.Some? ==> Grounded(ds, i - 1, k - 1);
    hide Lookup, Grounded, Replace;
    if st.name.Some? {
      assert Known(at.table, Clip(st.name.value));
      MeetSettles(at.table, at.changed, ds, i - 1, k);
    }
    assert KnowsSettled(v.table, ds, i, k) && v.errors == at.errors && v.pc == at.pc;
    GivenIfGrounded(v.table, ds, i, k);
    assert Known(v.table, st.body.name) <==> Settled(ds, i, i, k);
  }
}
