// When the passes of tools/umkasm.c settle in spite of EQUs whose names do not fit: a condition on the
// source, for programs that are orderly without them.
module LongNames {
  import opened Assembler
  import opened AssemblerLaws
  import opened Convergence

  /** A formula that gets a value in the end: every symbol it needs is defined and in no stuck set. */
  ghost predicate Feasible(ds: seq<Def>, e: Expr)
  {
    Readable(e) && forall name :: name in Syms(e) ==> Obtained(ds, name)
  }

  ghost predicate Obtained(ds: seq<Def>, name: string)
  {
    exists i :: 0 <= i < |ds| && ds[i].name == name && !InStuckSet(ds, i)
  }

  /** No EQU with a long name ever evaluates. */
  ghost predicate LongEqusAreDead(prog: seq<Stmt>)
  {
    forall i :: 0 <= i < |prog| && LongEqu(prog[i]) ==> !Feasible(Defs(Trimmed(prog)), prog[i].body.e)
  }

  function LongEqus(prog: seq<Stmt>): nat
  {
    if prog == [] then 0 else LongEqus(prog[..|prog| - 1]) + if LongEqu(prog[|prog| - 1]) then 1 else 0
  }

  // ---------- dead EQUs do nothing ----------

  /** What is known anywhere in a pass of an orderly program is obtained. */
  lemma KnownIsObtained(prog: seq<Stmt>, k: nat, line: nat, name: string)
    requires Orderly(prog) && line <= |prog|
    requires Known(Lines(Start(After(prog, k), false, 0), Prefix(prog, line)).table, name)
    ensures Obtained(Defs(prog), name)
  {
    hide Lines, Meet, MeetAll, Lookup, Given, Grounded, Defs, After, Stuck, EndPc;
    var ds, m := Defs(prog), |Defs(prog[..line])|;
    DefsUpTo(prog, line);
    PassesSettle(prog, k);
    PassMeets(After(prog, k), false, 0, prog[..line]);
    PassSettles(After(prog, k), ds, m, k);
    var t := Lines(Start(After(prog, k), false, 0), Prefix(prog, line)).table;
    KnownNamesAreDefs(t, ds, name);
    var j :| 0 <= j < |ds| && ds[j].name == name;
    assert Settled(ds, j, m, k);
    forall X | Stuck(ds, X) ensures j !in X {
      if j in X {
        StuckIsNotGrounded(ds, X, j, if j < m then k else k - 1);
      }
    }
  }

  /** So a dead EQU does not evaluate after the lines up to its own label. */
  lemma DeadDoesNotEvaluate(prog: seq<Stmt>, k: nat, i: nat, here: int)
    requires Orderly(Trimmed(prog)) && LongEqusAreDead(prog) && i < |prog| && LongEqu(prog[i])
    ensures var s := Start(After(Trimmed(prog), k), false, 0);
            !Eval(prog[i].body.e, Lines(s, Prefix(Trimmed(prog), i + 1)).table, here).1
  {
    hide Lines, Known, Defs, Orderly, Trimmed, Obtained, After;
    var p := Trimmed(prog);
    var t := Lines(Start(After(p, k), false, 0), Prefix(p, i + 1)).table;
    EvalKnows(prog[i].body.e, t, here);
    forall name | Known(t, name) ensures Obtained(Defs(p), name) {
      KnownIsObtained(p, k, i + 1, name);
    }
  }

  lemma {:induction false} SameSoFar(prog: seq<Stmt>, k: nat, n: nat)
    requires Orderly(Trimmed(prog)) && LongEqusAreDead(prog) && n <= |prog| && Clipped(After(Trimmed(prog), k))
    ensures var s := Start(After(Trimmed(prog), k), false, 0);
            Lines(s, Prefix(prog, n)) == Lines(s, Prefix(Trimmed(prog), n))
  {
    hide Line, Eval, Orderly, LongEqusAreDead, After, Clipped;
    if n > 0 {
      var p, i := Trimmed(prog), n - 1;
      var s := Start(After(p, k), false, 0);
      SameSoFar(prog, k, i);
      assert Prefix(prog, n)[..i] == Prefix(prog, i) && Prefix(p, n)[..i] == Prefix(p, i);
      if LongEqu(prog[i]) {
        var u := Lines(s, Prefix(prog, i));
        LinesClipped(s, Prefix(prog, i));
        SizeDoesNotMatter(After(p, k), Prefix(prog, i), 0);
        LongEquLine(u, prog[i]);
        DeadDoesNotEvaluate(prog, k, i, u.pc);
      }
    }
  }

  /** With every long EQU dead the run is that of the trimmed program, whatever the room. */
  lemma {:induction false} SameRun(prog: seq<Stmt>, k: nat)
    requires Orderly(Trimmed(prog)) && LongEqusAreDead(prog)
    ensures After(prog, k) == After(Trimmed(prog), k)
    ensures Pass(After(prog, k), prog) == Pass(After(prog, k), Trimmed(prog))
  {
    hide Lines, Orderly, LongEqusAreDead;
    if k > 0 {
      SameRun(prog, k - 1);
    }
    AfterIsClipped(prog, k);
    SameSoFar(prog, k, |prog|);
    assert Prefix(prog, |prog|) == prog && Prefix(Trimmed(prog), |prog|) == Trimmed(prog);
  }

  // ---------- an EQU that is not dead keeps the passes going ----------

  /** A quiet pass over definitions meets each of them without effect. */
  lemma {:induction false} QuietMeets(t: Table, ds: seq<Def>, j: nat)
    requires !MeetAll((t, false), ds).1
    ensures MeetAll((t, false), ds) == (t, false)
    ensures j < |ds| ==> Meet((t, false), ds[j]) == (t, false)
  {
    hide Lookup, Given, Replace;
    if ds != [] {
      QuietMeets(t, ds[..|ds| - 1], j);
    }
  }

  /** With room, a table that a pass leaves alone knows all that is grounded. */
  lemma {:induction false} GroundedIsKnown(t: Table, ds: seq<Def>, i: nat, d: nat)
    requires !MeetAll((t, false), ds).1 && |t| < MAX_SYMS && i < |ds| && Grounded(ds, i, d)
    ensures Known(t, ds[i].name)
    decreases d, i
  {
    hide MeetAll, Lookup;
    QuietMeets(t, ds, i);
    if ds[i].source.Formula? {
      var e := ds[i].source.e;
      forall name | name in Syms(e) ensures Known(t, name) {
        var j :| 0 <= j < |ds| && ds[j].name == name &&
          if j < i then Grounded(ds, j, d) else 0 < d && Grounded(ds, j, d - 1);
        GroundedIsKnown(t, ds, j, if j < i then d else d - 1);
      }
      EvalKnows(e, t, ds[i].source.here);
    }
  }

  lemma ObtainedIsKnown(t: Table, ds: seq<Def>, name: string)
    requires !MeetAll((t, false), ds).1 && |t| < MAX_SYMS && Obtained(ds, name)
    ensures Known(t, name)
  {
    hide MeetAll, Known, Grounded, Stuck;
    var i :| 0 <= i < |ds| && ds[i].name == name && !InStuckSet(ds, i);
    var q := Quiet(ds, 0);
    QuietComes(ds, 0);
    QuietIsTop(ds, q);
    TopIsStuck(ds, q);
    assert i !in Ungrounded(ds, q);
    GroundedIsKnown(t, ds, i, q);
  }

  /** So if a pass settles with room in the table, every long EQU is dead. */
  lemma QuietMeansDead(t: Table, prog: seq<Stmt>)
    requires Orderly(Trimmed(prog)) && Clipped(t) && |t| < MAX_SYMS && !Pass(t, prog).changed
    ensures LongEqusAreDead(prog)
  {
    hide Line, Lines, Eval, Known, Defs, Trimmed, Obtained, MeetAll, WellFormed, AllPlaced;
    var p := Trimmed(prog);
    SettlesWithLongNames(t, prog);
    PassMeets(t, false, 0, p);
    forall i | 0 <= i < |prog| && LongEqu(prog[i]) ensures !Feasible(Defs(p), prog[i].body.e) {
      EvalKnows(prog[i].body.e, t, Lines(Start(t, false, 0), Prefix(p, i)).pc);
      forall name | Obtained(Defs(p), name) ensures Known(t, name) {
        ObtainedIsKnown(t, Defs(p), name);
      }
    }
  }

  /**
   * While the table has room, pass k of a run settles exactly if every EQU with a long name is dead and
   * the program without them has settled.
   */
  lemma SettlesIfDead(prog: seq<Stmt>, k: nat)
    requires Orderly(Trimmed(prog)) && 0 < k
    ensures LongEqusAreDead(prog) ==> (Settles(prog, k) <==> Settling(Trimmed(prog)) <= k)
    ensures |After(prog, k - 1)| < MAX_SYMS && !LongEqusAreDead(prog) ==> !Settles(prog, k)
  {
    hide Pass, LongEqusAreDead, Orderly, Settling, After, Clipped;
    var t := After(prog, k - 1);
    AfterIsClipped(prog, k - 1);
    if LongEqusAreDead(prog) {
      SameRun(prog, k - 1);
      PassesToConverge(Trimmed(prog), k);
    } else if |t| < MAX_SYMS && Settles(prog, k) {
      QuietMeansDead(t, prog);
    }
  }

  // ---------- how much room a run takes ----------

  /** The names that still have no entry. */
  function Missing(t: Table, names: set<string>): set<string> { set n | n in names && !Known(t, n) }

  /** Entries used and entries still to come. */
  function Demand(t: Table, names: set<string>): nat { |t| + |Missing(t, names)| }

  lemma FewerMissing(t: Table, u: Table, names: set<string>)
    requires forall n :: n in names && Known(t, n) ==> Known(u, n)
    ensures |Missing(u, names)| <= |Missing(t, names)|
  {
    SubsetCount(Missing(u, names), Missing(t, names));
  }

  /** Defining a name adds an entry only if it was missing, or does not fit. */
  lemma DefineDemands(s: Asm, name: string, v: int, names: set<string>)
    requires name in names || |name| > NAME_CHARS
    ensures Demand(Define(s, name, v).table, names) <= Demand(s.table, names) + Fault(|name| > NAME_CHARS)
  {
    hide Lookup, Replace;
    var t, u := s.table, Define(s, name, v).table;
    forall other ensures Known(t, other) ==> Known(u, other) {
      if Lookup(t, name).Some? {
        LookupReplace(t, name, v, other);
      } else {
        LookupAppend(t, Entry(Clip(name), v), other);
      }
    }
    FewerMissing(t, u, names);
    if Lookup(t, name).Some? {
      LookupReplace(t, name, v, name);
    } else if |name| <= NAME_CHARS && |t| < MAX_SYMS {
      LookupAppend(t, Entry(name, v), name);
      assert name in Missing(t, names) && name !in Missing(u, names);
      SubsetCount(Missing(u, names) + {name}, Missing(t, names));
    }
  }

  lemma LineDemands(s: Asm, st: Stmt, pc: int, names: set<string>)
    requires DefNames(DefsOf(if LongEqu(st) then Stmt(st.name, Nothing) else st, pc)) <= names
    ensures Demand(Line(s, st).table, names) <= Demand(s.table, names) + Fault(LongEqu(st))
  {
    hide Demand, Define, Perform, Eval, Clip;
    NamesOf(st, pc);
    ClipFits(st.name);
    var s1 := Labelled(s, st);
    if st.name.Some? {
      DefineDemands(s, Clip(st.name.value), s.pc, names);
    }
    match st.body
    case Nothing =>
    case Equ(name, e) => DefineDemands(s1, name, Eval(e, s1.table, s.pc).0, names);
    case Do(verb, ops) =>
      LabelMeets(s, st);
      PerformKeeps(s1, verb, ops);
  }

  lemma ClipFits(name: Option<string>)
    ensures name.Some? ==> |Clip(name.value)| <= NAME_CHARS
  {
  }

  lemma NamesOf(st: Stmt, pc: int)
    ensures var names := DefNames(DefsOf(if LongEqu(st) then Stmt(st.name, Nothing) else st, pc));
            && (st.name.Some? ==> Clip(st.name.value) in names)
            && (st.body.Equ? && !LongEqu(st) ==> st.body.name in names)
  {
    var ds := DefsOf(if LongEqu(st) then Stmt(st.name, Nothing) else st, pc);
    assert st.name.Some? ==> ds[0] in ds;
    assert st.body.Equ? && !LongEqu(st) ==> ds[|ds| - 1] in ds;
  }

  lemma {:induction false} LinesDemand(s: Asm, prog: seq<Stmt>, n: nat, names: set<string>)
    requires n <= |prog| && DefNames(Defs(Prefix(Trimmed(prog), n))) <= names
    ensures Demand(Lines(s, Prefix(prog, n)).table, names) <= Demand(s.table, names) + LongEqus(Prefix(prog, n))
  {
    hide Line, Demand, DefsOf, EndPc, LongEqu, DefNames;
    if n > 0 {
      var p, i := Trimmed(prog), n - 1;
      assert Prefix(prog, n)[..i] == Prefix(prog, i) && Prefix(p, n)[..i] == Prefix(p, i);
      NamesAdd(Defs(Prefix(p, i)), DefsOf(p[i], EndPc(Prefix(p, i))));
      LinesDemand(s, prog, i, names);
      LineDemands(Lines(s, Prefix(prog, i)), prog[i], EndPc(Prefix(p, i)), names);
    }
  }

  lemma NamesAdd(ds: seq<Def>, es: seq<Def>)
    ensures DefNames(ds + es) == DefNames(ds) + DefNames(es)
  {
  }

  /** A run takes an entry for each definition and one more in each pass for each long EQU. */
  lemma {:induction false} RoomTaken(prog: seq<Stmt>, k: nat)
    ensures Demand(After(prog, k), DefNames(Defs(Trimmed(prog)))) <= |Defs(Trimmed(prog))| + k * LongEqus(prog)
    ensures |After(prog, k)| <= |Defs(Trimmed(prog))| + k * LongEqus(prog)
  {
    hide Lines, Defs, LongEqus, Trimmed;
    var ds := Defs(Trimmed(prog));
    if k == 0 {
      DefCount(ds);
      SubsetCount(Missing([], DefNames(ds)), DefNames(ds));
    } else {
      hide Demand;
      RoomTaken(prog, k - 1);
      assert Prefix(prog, |prog|) == prog && Prefix(Trimmed(prog), |prog|) == Trimmed(prog);
      LinesDemand(Start(After(prog, k - 1), false, 0), prog, |prog|, DefNames(ds));
      assert k * LongEqus(prog) == (k - 1) * LongEqus(prog) + LongEqus(prog);
    }
  }

  /** With room for what the passes before the k-th may add. */
  predicate Roomy(prog: seq<Stmt>, k: nat)
    requires 0 < k
  {
    |Defs(Trimmed(prog))| + (k - 1) * LongEqus(prog) < MAX_SYMS
  }

  /** A run with long names: the condition on the source. */
  lemma SettlesWithRoom(prog: seq<Stmt>, k: nat)
    requires Orderly(Trimmed(prog)) && 0 < k && Roomy(prog, k)
    ensures Settles(prog, k) <==> LongEqusAreDead(prog) && Settling(Trimmed(prog)) <= k
  {
    hide Settles, LongEqusAreDead, Orderly, Settling, After, Demand, LongEqus;
    RoomTaken(prog, k - 1);
    SettlesIfDead(prog, k);
  }

  /** The sixteen passes of `main` suffice exactly if every long EQU is dead and no chain exceeds fourteen. */
  lemma SixteenWithLongNames(prog: seq<Stmt>)
    requires Orderly(Trimmed(prog)) && Roomy(prog, MAX_PASSES)
    ensures (exists k: nat :: 0 < k <= MAX_PASSES && Settles(prog, k)) <==>
            LongEqusAreDead(prog) && Depth(Defs(Trimmed(prog))) <= 14
  {
    hide Settles, LongEqusAreDead, Orderly, Settling, LongEqus, Depth;
    SixteenPasses(Trimmed(prog));
    forall k: nat | 0 < k <= MAX_PASSES
      ensures Settles(prog, k) <==> LongEqusAreDead(prog) && Settling(Trimmed(prog)) <= k
    {
      assert (MAX_PASSES - 1) * LongEqus(prog) - (k - 1) * LongEqus(prog) == (MAX_PASSES - k) * LongEqus(prog);
      SettlesWithRoom(prog, k);
    }
    SettlesWithRoom(prog, MAX_PASSES);
  }
}
