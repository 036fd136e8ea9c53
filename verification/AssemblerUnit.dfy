// The assembler's globals updated in place: sym_set, assemble_line, the repeated passes and the
// emitting pass of tools/umkasm.c, each against its function in Assembler.
module AssemblerUnit {
  import opened Bits
  import A = Assembler
  import AssemblerLaws
  import Convergence
  import LongNames

  const IMAGE_MAX := 65536

  class Umkasm {
    var pc: int
    var syms: seq<A.Entry>
    var changed: bool
    var emitting: bool
    var errors: nat
    const size: nat
    const image: array<byte>
    const covered: array<bool>

    ghost predicate Valid()
    {
      image.Length == IMAGE_MAX && covered.Length == IMAGE_MAX && size <= IMAGE_MAX
    }

    ghost function Repr(): set<object> { {this, image, covered} }

    ghost function Covered(): map<int, byte>
      reads image, covered
      requires Valid()
    {
      map x: int | 0 <= x < IMAGE_MAX && covered[x] :: image[x]
    }

    ghost function View(): A.Asm
      reads this, image, covered
      requires Valid()
    {
      A.Asm(pc, syms, changed, emitting, errors, size, Covered())
    }

    /** Uncovered bytes of the image read 0FFh. */
    constructor (size: nat)
      requires size <= IMAGE_MAX
      ensures Valid() && fresh(Repr()) && View() == A.Start([], false, size)
      ensures forall x :: 0 <= x < IMAGE_MAX ==> image[x] == 0xFF
    {
      pc, syms, changed, emitting, errors := 0, [], false, false, 0;
      this.size := size;
      image := new byte[IMAGE_MAX](_ => 0xFF);
      covered := new bool[IMAGE_MAX](_ => false);
    }

    /** `sym_find`: the first entry with the name, or -1. */
    method SymFind(name: string) returns (i: int)
      ensures -1 <= i < |syms|
      ensures 0 <= i ==> syms[i].name == name && forall j :: 0 <= j < i ==> syms[j].name != name
      ensures i < 0 ==> forall j :: 0 <= j < |syms| ==> syms[j].name != name
    {
      var k := 0;
      while k < |syms|
        invariant 0 <= k <= |syms|
        invariant forall j :: 0 <= j < k ==> syms[j].name != name
      {
        if syms[k].name == name {
          return k;
        }
        k := k + 1;
      }
      return -1;
    }

    /** `sym_set`. */
    method SymSet(name: string, value: int) returns (differs: bool)
      requires Valid()
      modifies this`syms, this`errors
      ensures View() == A.Define(old(View()), name, value).(changed := old(changed))
      ensures differs == A.Define(old(View()).(changed := false), name, value).changed
    {
      hide A.Lookup, A.Replace;
      var i := SymFind(name);
      A.FirstMatch(syms, name, i, value);
      if i < 0 {
        if |syms| >= A.MAX_SYMS {
          errors := errors + 1;
          return false;
        }
        syms := syms + [A.Entry(A.Clip(name), value)];
        return true;
      }
      if syms[i].value != value {
        syms := syms[i := A.Entry(syms[i].name, value)];
        return true;
      }
      return false;
    }

    /** `if (sym_set(...)) changed = 1`. */
    method Define(name: string, value: int)
      requires Valid()
      modifies this`syms, this`errors, this`changed
      ensures View() == A.Define(old(View()), name, value)
    {
      hide A.Lookup, A.Replace;
      var differs := SymSet(name, value);
      if differs {
        changed := true;
      }
    }

    method Complain(n: nat)
      requires Valid()
      modifies this`errors
      ensures View() == A.Complain(old(View()), n)
    {
      if emitting {
        errors := errors + n;
      }
    }

    /** `emit_byte`. */
    method EmitByte(v: byte)
      requires Valid()
      modifies this`pc, this`errors, image, covered
      ensures View() == A.EmitByte(old(View()), v)
    {
      if emitting {
        if 0 <= pc < size {
          image[pc] := v;
          covered[pc] := true;
          assert Covered() == old(Covered())[pc := v];
        } else {
          errors := errors + 1;
        }
      }
      pc := pc + 1;
    }

    method EmitAll(bs: seq<byte>)
      requires Valid()
      modifies this`pc, this`errors, image, covered
      ensures View() == A.EmitAll(old(View()), bs)
    {
      hide A.EmitByte;
      var i := 0;
      while i < |bs|
        invariant 0 <= i <= |bs|
        invariant A.EmitAll(View(), bs[i..]) == A.EmitAll(old(View()), bs)
      {
        EmitByte(bs[i]);
        assert bs[i..][1..] == bs[i + 1..];
        i := i + 1;
      }
    }

    /** DB and DW: one operand after another. */
    method EmitData(ops: seq<A.Operand>, here: int, words: bool)
      requires Valid()
      modifies this`pc, this`errors, image, covered
      ensures View() == if words then A.EmitWords(old(View()), ops, here) else A.EmitBytes(old(View()), ops, here)
    {
      hide A.EmitByte, A.EmitAll, A.Complain, A.Eval;
      var i := 0;
      while i < |ops|
        invariant 0 <= i <= |ops|
        invariant words ==> A.EmitWords(View(), ops[i..], here) == A.EmitWords(old(View()), ops, here)
        invariant !words ==> A.EmitBytes(View(), ops[i..], here) == A.EmitBytes(old(View()), ops, here)
      {
        assert ops[i..][1..] == ops[i + 1..];
        var (v, ok) := A.Eval(ops[i].expr, syms, here);
        Complain(A.Fault(!ok));
        if words {
          EmitAll(A.WordBytes(v));
        } else {
          EmitByte(A.LowByte(v));
        }
        i := i + 1;
      }
    }

    /** Directives and instructions. */
    method Perform(verb: A.Verb, ops: seq<A.Operand>, here: int)
      requires Valid()
      modifies this`pc, this`errors, image, covered
      ensures View() == A.Perform(old(View()), verb, ops, here)
    {
      hide A.EmitAll, A.EmitBytes, A.EmitWords, A.Complain, A.Eval, A.Encode;
      match verb {
        case Org =>
          var (v, ok) := A.Value(ops, 0, syms, here);
          if ok { pc := v; }
        case End =>
        case Ds =>
          var (v, ok) := A.Value(ops, 0, syms, here);
          pc := pc + v;
        case Db => EmitData(ops, here, false);
        case Dw => EmitData(ops, here, true);
        case Instr(m) =>
          var (bs, faults) := A.Encode(m, ops, syms, here);
          Complain(faults);
          EmitAll(bs);
        case Unknown => Complain(1);
      }
    }

    /** `assemble_line`. */
    method AssembleLine(st: A.Stmt)
      requires Valid()
      modifies this, image, covered
      ensures View() == A.Line(old(View()), st)
    {
      hide A.Define, A.Perform, A.Complain, A.Eval;
      var here := pc;
      match st.name {
        case Some(name) => Define(A.Clip(name), pc);
        case None =>
      }
      match st.body {
        case Nothing =>
        case Equ(name, e) =>
          var (v, ok) := A.Eval(e, syms, here);
          if ok {
            Define(name, v);
          } else {
            Complain(1);
          }
        case Do(verb, ops) => Perform(verb, ops, here);
      }
    }

    method AssembleLines(prog: seq<A.Stmt>)
      requires Valid()
      modifies this, image, covered
      ensures View() == A.Lines(old(View()), prog)
    {
      hide A.Line;
      var i := 0;
      assert prog[..0] == [];
      while i < |prog|
        invariant 0 <= i <= |prog|
        invariant View() == A.Lines(old(View()), prog[..i])
      {
        assert prog[..i + 1][..i] == prog[..i];
        AssembleLine(prog[i]);
        i := i + 1;
      }
      assert prog[..i] == prog;
    }

    /** The reading loop of `main`: lines beyond the buffer stay unread. */
    static method ReadLines(file: seq<A.Stmt>) returns (lines: seq<A.Stmt>)
      ensures lines == A.FirstLines(file)
    {
      lines := [];
      while |lines| < A.MAX_LINES && |lines| < |file|
        invariant |lines| <= A.MAX_LINES && |lines| <= |file| && lines == file[..|lines|]
        decreases |file| - |lines|
      {
        lines := lines + [file[|lines|]];
      }
    }

    /**
     * The passes that `main` repeats until no symbol changes; `passes` counts them, 17 if sixteen do not
     * settle. For an orderly program that is one for each forward reference of its longest chain plus two;
     * with names that do not fit, the EQUs concerned must also be dead.
     */
    method Converge(prog: seq<A.Stmt>) returns (passes: nat)
      requires Valid() && syms == [] && !emitting && Covered() == map[]
      modifies this, image, covered
      ensures 1 <= passes <= A.MAX_PASSES + 1
      ensures passes <= A.MAX_PASSES ==> A.Settles(prog, passes)
      ensures forall k :: 1 <= k < passes ==> !A.Settles(prog, k)
      ensures Convergence.Orderly(prog) ==>
        passes == (if Convergence.Settling(prog) <= A.MAX_PASSES then Convergence.Settling(prog) else A.MAX_PASSES + 1)
      ensures Convergence.Orderly(AssemblerLaws.Trimmed(prog)) && LongNames.Roomy(prog, A.MAX_PASSES) ==>
        (passes <= A.MAX_PASSES <==>
         LongNames.LongEqusAreDead(prog) && Convergence.Depth(Convergence.Defs(AssemblerLaws.Trimmed(prog))) <= 14)
      ensures passes <= A.MAX_PASSES ==> !changed
      ensures !emitting && Covered() == map[]
      ensures syms == A.After(prog, if passes <= A.MAX_PASSES then passes else A.MAX_PASSES)
    {
      hide A.Lines, A.Pass, Convergence.Settling, Convergence.Orderly, Convergence.Depth;
      hide LongNames.Roomy, LongNames.LongEqusAreDead, AssemblerLaws.Trimmed;
      passes := 1;
      Convergence.NonZero(prog);
      if Convergence.Orderly(AssemblerLaws.Trimmed(prog)) && LongNames.Roomy(prog, A.MAX_PASSES) {
        LongNames.SixteenWithLongNames(prog);
      }
      while passes <= A.MAX_PASSES
        invariant 1 <= passes <= A.MAX_PASSES + 1
        invariant Convergence.Orderly(prog) ==> passes <= Convergence.Settling(prog)
        invariant syms == A.After(prog, passes - 1) && !emitting && Covered() == map[]
        invariant forall k :: 1 <= k < passes ==> !A.Settles(prog, k)
      {
        changed, emitting, pc := false, false, 0;
        PassFrom(View(), syms, prog);
        AssembleLines(prog);
        if Convergence.Orderly(prog) {
          Convergence.PassesToConverge(prog, passes);
        }
        if !changed {
          return;
        }
        passes := passes + 1;
      }
    }

    /** A pass of the loop does to the symbols what `Pass` does, and writes nothing. */
    static lemma PassFrom(s: A.Asm, t: A.Table, prog: seq<A.Stmt>)
      requires s.pc == 0 && s.table == t && !s.changed && !s.emitting
      ensures A.Lines(s, prog).table == A.Pass(t, prog).table && A.Lines(s, prog).changed == A.Pass(t, prog).changed
      ensures !A.Lines(s, prog).emitting && A.Lines(s, prog).image == s.image
    {
      hide A.Lines;
      AssemblerLaws.LinesPlace(s, A.Start(t, false, 0), prog);
      Silent(s, prog);
    }

    static lemma {:induction false} Silent(s: A.Asm, prog: seq<A.Stmt>)
      requires !s.emitting
      ensures !A.Lines(s, prog).emitting && A.Lines(s, prog).image == s.image
    {
      hide A.Line;
      if prog != [] {
        var n := |prog| - 1;
        Silent(s, prog[..n]);
        A.SizedLine(A.Lines(s, prog[..n]), prog[n], 0);
      }
    }

    /** The emitting pass. */
    method Emit(prog: seq<A.Stmt>)
      requires Valid() && !changed && Covered() == map[]
      modifies this, image, covered
      ensures View() == A.Lines(A.Start(old(syms), true, size), prog)
    {
      emitting, pc, errors := true, 0, 0;
      AssembleLines(prog);
    }
  }
}
