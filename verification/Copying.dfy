// The copy loop of the monitor (MOVELP), run as machine code, and exactly when a copy is faithful.
module Copying {
  import opened Bits
  import opened Board
  import opened Isa
  import opened Cpu
  import opened MachineCode
  import opened Monitor
  import opened Walks

  // ---------- MOVELP ----------

  predicate MoveCode(rom: Chip)
  {
    && EntryCode(rom, 0x181) && rom[0x187] == 0x7E && rom[0x188] == 0x02 && rom[0x189] == 0x03
    && TailCode(rom, 0x18A, 0x187) && CompareCode(rom)
  }

  /** Copying `n` bytes upwards, one address after another. */
  function Copied(w: World, src: word, dst: word, n: nat): World
  {
    if n == 0 then w
    else
      var v := Copied(w, src, dst, n - 1);
      Poke(v, Plus16(dst, n - 1), Peek(v, Plus16(src, n - 1)))
  }

  lemma {:induction false} CopiedKeeps(w: World, src: word, dst: word, n: nat)
    requires !w.trial
    ensures var v := Copied(w, src, dst, n); v == w.(ram := v.ram)
  {
    hide Peek, Cell;
    if n > 0 {
      CopiedKeeps(w, src, dst, n - 1);
    }
  }

  lemma StoredRom(w: World, a: word, b: byte, sp: word, v: word)
    ensures Pushed(Poke(w, a, b), sp, v).rom == w.rom
  {
  }

  /** One turn of MOVELP. */
  lemma MoveTurn(k: Core) returns (u: Core)
    requires MoveCode(k.w.rom) && k.pc == 0x187 && StackInRam(k.r.sp)
    ensures var next := Inc16(HL(k.r));
            && Leads(k, if next == 0 then 10 else 15, u)
            && u.pc == (if next == 0 || next > GetPair(k.r, DE) then 0x190 else 0x187)
            && HL(u.r) == next
    ensures GetPair(u.r, DE) == GetPair(k.r, DE) && GetPair(u.r, BC) == Inc16(GetPair(k.r, BC)) && u.r.sp == k.r.sp
    ensures u.w == Pushed(Poke(k.w, GetPair(k.r, BC), Peek(k.w, HL(k.r))), k.r.sp, 0x18D)
  {
    hide Decode, Leads, At, Pushed, CompareCode, EntryCode, Peek;
    Opcodes4();
    Here(k);
    Fetches(k);
    var k1 := GoLoad(k, 0, k, A);
    Fetches(k1);
    var k2 := GoStax(k, 1, k1, BC);
    Fetches(k2);
    var k3 := GoInx(k, 2, k2, BC);
    u := Tail(k3, 0x18A, 0x187);
    Then(k, 3, k3, if Inc16(HL(k.r)) == 0 then 7 else 12, u);
  }

  /** What the loop does to memory: each byte copied, and the return address of its call pushed. */
  function Moved(w: World, sp: word, src: word, dst: word, n: nat): World
  {
    if n == 0 then w
    else
      var v := Moved(w, sp, src, dst, n - 1);
      Pushed(Poke(v, Plus16(dst, n - 1), Peek(v, Plus16(src, n - 1))), sp, 0x18D)
  }

  /** After 15m instructions the copy is at the m-th address. */
  lemma {:induction false} MoveReaches(k: Core, m: nat) returns (u: Core)
    requires MoveCode(k.w.rom) && k.pc == 0x187 && StackInRam(k.r.sp)
    requires HL(k.r) + m <= GetPair(k.r, DE)
    ensures Leads(k, 15 * m, u) && u.pc == 0x187
    ensures HL(u.r) == HL(k.r) + m && GetPair(u.r, BC) == Plus16(GetPair(k.r, BC), m)
    ensures GetPair(u.r, DE) == GetPair(k.r, DE) && u.r.sp == k.r.sp
    ensures u.w == Moved(k.w, k.r.sp, HL(k.r), GetPair(k.r, BC), m) && u.w.rom == k.w.rom
  {
    hide Leads, MoveCode, Pushed, GetPair, HL, Peek, Poke;
    var (src, dst) := (HL(k.r), GetPair(k.r, BC));
    if m == 0 {
      Here(k);
      u := k;
      assert Plus16(dst, 0) == dst;
    } else {
      var t := MoveReaches(k, m - 1);
      StoredRom(t.w, GetPair(t.r, BC), Peek(t.w, HL(t.r)), k.r.sp, 0x18D);
      NextAddress(dst, m - 1);
      NextAddress(src, m - 1);
      assert Plus16(src, m - 1) == src + m - 1 && Plus16(src, m) == src + m;
      hide Plus16, Inc16;
      u := MoveTurn(t);
      Then(k, 15 * (m - 1), t, 15, u);
    }
  }

  lemma MoveEnds(k: Core) returns (u: Core)
    requires MoveCode(k.w.rom) && k.pc == 0x187 && StackInRam(k.r.sp) && HL(k.r) <= GetPair(k.r, DE)
    ensures Leads(k, 15 * Count(HL(k.r), GetPair(k.r, DE)) - (if GetPair(k.r, DE) == 0xFFFF then 5 else 0), u)
    ensures u.pc == 0x190 && u.r.sp == k.r.sp
    ensures u.w == Moved(k.w, k.r.sp, HL(k.r), GetPair(k.r, BC), Count(HL(k.r), GetPair(k.r, DE)))
  {
    hide Leads, MoveCode, Pushed, GetPair, HL, Peek, Poke;
    var m := GetPair(k.r, DE) - HL(k.r);
    var t := MoveReaches(k, m);
    assert Plus16(HL(k.r), m) == HL(t.r);
    hide Plus16;
    u := MoveTurn(t);
    Then(k, 15 * m, t, if GetPair(k.r, DE) == 0xFFFF then 10 else 15, u);
  }

  /** As long as the source is clear of the stack the calls do not show. */
  lemma {:induction false} MovedIsCopied(v: World, now: World, sp: word, src: word, dst: word, n: nat, m: nat)
    requires StackInRam(sp) && !now.trial && SameOff(v, now, sp) && m <= n && ClearOfStack(now.ramSize, sp, src, n)
    ensures SameOff(Moved(v, sp, src, dst, m), Copied(now, src, dst, m), sp)
  {
    hide Peek, Poke, Pushed, ClearOfStack, SameOff, Plus16;
    if m > 0 {
      MovedIsCopied(v, now, sp, src, dst, n, m - 1);
      var (x, y) := (Moved(v, sp, src, dst, m - 1), Copied(now, src, dst, m - 1));
      var (a, b) := (Plus16(src, m - 1), Plus16(dst, m - 1));
      CopiedKeeps(now, src, dst, m - 1);
      PeekOff(x, y, sp, src, n, m - 1);
      PokeOff(x, y, sp, b, Peek(y, a));
      OffKeeps(x, y, sp);
      StoredTrial(x, b, Peek(x, a));
      PushedOff(Poke(x, b, Peek(x, a)), sp, 0x18D);
      OffOff(Moved(v, sp, src, dst, m), Poke(x, b, Peek(x, a)), Copied(now, src, dst, m), sp);
    }
  }

  lemma StoredTrial(w: World, a: word, b: byte)
    ensures Poke(w, a, b).trial == w.trial
  {
  }

  /**
   * MOVE from its check on: every range, up to 0FFFFH, is copied address by address upwards. Off the two
   * stack cells a source clear of them gives the plain copy.
   */
  lemma MoveRuns(s: Sys) returns (n: nat)
    requires Quiet(s) && s.c.pc == 0x181 && MoveCode(s.w.rom) && StackInRam(s.c.r.sp) && !s.w.trial
    ensures var (first, last, dst, sp) := (HL(s.c.r), GetPair(s.c.r, DE), GetPair(s.c.r, BC), s.c.r.sp);
            var t := Steps(s, n);
            && (first > last ==> n == 7 && t.c.pc == ERROR && SameOff(t.w, s.w, sp))
            && (first <= last ==>
                && n == 7 + 15 * Count(first, last) - (if last == 0xFFFF then 5 else 0)
                && t.c.pc == 0x190 && t.c.r.sp == sp
                && t.w == Moved(Pushed(s.w, sp, 0x184), sp, first, dst, Count(first, last))
                && (ClearOfStack(s.w.ramSize, sp, first, Count(first, last)) ==>
                    SameOff(t.w, Copied(s.w, first, dst, Count(first, last)), sp)))
  {
    hide Leads, CompareCode, TailCode, Pushed, ClearOfStack, SameOff, Copied, Moved, Steps, Step;
    var k := CoreOf(s);
    var k1 := Entry(k, 0x181);
    n := 7;
    PushedOff(s.w, s.c.r.sp, 0x184);
    var (first, last) := (HL(k.r), GetPair(k.r, DE));
    if first > last {
      StepsFollow(s, 7, k1);
    } else {
      OffKeeps(k1.w, s.w, s.c.r.sp);
      assert MoveCode(k1.w.rom);
      var u := MoveEnds(k1);
      var steps := 15 * Count(first, last) - (if last == 0xFFFF then 5 else 0);
      Then(k, 7, k1, steps, u);
      n := 7 + steps;
      StepsFollow(s, n, u);
      if ClearOfStack(s.w.ramSize, s.c.r.sp, first, Count(first, last)) {
        MovedIsCopied(k1.w, s.w, s.c.r.sp, first, GetPair(k.r, BC), Count(first, last), Count(first, last));
      }
    }
  }

  // ---------- when a copy is faithful ----------

  /** No source address is overwritten before its turn. */
  ghost predicate NoOverrun(ramSize: RamSize, src: word, dst: word, n: nat)
  {
    forall j: nat, k: nat :: j < k < n ==> !SameCell(ramSize, Plus16(dst, j), Plus16(src, k))
  }

  lemma NotYetOverwritten(w: World, src: word, dst: word, n: nat, a: word)
    requires !w.trial
    requires forall j: nat :: j < n ==> !SameCell(w.ramSize, Plus16(dst, j), a)
    ensures Peek(Copied(w, src, dst, n), a) == Peek(w, a)
  {
    LaterKeeps(w, src, dst, 0, n, a);
  }

  /** Each destination reads as its source did, unless a later one shares its cell. */
  lemma CopyIsFaithful(w: World, src: word, dst: word, n: nat, k: nat)
    requires !w.trial && k < n && NoOverrun(w.ramSize, src, dst, n)
    requires IsRam(Plus16(dst, k))
    requires forall j: nat :: k < j < n ==> !SameCell(w.ramSize, Plus16(dst, j), Plus16(dst, k))
    ensures Peek(Copied(w, src, dst, n), Plus16(dst, k)) == Peek(w, Plus16(src, k))
  {
    hide Peek, Poke, Plus16;
    NotYetOverwritten(w, src, dst, k, Plus16(src, k));
    Stored(Copied(w, src, dst, k), Plus16(dst, k), Peek(w, Plus16(src, k)));
    LaterKeeps(w, src, dst, k + 1, n, Plus16(dst, k));
  }

  /** Two addresses of RAM less than 64 KB apart along a range are as far apart in it. */
  lemma PlusApart(a: word, j: nat, i: nat)
    requires j < i < j + 0x1_0000
    ensures Plus16(a, i) - Plus16(a, j) == i - j || Plus16(a, i) - Plus16(a, j) == i - j - 0x1_0000
  {
  }

  lemma ApartWithin(ramSize: RamSize, a: word, j: nat, i: nat)
    requires j < i < j + ramSize
    ensures !SameCell(ramSize, Plus16(a, i), Plus16(a, j))
  {
    PlusApart(a, j, i);
    hide Plus16;
    if ramSize == 1024 {
    } else {
    }
  }

  /** On the 2 KB board a range copies faithfully to any disjoint range and to any that is not above it. */
  lemma WholeBoardCopies(w: World, src: word, dst: word, n: nat, k: nat)
    requires !w.trial && w.ramSize == 2048 && src + n <= 0x1_0000 && k < n && IsRam(Plus16(dst, k))
    requires dst <= src || (src + n <= dst && dst + n <= 0x1_0000)
    ensures Peek(Copied(w, src, dst, n), Plus16(dst, k)) == Peek(w, Plus16(src, k))
  {
    hide Peek, Copied, Plus16;
    forall j: nat, i: nat | j < i < n ensures !SameCell(w.ramSize, Plus16(dst, j), Plus16(src, i)) {
      WholeBoardApart(src, dst, n, j, i);
    }
    forall j: nat | k < j < n ensures !SameCell(w.ramSize, Plus16(dst, j), Plus16(dst, k)) {
      PlusApart(dst, k, j);
    }
    CopyIsFaithful(w, src, dst, n, k);
  }

  lemma WholeBoardApart(src: word, dst: word, n: nat, j: nat, i: nat)
    requires src + n <= 0x1_0000 && j < i < n && (dst <= src || (src + n <= dst && dst + n <= 0x1_0000))
    ensures Plus16(dst, j) != Plus16(src, i)
  {
  }

  lemma {:induction false} LaterKeeps(w: World, src: word, dst: word, m: nat, n: nat, a: word)
    requires !w.trial && m <= n
    requires forall j: nat :: m <= j < n ==> !SameCell(w.ramSize, Plus16(dst, j), a)
    ensures Peek(Copied(w, src, dst, n), a) == Peek(Copied(w, src, dst, m), a)
    decreases n
  {
    hide Plus16, Peek, Poke, SameCell;
    if m < n {
      LaterKeeps(w, src, dst, m, n - 1, a);
      CopiedKeeps(w, src, dst, n - 1);
      var v := Copied(w, src, dst, n - 1);
      PokePeek(v, Plus16(dst, n - 1), Peek(v, Plus16(src, n - 1)), a);
      SymmetricCells(w.ramSize, Plus16(dst, n - 1), a);
    }
  }

  /** Where a source is first overwritten before its turn, the copy ends with an earlier byte in its place. */
  lemma FirstOverrun(w: World, src: word, dst: word, n: nat, j: nat, k: nat)
    requires !w.trial && j < k < n <= w.ramSize && NoOverrun(w.ramSize, src, dst, k)
    requires SameCell(w.ramSize, Plus16(dst, j), Plus16(src, k)) && IsRam(Plus16(dst, k))
    ensures Peek(Copied(w, src, dst, n), Plus16(dst, k)) == Peek(w, Plus16(src, j))
  {
    hide Plus16, Peek, Poke;
    CopiedKeeps(w, src, dst, k);
    forall i: nat | j < i < k ensures !SameCell(w.ramSize, Plus16(dst, i), Plus16(dst, j)) {
      ApartWithin(w.ramSize, dst, j, i);
    }
    CopyIsFaithful(w, src, dst, k, j);
    forall i: nat | k < i < n ensures !SameCell(w.ramSize, Plus16(dst, i), Plus16(dst, k)) {
      ApartWithin(w.ramSize, dst, k, i);
    }
    SharedCell(Copied(w, src, dst, k), Plus16(dst, j), Plus16(src, k));
    Stored(Copied(w, src, dst, k), Plus16(dst, k), Peek(Copied(w, src, dst, k), Plus16(src, k)));
    LaterKeeps(w, src, dst, k + 1, n, Plus16(dst, k));
  }

  lemma SymmetricCells(ramSize: RamSize, x: word, y: word)
    ensures SameCell(ramSize, x, y) == SameCell(ramSize, y, x)
  {
  }

  lemma SharedCell(w: World, x: word, y: word)
    requires SameCell(w.ramSize, x, y)
    ensures Peek(w, x) == Peek(w, y)
  {
  }

  lemma Stored(w: World, a: word, b: byte)
    requires IsRam(a)
    ensures Peek(Poke(w, a, b), a) == b
  {
  }

  // ---------- the exact condition ----------

  /** Every destination reads at the end as its source did at the start. */
  ghost predicate Faithful(w: World, src: word, dst: word, n: nat)
  {
    forall k: nat :: k < n ==> Peek(Copied(w, src, dst, n), Plus16(dst, k)) == Peek(w, Plus16(src, k))
  }

  /** How many cells the destination lies above the source. */
  function Shift(ramSize: RamSize, src: word, dst: word): nat { (dst - src) % ramSize }

  /**
   * A source outside RAM, a copy of cells onto themselves, or a destination no nearer above the source
   * than the part of the source that is in RAM is long.
   */
  predicate Safe(ramSize: RamSize, src: word, dst: word, n: nat)
  {
    || src + n <= RAM_BASE || src >= RAM_TOP || Shift(ramSize, src, dst) == 0
    || Shift(ramSize, src, dst) >= if src + n <= RAM_TOP then n else RAM_TOP - src
  }

  predicate InRam(a: word, n: nat) { RAM_BASE <= a && a + n <= RAM_TOP }

  /** A difference of remainders, as one remainder; `r` is the chip size. */
  lemma SameRemainder(x: int, y: int, d: int, r: int)
    requires r == 1024 || r == 2048
    requires exists q: int :: y - x == d + r * q
    ensures x % r == y % r <==> d % r == 0
  {
    if r == 1024 {
    } else {
    }
  }

  lemma CellsMeet(ramSize: RamSize, src: word, dst: word, j: nat, k: nat)
    requires src + k < 0x1_0000 && dst + j < 0x1_0000 && IsRam(src + k) && IsRam(dst + j)
    ensures SameCell(ramSize, dst + j, src + k) <==> (Shift(ramSize, src, dst) + j - k) % ramSize == 0
  {
    var d, q := Shift(ramSize, src, dst), (dst - src) / ramSize;
    assert dst - src == d + ramSize * q;
    hide Shift;
    assert (dst + j - RAM_BASE) - (src + k - RAM_BASE) == (d + j - k) + ramSize * q;
    SameRemainder(src + k - RAM_BASE, dst + j - RAM_BASE, d + j - k, ramSize);
  }

  lemma Below(a: word, k: nat)
    requires a + k < 0x1_0000
    ensures Plus16(a, k) == a + k
  {
  }

  /** A number strictly between 0 and the modulus is no multiple of it. */
  lemma NoMultiple(ramSize: RamSize, x: int)
    requires 0 < x < ramSize
    ensures x % ramSize != 0
  {
  }

  lemma SafeDoesNotOverrun(ramSize: RamSize, src: word, dst: word, n: nat)
    requires InRam(dst, n) && src + n <= 0x1_0000 && n <= ramSize && Safe(ramSize, src, dst, n)
    ensures NoOverrun(ramSize, src, dst, n)
  {
    hide Plus16, Shift;
    var d := Shift(ramSize, src, dst);
    forall j: nat, k: nat | j < k < n ensures !SameCell(ramSize, Plus16(dst, j), Plus16(src, k)) {
      Below(dst, j);
      Below(src, k);
      if IsRam(src + k) {
        CellsMeet(ramSize, src, dst, j, k);
        ShiftIsSmall(ramSize, src, dst);
        if d == 0 {
          NoMultiple(ramSize, k - j);
          Opposite(ramSize, k - j);
        } else {
          NoMultiple(ramSize, d + j - k);
        }
      }
    }
  }

  lemma ShiftIsSmall(ramSize: RamSize, src: word, dst: word)
    ensures Shift(ramSize, src, dst) < ramSize
  {
  }

  lemma Opposite(ramSize: RamSize, x: int)
    ensures (-x) % ramSize == 0 <==> x % ramSize == 0
  {
    if ramSize == 1024 {
    } else {
    }
  }

  /** Where an unsafe copy first overruns: the first index in RAM and at least a shift from the start. */
  function FirstBad(ramSize: RamSize, src: word, dst: word): nat
  {
    var d := Shift(ramSize, src, dst);
    if src + d < RAM_BASE then RAM_BASE - src else d
  }

  lemma UnsafeOverruns(ramSize: RamSize, src: word, dst: word, n: nat)
    requires InRam(dst, n) && src + n <= 0x1_0000 && !Safe(ramSize, src, dst, n)
    ensures var (d, k) := (Shift(ramSize, src, dst), FirstBad(ramSize, src, dst));
            && 0 < d <= k < n && IsRam(src + k)
            && SameCell(ramSize, Plus16(dst, k - d), Plus16(src, k)) && NoOverrun(ramSize, src, dst, k)
  {
    hide Plus16, Shift;
    ShiftIsSmall(ramSize, src, dst);
    var (d, k) := (Shift(ramSize, src, dst), FirstBad(ramSize, src, dst));
    Below(dst, k - d);
    Below(src, k);
    CellsMeet(ramSize, src, dst, k - d, k);
    forall i: nat, h: nat | i < h < k ensures !SameCell(ramSize, Plus16(dst, i), Plus16(src, h)) {
      Below(dst, i);
      Below(src, h);
      if IsRam(src + h) {
        CellsMeet(ramSize, src, dst, i, h);
        NoMultiple(ramSize, d + i - h);
      }
    }
  }

  lemma SafeIsFaithful(w: World, src: word, dst: word, n: nat)
    requires !w.trial && InRam(dst, n) && src + n <= 0x1_0000 && n <= w.ramSize && Safe(w.ramSize, src, dst, n)
    ensures Faithful(w, src, dst, n)
  {
    hide Safe, Peek, Plus16, Copied;
    SafeDoesNotOverrun(w.ramSize, src, dst, n);
    forall k: nat | k < n
      ensures Peek(Copied(w, src, dst, n), Plus16(dst, k)) == Peek(w, Plus16(src, k))
    {
      Below(dst, k);
      forall j: nat | k < j < n ensures !SameCell(w.ramSize, Plus16(dst, j), Plus16(dst, k)) {
        ApartWithin(w.ramSize, dst, k, j);
      }
      CopyIsFaithful(w, src, dst, n, k);
    }
  }

  /** A copy of cells onto themselves changes nothing, however long. */
  lemma {:induction false} OntoItself(w: World, src: word, dst: word, n: nat)
    requires !w.trial && InRam(dst, n) && InRam(src, n) && Shift(w.ramSize, src, dst) == 0
    ensures Copied(w, src, dst, n) == w
  {
    hide Plus16, Shift;
    if n > 0 {
      OntoItself(w, src, dst, n - 1);
      Below(dst, n - 1);
      Below(src, n - 1);
      CellsMeet(w.ramSize, src, dst, n - 1, n - 1);
    }
  }

  lemma OntoItselfIsFaithful(w: World, src: word, dst: word, n: nat)
    requires !w.trial && InRam(dst, n) && InRam(src, n) && Shift(w.ramSize, src, dst) == 0
    ensures Faithful(w, src, dst, n)
  {
    hide Plus16, Shift, Peek;
    OntoItself(w, src, dst, n);
    forall k: nat | k < n ensures Peek(w, Plus16(dst, k)) == Peek(w, Plus16(src, k)) {
      Below(dst, k);
      Below(src, k);
      CellsMeet(w.ramSize, src, dst, k, k);
      SharedCell(w, Plus16(dst, k), Plus16(src, k));
    }
  }

  function WithRam(w: World, ram: Chip): World { w.(ram := ram) }

  /** Whatever else memory holds, one byte can be chosen that an unsafe copy spoils. */
  lemma UnsafeSmears(w: World, src: word, dst: word, n: nat) returns (ram: Chip)
    requires !w.trial && InRam(dst, n) && src + n <= 0x1_0000 && n <= w.ramSize && !Safe(w.ramSize, src, dst, n)
    ensures !Faithful(WithRam(w, ram), src, dst, n)
  {
    hide Safe, Plus16, Copied, Shift, FirstBad, NoOverrun;
    UnsafeOverruns(w.ramSize, src, dst, n);
    var (d, k) := (Shift(w.ramSize, src, dst), FirstBad(w.ramSize, src, dst));
    Below(src, k);
    Below(dst, k);
    var kept := Peek(w, Plus16(src, k - d));
    ram := w.ram[Cell(w.ramSize, Plus16(src, k)) := if kept == 0 then 1 else 0];
    var v := WithRam(w, ram);
    ShiftIsSmall(w.ramSize, src, dst);
    ApartWithin(w.ramSize, src, k - d, k);
    assert Peek(v, Plus16(src, k - d)) == kept;
    assert Peek(v, Plus16(src, k)) != kept;
    hide Peek;
    FirstOverrun(v, src, dst, n, k - d, k);
  }

  /** With a 1 in the one cell that the first store overwrites, no 1 is left. */
  lemma {:induction false} Vanishes(w: World, src: word, dst: word, n: nat)
    requires !w.trial && 0 < n && InRam(dst, n) && InRam(src, n)
    requires Cell(w.ramSize, src) != Cell(w.ramSize, dst)
    requires forall i: RamIndex :: w.ram[i] == if i == Cell(w.ramSize, dst) then 1 else 0
    ensures forall i: RamIndex :: Copied(w, src, dst, n).ram[i] == 0
    ensures Copied(w, src, dst, n).ramSize == w.ramSize && !Copied(w, src, dst, n).trial
  {
    hide Plus16;
    Below(dst, n - 1);
    Below(src, n - 1);
    if n > 1 {
      Vanishes(w, src, dst, n - 1);
    } else {
      assert Copied(w, src, dst, 0) == w;
    }
  }

  lemma LongSmears(w: World, src: word, dst: word, n: nat) returns (ram: Chip)
    requires !w.trial && InRam(dst, n) && InRam(src, n) && 0 < Shift(w.ramSize, src, dst) < n
    ensures !Faithful(WithRam(w, ram), src, dst, n)
  {
    hide Plus16, Copied, Shift;
    var d := Shift(w.ramSize, src, dst);
    var c := Cell(w.ramSize, dst);
    ram := seq(2048, i => if i == c then 1 else 0);
    var v := WithRam(w, ram);
    ShiftIsSmall(w.ramSize, src, dst);
    Below(src, 0);
    CellsMeet(w.ramSize, src, dst, 0, 0);
    CellsMeet(w.ramSize, src, dst, 0, d);
    NoMultiple(w.ramSize, d);
    Vanishes(v, src, dst, n);
    Below(src, d);
    Below(dst, d);
    assert Peek(v, Plus16(src, d)) == 1;
    assert Peek(Copied(v, src, dst, n), Plus16(dst, d)) == 0;
  }

  /**
   * Exactly when a copy is faithful. Into RAM, and no longer than the chip or from RAM: every content of
   * memory copies faithfully if and only if the copy is safe.
   */
  lemma CopyIsExact(w: World, src: word, dst: word, n: nat)
    requires !w.trial && InRam(dst, n) && src + n <= 0x1_0000 && (n <= w.ramSize || InRam(src, n))
    ensures (forall ram: Chip :: Faithful(WithRam(w, ram), src, dst, n)) <==> Safe(w.ramSize, src, dst, n)
  {
    hide Faithful, Shift;
    if Safe(w.ramSize, src, dst, n) {
      forall ram: Chip ensures Faithful(WithRam(w, ram), src, dst, n) {
        if n <= w.ramSize {
          SafeIsFaithful(WithRam(w, ram), src, dst, n);
        } else {
          ShiftIsSmall(w.ramSize, src, dst);
          OntoItselfIsFaithful(WithRam(w, ram), src, dst, n);
        }
      }
    } else {
      var ram: Chip;
      if n <= w.ramSize {
        ram := UnsafeSmears(w, src, dst, n);
      } else {
        ShiftIsSmall(w.ramSize, src, dst);
        ram := LongSmears(w, src, dst, n);
      }
      assert !Faithful(WithRam(w, ram), src, dst, n);
    }
  }

  /** From RAM to RAM the condition is the distance alone: none, or at least the length. */
  lemma RamToRam(w: World, src: word, dst: word, n: nat)
    requires !w.trial && InRam(dst, n) && InRam(src, n)
    ensures (forall ram: Chip :: Faithful(WithRam(w, ram), src, dst, n)) <==>
            Shift(w.ramSize, src, dst) == 0 || Shift(w.ramSize, src, dst) >= n
  {
    hide Faithful, Shift;
    CopyIsExact(w, src, dst, n);
  }

  /** On the 1 KB board disjoint ranges are not enough. */
  lemma MirrorSmears(w: World)
    requires !w.trial && w.ramSize == 1024 && w.ram[0] != w.ram[1]
    ensures Peek(Copied(w, 0x800, 0xC01, 2), 0xC02) != Peek(w, 0x801)
  {
    FirstOverrun(w, 0x800, 0xC01, 2, 0, 1);
  }

  // ---------- the machine ----------

  /** At the check of MOVE, with a range, a destination in RAM and both clear of the two stack cells. */
  ghost predicate AtMove(s: Sys)
  {
    var (first, last, dst, sp) := (HL(s.c.r), GetPair(s.c.r, DE), GetPair(s.c.r, BC), s.c.r.sp);
    && Quiet(s) && s.c.pc == 0x181 && MoveCode(s.w.rom) && StackInRam(sp) && !s.w.trial
    && first <= last && InRam(dst, Count(first, last))
    && ClearOfStack(s.w.ramSize, sp, first, Count(first, last))
    && ClearOfStack(s.w.ramSize, sp, dst, Count(first, last))
  }

  /** The machine after the loop. */
  function AfterMove(s: Sys): Sys
    requires HL(s.c.r) <= GetPair(s.c.r, DE)
  {
    Steps(s, 7 + 15 * Count(HL(s.c.r), GetPair(s.c.r, DE)) - (if GetPair(s.c.r, DE) == 0xFFFF then 5 else 0))
  }

  /** The loop ends, and every destination reads as its source did. */
  ghost predicate MovesFaithfully(s: Sys)
    requires HL(s.c.r) <= GetPair(s.c.r, DE)
  {
    && AfterMove(s).c.pc == 0x190
    && forall k: nat :: k < Count(HL(s.c.r), GetPair(s.c.r, DE)) ==>
         Peek(AfterMove(s).w, Plus16(GetPair(s.c.r, BC), k)) == Peek(s.w, Plus16(HL(s.c.r), k))
  }

  /** More addresses than the chip has cells reach every one of them. */
  lemma LongHits(ramSize: RamSize, dst: word, n: nat, x: word)
    requires InRam(dst, n) && IsRam(x) && n > ramSize
    ensures Hit(ramSize, dst, n, Cell(ramSize, x))
  {
    hide Shift, Plus16, Cell;
    var d := Shift(ramSize, x, dst);
    ShiftIsSmall(ramSize, x, dst);
    var k: nat := if d == 0 then 0 else ramSize - d;
    Below(dst, k);
    CellsMeet(ramSize, x, dst, k, 0);
    assert d + k == 0 || d + k == ramSize;
    assert IsRam(Plus16(dst, k)) && Cell(ramSize, Plus16(dst, k)) == Cell(ramSize, x);
  }

  /** A range in RAM that is clear of the two stack cells is no longer than the chip. */
  lemma ClearIsShort(ramSize: RamSize, sp: word, dst: word, n: nat)
    requires StackInRam(sp) && InRam(dst, n) && ClearOfStack(ramSize, sp, dst, n)
    ensures n <= ramSize
  {
    hide Hit;
    if n > ramSize {
      LongHits(ramSize, dst, n, Dec16(sp));
    }
  }

  lemma MoveIsCopy(s: Sys)
    requires AtMove(s)
    ensures MovesFaithfully(s) <==> Faithful(s.w, HL(s.c.r), GetPair(s.c.r, BC), Count(HL(s.c.r), GetPair(s.c.r, DE)))
  {
    hide Steps, Step, Copied, Moved, HL, GetPair, Peek, Plus16, ClearOfStack, Pushed, MoveCode, SameOff, Quiet;
    var (first, dst, n) := (HL(s.c.r), GetPair(s.c.r, BC), Count(HL(s.c.r), GetPair(s.c.r, DE)));
    var m := MoveRuns(s);
    MovedMemory(AfterMove(s).w, s.w, s.c.r.sp, first, dst, n);
  }

  lemma MovedMemory(t: World, w: World, sp: word, first: word, dst: word, n: nat)
    requires StackInRam(sp) && !w.trial && ClearOfStack(w.ramSize, sp, dst, n)
    requires SameOff(t, Copied(w, first, dst, n), sp)
    ensures forall k: nat :: k < n ==> Peek(t, Plus16(dst, k)) == Peek(Copied(w, first, dst, n), Plus16(dst, k))
  {
    hide Copied, Peek, Plus16, ClearOfStack, SameOff;
    CopiedKeeps(w, first, dst, n);
    forall k: nat | k < n ensures Peek(t, Plus16(dst, k)) == Peek(Copied(w, first, dst, n), Plus16(dst, k)) {
      PeekOff(t, Copied(w, first, dst, n), sp, dst, n, k);
    }
  }

  function WithMemory(s: Sys, ram: Chip): Sys { s.(w := WithRam(s.w, ram)) }

  /** The machine code of MOVE copies every content of memory faithfully exactly if the ranges are safe. */
  lemma MoveIsExact(s: Sys)
    requires AtMove(s)
    ensures (forall ram: Chip :: MovesFaithfully(WithMemory(s, ram))) <==>
            Safe(s.w.ramSize, HL(s.c.r), GetPair(s.c.r, BC), Count(HL(s.c.r), GetPair(s.c.r, DE)))
  {
    hide Faithful, Safe, HL, GetPair, MovesFaithfully, MoveCode, ClearOfStack, StackInRam;
    var (first, dst, n) := (HL(s.c.r), GetPair(s.c.r, BC), Count(HL(s.c.r), GetPair(s.c.r, DE)));
    ClearIsShort(s.w.ramSize, s.c.r.sp, dst, n);
    CopyIsExact(s.w, first, dst, n);
    forall ram: Chip ensures MovesFaithfully(WithMemory(s, ram)) <==> Faithful(WithRam(s.w, ram), first, dst, n) {
      MoveIsCopy(WithMemory(s, ram));
    }
  }
}
