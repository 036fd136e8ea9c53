// The adder of core/src/i8080.c as arithmetic: what its carries mean, and what chains of ADC, SBB
// and ADC;DAA compute on numbers of any length.
module Arithmetic {
  import opened Bits
  import opened Cpu

  // ---------- one byte ----------

  lemma OddSum(p: nat, q: nat, c: nat)
    requires c <= 1
    ensures ((p + q + c) % 2 == 1) != ((p % 2 == 1) != (q % 2 == 1)) <==> c == 1
  {
  }

  /** The xor trick of carry_out finds the carry into bits 4 and 8. */
  lemma CarryOutIsCarry(a: byte, b: byte, cy: bool)
    ensures CarryOut(0x100, a, b, cy) <==> a as int + b as int + AsInt(cy) >= 0x100
    ensures CarryOut(0x10, a, b, cy) <==> a % 16 + b % 16 + AsInt(cy) >= 0x10
  {
    var sum := a as int + b as int + AsInt(cy);
    var half := a % 16 + b % 16 + AsInt(cy);
    assert sum / 16 == a / 16 + b / 16 + half / 16;
    OddSum(a / 16, b / 16, half / 16);
    assert a / 0x100 == 0 && b / 0x100 == 0;
    OddSum(0, 0, sum / 0x100);
  }

  lemma AddByte(r: Regs, v: byte, cy: bool)
    ensures var t := AluAdd(r, v, cy);
            && t.a as int + 256 * AsInt(t.f.cy) == r.a as int + v as int + AsInt(cy)
            && (t.f.ac <==> r.a % 16 + v % 16 + AsInt(cy) >= 16)
            && (t.f.z <==> t.a == 0) && (t.f.s <==> t.a >= 128) && t.f.p == EvenParity(t.a)
  {
    CarryOutIsCarry(r.a, v, cy);
  }

  /** a + ~v + !cy with the carry inverted is subtraction with borrow; AC is the missing nibble borrow. */
  lemma SubByte(r: Regs, v: byte, cy: bool)
    ensures var t := AluSub(r, v, cy);
            && t.a as int - 256 * AsInt(t.f.cy) == r.a as int - v as int - AsInt(cy)
            && (t.f.ac <==> r.a % 16 >= v % 16 + AsInt(cy))
            && (t.f.z <==> t.a == 0) && (t.f.s <==> t.a >= 128)
  {
    hide AluAdd, EvenParity;
    AddByte(r, 255 - v, !cy);
    assert (255 - v) % 16 == 15 - v % 16;
  }

  /** CMP compares: carry means below, zero means equal, and A is kept. */
  lemma CompareByte(r: Regs, v: byte)
    ensures AluCmp(r, v).a == r.a
    ensures AluCmp(r, v).f.cy <==> r.a < v
    ensures AluCmp(r, v).f.z <==> r.a == v
  {
    SubByte(r, v, false);
  }

  predicate Packed(x: byte) { x / 16 <= 9 && x % 16 <= 9 }

  function Decimal(x: byte): nat { 10 * (x / 16) + x % 16 }

  /** The two nibbles of a binary sum. */
  lemma NibbleSum(x: byte, y: byte, cy: bool, s: byte, c8: bool, c4: bool)
    requires s as int + 256 * AsInt(c8) == x as int + y as int + AsInt(cy)
    requires c4 <==> x % 16 + y % 16 + AsInt(cy) >= 16
    ensures s % 16 + 16 * AsInt(c4) == x % 16 + y % 16 + AsInt(cy)
    ensures s / 16 + 16 * AsInt(c8) == x / 16 + y / 16 + AsInt(c4)
  {
  }

  /** DAA adds 6 to the low digit, 6 to the high digit, and sets the carry with the latter. */
  lemma DaaDigits(r: Regs)
    ensures var t := AluDaa(r);
            var low := if r.f.ac || r.a % 16 > 9 then 6 else 0;
            var high := if DaaHigh(r.f, r.a) then 6 else 0;
            var c4 := AsInt(r.a % 16 + low >= 16);
            && t.f.cy == DaaHigh(r.f, r.a)
            && t.a % 16 + 16 * c4 == r.a % 16 + low
            && exists c8 :: 0 <= c8 <= 1 && t.a / 16 + 16 * c8 == r.a / 16 + high + c4
  {
    hide AluAdd, EvenParity, CarryOut;
    var low: byte := if r.f.ac || r.a % 16 > 9 then 0x06 else 0;
    var corr: byte := low + (if DaaHigh(r.f, r.a) then 0x60 else 0);
    assert corr % 16 == low && corr / 16 == (if DaaHigh(r.f, r.a) then 6 else 0);
    var t := AluAdd(r, corr, false);
    assert AluDaa(r).a == t.a;
    hide DaaHigh, AluDaa;
    AddByte(r, corr, false);
    NibbleSum(r.a, corr, false, t.a, t.f.cy, t.f.ac);
  }

  /** DAA after an addition of packed decimal bytes gives the packed decimal sum. */
  lemma DecimalByte(r: Regs, v: byte, cy: bool)
    requires Packed(r.a) && Packed(v)
    ensures var t := AluDaa(AluAdd(r, v, cy));
            && Packed(t.a)
            && Decimal(t.a) + 100 * AsInt(t.f.cy) == Decimal(r.a) + Decimal(v) + AsInt(cy)
  {
    hide AluAdd, AluDaa, EvenParity;
    AddByte(r, v, cy);
    var s := AluAdd(r, v, cy);
    NibbleSum(r.a, v, cy, s.a, s.f.cy, s.f.ac);
    AdjustByte(r.a, v, cy, s);
  }

  /** The adjustment of a sum of two packed bytes. */
  lemma AdjustByte(x: byte, y: byte, cy: bool, s: Regs)
    requires Packed(x) && Packed(y)
    requires s.a % 16 + 16 * AsInt(s.f.ac) == x % 16 + y % 16 + AsInt(cy)
    requires s.a / 16 + 16 * AsInt(s.f.cy) == x / 16 + y / 16 + AsInt(s.f.ac)
    ensures var t := AluDaa(s);
            && Packed(t.a)
            && Decimal(t.a) + 100 * AsInt(t.f.cy) == Decimal(x) + Decimal(y) + AsInt(cy)
  {
    hide AluDaa;
    DaaDigits(s);
    var t := AluDaa(s);
    var low := if s.f.ac || s.a % 16 > 9 then 6 else 0;
    var c4 := AsInt(s.a % 16 + low >= 16);
    var c8 :| 0 <= c8 <= 1 && t.a / 16 + 16 * c8 == s.a / 16 + (if DaaHigh(s.f, s.a) then 6 else 0) + c4;
    DecimalDigits(x / 16, x % 16, y / 16, y % 16, AsInt(cy), s.a / 16, s.a % 16, AsInt(s.f.cy), AsInt(s.f.ac),
                  t.a / 16, t.a % 16, c8, c4);
  }

  /** The decimal adjustment, digit by digit: sum digits s, corrected digits t. */
  lemma DecimalDigits(xh: nat, xl: nat, yh: nat, yl: nat, c: nat, sh: nat, sl: nat, s8: nat, s4: nat,
                      th: nat, tl: nat, t8: nat, t4: nat)
    requires xh <= 9 && xl <= 9 && yh <= 9 && yl <= 9 && c <= 1 && s8 <= 1 && s4 <= 1 && t8 <= 1 && t4 <= 1
    requires sl < 16 && sh < 16 && tl < 16 && th < 16
    requires sl + 16 * s4 == xl + yl + c && sh + 16 * s8 == xh + yh + s4
    requires tl + 16 * t4 == sl + (if s4 == 1 || sl > 9 then 6 else 0)
    requires th + 16 * t8 == sh + (if s8 == 1 || sh > 9 || (sh >= 9 && sl > 9) then 6 else 0) + t4
    ensures tl <= 9 && th <= 9
    ensures 10 * th + tl + 100 * (if s8 == 1 || sh > 9 || (sh >= 9 && sl > 9) then 1 else 0)
            == 10 * xh + xl + 10 * yh + yl + c
  {
  }

  // ---------- chains ----------

  /** A little-endian number in the given base. */
  function Value(xs: seq<nat>, base: nat): nat
  {
    if xs == [] then 0 else xs[0] + base * Value(xs[1..], base)
  }

  function Power(base: nat, n: nat): nat
  {
    if n == 0 then 1 else base * Power(base, n - 1)
  }

  /** One position of a chain: load A, operate on the other operand, keep the flags. */
  datatype Link = Adc | Sbb | AdcDaa

  function Apply(k: Link, r: Regs, v: byte): Regs
  {
    match k
    case Adc => AluOp(r, 1, v)
    case Sbb => AluOp(r, 3, v)
    case AdcDaa => AluDaa(AluOp(r, 1, v))
  }

  /** The result bytes of a chain over two operands of equal length, and the final registers. */
  function Chain(k: Link, r: Regs, xs: seq<byte>, ys: seq<byte>): (seq<byte>, Regs)
    requires |xs| == |ys|
    decreases |xs|
  {
    if xs == [] then ([], r)
    else
      var t := Apply(k, r.(a := xs[0]), ys[0]);
      var (rest, u) := Chain(k, t, xs[1..], ys[1..]);
      ([t.a] + rest, u)
  }

  lemma Carrying(base: nat, x: nat, y: nat, c: int, d: nat, c1: int, hx: nat, hy: nat, hd: nat, c2: int, p: nat)
    requires d + base * c1 == x + y + c
    requires hd + p * c2 == hx + hy + c1
    ensures (d + base * hd) + (base * p) * c2 == (x + base * hx) + (y + base * hy) + c
  {
    assert base * (hd + p * c2) == base * (hx + hy + c1);
    assert base * (p * c2) == (base * p) * c2;
  }

  /** ADC over n bytes, least significant first: the sum and its carry. */
  lemma {:induction false} AdcChain(r: Regs, xs: seq<byte>, ys: seq<byte>)
    requires |xs| == |ys|
    ensures var (zs, t) := Chain(Adc, r, xs, ys);
            && |zs| == |xs|
            && Value(zs, 256) + Power(256, |xs|) * AsInt(t.f.cy) == Value(xs, 256) + Value(ys, 256) + AsInt(r.f.cy)
    decreases |xs|
  {
    hide AluAdd;
    if xs != [] {
      var t := Apply(Adc, r.(a := xs[0]), ys[0]);
      AddByte(r.(a := xs[0]), ys[0], r.f.cy);
      AdcChain(t, xs[1..], ys[1..]);
      var (rest, u) := Chain(Adc, t, xs[1..], ys[1..]);
      assert ([t.a] + rest)[1..] == rest;
      Carrying(256, xs[0], ys[0], AsInt(r.f.cy), t.a, AsInt(t.f.cy), Value(xs[1..], 256), Value(ys[1..], 256),
               Value(rest, 256), AsInt(u.f.cy), Power(256, |xs| - 1));
    }
  }

  /** SBB over n bytes: the difference and its borrow. */
  lemma {:induction false} SbbChain(r: Regs, xs: seq<byte>, ys: seq<byte>)
    requires |xs| == |ys|
    ensures var (zs, t) := Chain(Sbb, r, xs, ys);
            && |zs| == |xs|
            && Value(zs, 256) - Power(256, |xs|) * AsInt(t.f.cy) == Value(xs, 256) - Value(ys, 256) - AsInt(r.f.cy)
    decreases |xs|
  {
    hide AluSub;
    if xs != [] {
      var t := Apply(Sbb, r.(a := xs[0]), ys[0]);
      SubByte(r.(a := xs[0]), ys[0], r.f.cy);
      SbbChain(t, xs[1..], ys[1..]);
      var (rest, u) := Chain(Sbb, t, xs[1..], ys[1..]);
      assert ([t.a] + rest)[1..] == rest;
      // x - y - c = d - 256 c1 is d + y = x + 256 c1 - c, a sum read backwards.
      Carrying(256, t.a, ys[0], AsInt(r.f.cy), xs[0], AsInt(t.f.cy), Value(rest, 256), Value(ys[1..], 256),
               Value(xs[1..], 256), AsInt(u.f.cy), Power(256, |xs| - 1));
    }
  }

  function Decimals(xs: seq<byte>): (ds: seq<nat>)
    ensures |ds| == |xs|
  {
    seq(|xs|, i requires 0 <= i < |xs| => Decimal(xs[i]))
  }

  /** ADC;DAA over n packed decimal bytes: the decimal sum, its carry, and packed bytes only. */
  lemma {:induction false} DecimalChain(r: Regs, xs: seq<byte>, ys: seq<byte>)
    requires |xs| == |ys|
    requires forall i :: 0 <= i < |xs| ==> Packed(xs[i]) && Packed(ys[i])
    ensures var (zs, t) := Chain(AdcDaa, r, xs, ys);
            && |zs| == |xs|
            && (forall i :: 0 <= i < |zs| ==> Packed(zs[i]))
            && Value(Decimals(zs), 100) + Power(100, |xs|) * AsInt(t.f.cy)
               == Value(Decimals(xs), 100) + Value(Decimals(ys), 100) + AsInt(r.f.cy)
    decreases |xs|
  {
    hide AluAdd, AluDaa;
    if xs != [] {
      var r0 := r.(a := xs[0]);
      var t := Apply(AdcDaa, r0, ys[0]);
      assert t == AluDaa(AluAdd(r0, ys[0], r0.f.cy));
      DecimalByte(r0, ys[0], r0.f.cy);
      DecimalChain(t, xs[1..], ys[1..]);
      var (rest, u) := Chain(AdcDaa, t, xs[1..], ys[1..]);
      assert Decimals([t.a] + rest)[1..] == Decimals(rest);
      assert Decimals(xs)[1..] == Decimals(xs[1..]) && Decimals(ys)[1..] == Decimals(ys[1..]);
      Carrying(100, Decimal(xs[0]), Decimal(ys[0]), AsInt(r.f.cy), Decimal(t.a), AsInt(t.f.cy),
               Value(Decimals(xs[1..]), 100), Value(Decimals(ys[1..]), 100),
               Value(Decimals(rest), 100), AsInt(u.f.cy), Power(100, |xs| - 1));
    }
  }

  lemma Grow(x: nat, base: nat, v: nat, p: nat)
    requires x < base && v < p
    ensures x + base * v < base * p
  {
    assert base * (v + 1) <= base * p;
  }

  lemma {:induction false} ValueBelow(xs: seq<nat>, base: nat)
    requires forall i :: 0 <= i < |xs| ==> xs[i] < base
    ensures Value(xs, base) < Power(base, |xs|)
  {
    if xs != [] {
      ValueBelow(xs[1..], base);
      Grow(xs[0], base, Value(xs[1..], base), Power(base, |xs| - 1));
    }
  }

  lemma Wrapped(z: nat, p: nat, c: bool, sum: nat)
    requires z < p && z + p * AsInt(c) == sum
    ensures z == sum % p && (c <==> sum >= p)
  {
    if c {
      assert sum == z + p;
    }
  }

  /** As wrap-around: an ADC chain is addition modulo 256^n and its carry. */
  lemma AdcChainWraps(r: Regs, xs: seq<byte>, ys: seq<byte>)
    requires |xs| == |ys|
    ensures var (zs, t) := Chain(Adc, r, xs, ys);
            var sum := Value(xs, 256) + Value(ys, 256) + AsInt(r.f.cy);
            var p := Power(256, |xs|);
            p > 0 && Value(zs, 256) == sum % p && (t.f.cy <==> sum >= p)
  {
    hide Chain, Value;
    AdcChain(r, xs, ys);
    var (zs, t) := Chain(Adc, r, xs, ys);
    ValueBelow(zs, 256);
    Wrapped(Value(zs, 256), Power(256, |xs|), t.f.cy, Value(xs, 256) + Value(ys, 256) + AsInt(r.f.cy));
  }

  /** An SBB chain borrows exactly when the subtrahend is larger. */
  lemma SbbChainBorrows(r: Regs, xs: seq<byte>, ys: seq<byte>)
    requires |xs| == |ys|
    ensures Chain(Sbb, r, xs, ys).1.f.cy <==> Value(xs, 256) < Value(ys, 256) + AsInt(r.f.cy)
  {
    hide Chain, Value;
    SbbChain(r, xs, ys);
    ValueBelow(Chain(Sbb, r, xs, ys).0, 256);
  }

  /** A decimal chain is addition modulo 100^n and its carry. */
  lemma DecimalChainWraps(r: Regs, xs: seq<byte>, ys: seq<byte>)
    requires |xs| == |ys|
    requires forall i :: 0 <= i < |xs| ==> Packed(xs[i]) && Packed(ys[i])
    ensures var (zs, t) := Chain(AdcDaa, r, xs, ys);
            var sum := Value(Decimals(xs), 100) + Value(Decimals(ys), 100) + AsInt(r.f.cy);
            var p := Power(100, |xs|);
            p > 0 && Value(Decimals(zs), 100) == sum % p && (t.f.cy <==> sum >= p)
  {
    hide Chain, Value, Decimals;
    DecimalChain(r, xs, ys);
    var (zs, t) := Chain(AdcDaa, r, xs, ys);
    var sum := Value(Decimals(xs), 100) + Value(Decimals(ys), 100) + AsInt(r.f.cy);
    DecimalsBelow(zs);
    Wrapped(Value(Decimals(zs), 100), Power(100, |xs|), t.f.cy, sum);
  }

  lemma DecimalsBelow(zs: seq<byte>)
    requires forall i :: 0 <= i < |zs| ==> Packed(zs[i])
    ensures Value(Decimals(zs), 100) < Power(100, |zs|)
  {
    ValueBelow(Decimals(zs), 100);
  }
}
