// Machine integers of the emulator: uint8_t, uint16_t and uint32_t as bounded integers, and the
// bitwise operators of C as functions on them.
module Bits {

  type byte = x: int | 0 <= x < 0x100
  type word = x: int | 0 <= x < 0x1_0000
  type u32 = x: int | 0 <= x < U32

  const U32: int := 0x1_0000_0000

  function Hi(v: word): byte { v / 256 }

  function Lo(v: word): byte { v % 256 }

  function Word(hi: byte, lo: byte): word { hi * 256 + lo }

  function Inc16(v: word): word { (v + 1) % 0x1_0000 }

  function Dec16(v: word): word { (v + 0xFFFF) % 0x1_0000 }

  function Plus16(v: word, n: nat): word { (v + n) % 0x1_0000 }

  lemma IncPlus(v: word, n: nat)
    ensures Plus16(Inc16(v), n) == Plus16(v, n + 1)
  {
    if v == 0xFFFF {
      assert v + (n + 1) == n + 0x1_0000;
    }
  }

  function Add32(x: u32, y: u32): u32 { (x + y) % U32 }

  function AsInt(b: bool): (n: int)
    ensures n == 0 || n == 1
  {
    if b then 1 else 0
  }

  /** `x & mask`, for a mask of one bit. */
  predicate HasBit(x: nat, mask: nat)
    requires 0 < mask
  {
    x / mask % 2 == 1
  }

  /** `x & (1 << k)`. */
  predicate BitAt(x: nat, k: nat)
    decreases x, k
  {
    if k == 0 then x % 2 == 1 else BitAt(x / 2, k - 1)
  }

  function Pow2(n: nat): (p: nat)
    ensures 0 < p
  {
    if n == 0 then 1 else 2 * Pow2(n - 1)
  }

  /** Bitwise AND, OR and XOR of two `w`-bit numbers, one bit at a time. */
  function AndW(a: nat, b: nat, w: nat): (r: nat)
    ensures r < Pow2(w)
    decreases a, b, w
  {
    if w == 0 then 0 else 2 * AndW(a / 2, b / 2, w - 1) + AsInt(a % 2 == 1 && b % 2 == 1)
  }

  function OrW(a: nat, b: nat, w: nat): (r: nat)
    ensures r < Pow2(w)
    decreases a, b, w
  {
    if w == 0 then 0 else 2 * OrW(a / 2, b / 2, w - 1) + AsInt(a % 2 == 1 || b % 2 == 1)
  }

  function XorW(a: nat, b: nat, w: nat): (r: nat)
    ensures r < Pow2(w)
    decreases a, b, w
  {
    if w == 0 then 0 else 2 * XorW(a / 2, b / 2, w - 1) + AsInt(a % 2 != b % 2)
  }

  function And8(a: byte, b: byte): byte { AndW(a, b, 8) }

  function Or8(a: byte, b: byte): byte { OrW(a, b, 8) }

  function Xor8(a: byte, b: byte): byte { XorW(a, b, 8) }

  /** How many bits of `v` are set. */
  function Ones(v: nat): nat
  {
    if v == 0 then 0 else v % 2 + Ones(v / 2)
  }

  predicate EvenParity(v: byte) { Ones(v) % 2 == 0 }

  lemma {:induction false} XorBit(a: nat, b: nat, w: nat, k: nat)
    requires k < w
    ensures BitAt(XorW(a, b, w), k) <==> (BitAt(a, k) != BitAt(b, k))
    decreases k
  {
    if k > 0 {
      XorBit(a / 2, b / 2, w - 1, k - 1);
    }
  }

  lemma {:induction false} OrZero(a: nat, b: nat, w: nat)
    requires a < Pow2(w) && b < Pow2(w)
    ensures OrW(a, b, w) == 0 <==> a == 0 && b == 0
  {
    if w > 0 {
      OrZero(a / 2, b / 2, w - 1);
    }
  }

  lemma {:induction false} XorSelf(a: nat, w: nat)
    ensures XorW(a, a, w) == 0
  {
    if w > 0 {
      XorSelf(a / 2, w - 1);
    }
  }

  /** A number below 2^w is the sum of its bits. */
  function BitSum(f: seq<bool>): nat
  {
    if f == [] then 0 else AsInt(f[0]) + 2 * BitSum(f[1..])
  }

  lemma {:induction false} BitSumOfBits(x: nat, f: seq<bool>)
    requires x < Pow2(|f|)
    requires forall k :: 0 <= k < |f| ==> f[k] == BitAt(x, k)
    ensures BitSum(f) == x
    decreases |f|
  {
    if f != [] {
      assert f[0] == BitAt(x, 0);
      forall k | 0 <= k < |f[1..]| ensures f[1..][k] == BitAt(x / 2, k) {
        assert f[1..][k] == f[k + 1];
      }
      BitSumOfBits(x / 2, f[1..]);
    }
  }

  lemma {:induction false} BitSumSnoc(f: seq<bool>, b: bool)
    ensures BitSum(f + [b]) == BitSum(f) + Pow2(|f|) * AsInt(b)
    ensures BitSum(f) < Pow2(|f|)
  {
    if f == [] {
      assert [b][1..] == [];
    } else {
      BitSumSnoc(f[1..], b);
      assert (f + [b])[1..] == f[1..] + [b];
    }
  }
}
