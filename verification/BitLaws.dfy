// The bits of numbers and of the bitwise operators.
module BitLaws {
  import opened Bits

  lemma {:induction false} AndBit(a: nat, b: nat, w: nat, k: nat)
    requires k < w
    ensures BitAt(AndW(a, b, w), k) <==> BitAt(a, k) && BitAt(b, k)
    decreases k
  {
    if k > 0 {
      AndBit(a / 2, b / 2, w - 1, k - 1);
    }
  }

  lemma {:induction false} OrBit(a: nat, b: nat, w: nat, k: nat)
    requires k < w
    ensures BitAt(OrW(a, b, w), k) <==> BitAt(a, k) || BitAt(b, k)
    decreases k
  {
    if k > 0 {
      OrBit(a / 2, b / 2, w - 1, k - 1);
    }
  }

  lemma {:induction false} BitIsQuotient(x: nat, k: nat)
    ensures BitAt(x, k) <==> x / Pow2(k) % 2 == 1
    decreases k
  {
    if k > 0 {
      BitIsQuotient(x / 2, k - 1);
      HalfOfHalves(x, Pow2(k - 1));
    }
  }

  lemma HalfOfHalves(x: nat, p: nat)
    requires 0 < p
    ensures x / 2 / p == x / (2 * p)
  {
    var q := x / 2 / p;
    var rest := x / 2 % p;
    assert x / 2 == p * q + rest;
    Twice(p, q);
    Quotient(2 * p, q, 2 * rest + x % 2);
  }

  lemma Twice(p: nat, q: nat)
    ensures 2 * p * q == 2 * (p * q)
  {
  }

  lemma Quotient(p: nat, q: nat, rest: nat)
    requires rest < p
    ensures (p * q + rest) / p == q
  {
    Between(p, q, (p * q + rest) / p, rest);
  }

  lemma Between(p: nat, q: nat, z: nat, rest: nat)
    requires rest < p && p * z <= p * q + rest < p * z + p
    ensures z == q
  {
    if z < q {
      AtLeast(p, q, z + 1);
    }
    if q < z {
      AtLeast(p, z, q + 1);
    }
  }

  lemma AtLeast(p: nat, x: nat, y: nat)
    requires x >= y
    ensures p * x >= p * y
  {
  }

  lemma Powers()
    ensures Pow2(0) == 1 && Pow2(2) == 4 && Pow2(3) == 8 && Pow2(4) == 16 && Pow2(6) == 64 && Pow2(7) == 128
  {
    assert Pow2(4) == 2 * Pow2(3) && Pow2(3) == 2 * Pow2(2) && Pow2(7) == 2 * Pow2(6) && Pow2(6) == 4 * Pow2(4);
  }

  /** The bits of a byte that stand for flags. */
  lemma ByteBits(x: byte)
    ensures BitAt(x, 7) <==> x >= 128
    ensures BitAt(x, 3) <==> HasBit(x, 8)
    ensures BitAt(x, 0) <==> HasBit(x, 1)
    ensures BitAt(x, 2) <==> HasBit(x, 4)
    ensures BitAt(x, 4) <==> HasBit(x, 0x10)
    ensures BitAt(x, 6) <==> HasBit(x, 0x40)
    ensures BitAt(x, 7) <==> HasBit(x, 0x80)
  {
    hide BitAt, Pow2;
    Powers();
    BitIsQuotient(x, 7);
    BitIsQuotient(x, 3);
    BitIsQuotient(x, 0);
    BitIsQuotient(x, 2);
    BitIsQuotient(x, 4);
    BitIsQuotient(x, 6);
  }

  /** What is added above bit w does not reach the bits below it. */
  lemma {:induction false} HighPart(x: nat, m: nat, w: nat, b: nat)
    requires b < w
    ensures BitAt(x + Pow2(w) * m, b) <==> BitAt(x, b)
    decreases b
  {
    var y := x + Pow2(w) * m;
    Twice(Pow2(w - 1), m);
    assert y == x + 2 * (Pow2(w - 1) * m);
    if b > 0 {
      HighPart(x / 2, m, w - 1, b - 1);
    }
  }

  /** Below the top, the bits of a byte are those of its remainder modulo 128. */
  lemma LowSeven(x: byte, b: nat)
    requires b < 7
    ensures BitAt(x % 128, b) <==> BitAt(x, b)
  {
    hide BitAt;
    Powers();
    HighPart(x % 128, x / 128, 7, b);
  }

  lemma LowPowers()
    ensures Pow2(0) == 1 && Pow2(1) == 2 && Pow2(2) == 4 && Pow2(3) == 8
    ensures Pow2(4) == 16 && Pow2(5) == 32 && Pow2(6) == 64
  {
  }

  lemma Next(x: nat, b: nat)
    ensures BitAt(x, b + 1) <==> BitAt(x / 2, b)
  {
  }

  lemma {:induction false} NotBit(x: nat, p: nat, b: nat)
    requires p == Pow2(b + 1) * (p / Pow2(b + 1)) && x < p
    ensures BitAt(p - 1 - x, b) <==> !BitAt(x, b)
    decreases b
  {
    var q := p / Pow2(b + 1);
    assert p == 2 * (Pow2(b) * q) by { assert Pow2(b + 1) == 2 * Pow2(b); }
    assert (p - 1 - x) % 2 != x % 2;
    if b > 0 {
      assert p / 2 == Pow2(b) * q;
      assert (p - 1 - x) / 2 == p / 2 - 1 - x / 2;
      Quotient(Pow2(b), q, 0);
      NotBit(x / 2, p / 2, b - 1);
    }
  }

  lemma ComplementBit(x: byte, b: nat)
    requires b < 8
    ensures BitAt(255 - x, b) <==> !BitAt(x, b)
  {
    LowPowers();
    Powers();
    assert Pow2(8) == 256;
    match b
    case 0 => NotBit(x, 256, 0); case 1 => NotBit(x, 256, 1); case 2 => NotBit(x, 256, 2); case 3 => NotBit(x, 256, 3);
    case 4 => NotBit(x, 256, 4); case 5 => NotBit(x, 256, 5); case 6 => NotBit(x, 256, 6); case _ => NotBit(x, 256, 7);
  }

  lemma {:induction false} PowerBit(j: nat, k: nat)
    ensures BitAt(Pow2(j), k) <==> k == j
    decreases j
  {
    if j > 0 && k > 0 {
      PowerBit(j - 1, k - 1);
      assert Pow2(j) / 2 == Pow2(j - 1);
    } else if k > 0 {
      ZeroBit(k - 1);
    }
  }

  lemma {:induction false} ZeroBit(k: nat)
    ensures !BitAt(0, k)
  {
    if k > 0 {
      ZeroBit(k - 1);
    }
  }

  /** The bits of a number given by its bits. */
  lemma {:induction false} BitsOfBitSum(f: seq<bool>, k: nat)
    ensures BitAt(BitSum(f), k) <==> k < |f| && f[k]
    decreases k
  {
    if f == [] {
      ZeroBit(k);
    } else if k > 0 {
      BitsOfBitSum(f[1..], k - 1);
    }
  }

  lemma OneMoreBit(b: bool, rest: seq<bool>)
    ensures BitSum([b] + rest) == AsInt(b) + 2 * BitSum(rest)
  {
    assert ([b] + rest)[1..] == rest;
  }

  lemma FourBits(a: bool, b: bool, c: bool, d: bool, rest: seq<bool>)
    ensures BitSum([a, b, c, d] + rest) ==
            AsInt(a) + 2 * AsInt(b) + 4 * AsInt(c) + 8 * AsInt(d) + 16 * BitSum(rest)
  {
    hide BitSum;
    OneMoreBit(d, rest);
    OneMoreBit(c, [d] + rest);
    OneMoreBit(b, [c] + ([d] + rest));
    OneMoreBit(a, [b] + ([c] + ([d] + rest)));
    assert [a, b, c, d] + rest == [a] + ([b] + ([c] + ([d] + rest)));
  }

  lemma NoBits()
    ensures BitSum([]) == 0
  {
  }

  lemma EightBits(a: bool, b: bool, c: bool, d: bool, e: bool, f: bool, g: bool, h: bool)
    ensures BitSum([a, b, c, d, e, f, g, h]) ==
            AsInt(a) + 2 * AsInt(b) + 4 * AsInt(c) + 8 * AsInt(d)
            + 16 * AsInt(e) + 32 * AsInt(f) + 64 * AsInt(g) + 128 * AsInt(h)
  {
    hide BitSum;
    NoBits();
    FourBits(e, f, g, h, []);
    FourBits(a, b, c, d, [e, f, g, h]);
    assert [e, f, g, h] + [] == [e, f, g, h];
    assert [a, b, c, d] + [e, f, g, h] == [a, b, c, d, e, f, g, h];
  }

  /** Setting a clear bit, and clearing a set one, by adding and subtracting its weight. */
  lemma {:induction false} SetBit(x: nat, k: nat, j: nat)
    requires !BitAt(x, k)
    ensures BitAt(x + Pow2(k), j) <==> j == k || BitAt(x, j)
    decreases k
  {
    if k > 0 {
      assert (x + Pow2(k)) / 2 == x / 2 + Pow2(k - 1);
      if j > 0 {
        SetBit(x / 2, k - 1, j - 1);
      }
    }
  }

  lemma {:induction false} ClearBit(x: nat, k: nat, j: nat)
    requires BitAt(x, k)
    ensures x >= Pow2(k) && (BitAt(x - Pow2(k), j) <==> j != k && BitAt(x, j))
    decreases k
  {
    if k > 0 {
      ClearBit(x / 2, k - 1, if j > 0 then j - 1 else 0);
      assert (x - Pow2(k)) / 2 == x / 2 - Pow2(k - 1);
    }
  }

  /** The upper half of a byte. */
  lemma HighFour(x: byte, k: nat)
    ensures BitAt(x, k + 4) <==> BitAt(x / 16, k)
  {
    assert x / 2 / 2 == x / 4 && x / 4 / 2 == x / 8 && x / 8 / 2 == x / 16;
    Next(x, k + 3);
    Next(x / 2, k + 2);
    Next(x / 4, k + 1);
    Next(x / 8, k);
  }

  lemma LowFour(x: byte, high: nat, k: nat)
    requires k < 4
    ensures BitAt(16 * high + x % 16, k) <==> BitAt(x, k)
  {
    hide BitAt;
    LowPowers();
    HighPart(x % 16, high, 4, k);
    HighPart(x % 16, x / 16, 4, k);
  }
}
