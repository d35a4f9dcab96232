/** Facts about the bits of unsigned words. */
module BitFacts {
  import opened Bytes

  lemma {:induction false} MulAtLeast(a: int, d: nat)
    requires a >= 1
    ensures a * d >= d
  {
  }

  lemma {:induction false} DivUnique(y: nat, d: nat, q: nat, r: nat)
    requires d > 0 && y == q * d + r && r < d
    ensures y / d == q && y % d == r
  {
    var k := y / d;
    assert y == k * d + y % d;
    assert (q - k) * d == q * d - k * d;
    assert (k - q) * d == k * d - q * d;
    if q > k {
      MulAtLeast(q - k, d);
    } else if q < k {
      MulAtLeast(k - q, d);
    }
  }

  lemma {:induction false} Pow2Sum(a: nat, b: nat)
    ensures Pow2(a + b) == Pow2(a) * Pow2(b)
  {
    if a > 0 {
      Pow2Sum(a - 1, b);
    }
  }

  lemma {:induction false} BitOfHalf(y: nat, i: nat)
    requires i > 0
    ensures Bit(y, i) == Bit(y / 2, i - 1)
  {
    var p := Pow2(i - 1);
    var q, s := y / 2 / p, y / 2 % p;
    assert y / 2 == q * p + s;
    assert y == q * (2 * p) + (2 * s + y % 2);
    DivUnique(y, 2 * p, q, 2 * s + y % 2);
  }

  lemma {:induction false} DivModFacts(x: nat, d: nat)
    requires d > 0
    ensures x == x / d * d + x % d && 0 <= x % d < d && 0 <= x / d
  {
  }

  lemma {:induction false} MulDouble(q: int, m: int)
    ensures q * (2 * m) == 2 * (q * m)
  {
  }

  /** Halving commutes with taking the remainder of d = 2 * m. */
  lemma {:induction false} HalfOfRemainder(x: nat, m: nat, d: nat)
    requires m > 0 && d == 2 * m
    ensures (x % d) / 2 == (x / 2) % m && (x % d) % 2 == x % 2
  {
    DivModFacts(x, d);
    HalfOfParts(x, m, d, x / d, x % d);
  }

  lemma {:induction false} HalfOfParts(x: nat, m: nat, d: nat, q: nat, r: nat)
    requires m > 0 && d == 2 * m && x == q * d + r && r < d
    ensures r / 2 == (x / 2) % m && r % 2 == x % 2
  {
    MulDouble(q, m);
    var k := q * m;
    HalfOfSum(x, k, r);
    DivUnique(x / 2, m, q, r / 2);
  }

  lemma {:induction false} HalfOfSum(x: nat, k: nat, r: nat)
    requires x == 2 * k + r
    ensures x / 2 == k + r / 2 && x % 2 == r % 2
  {
  }

  lemma {:induction false} BitOfRemainder(x: nat, n: nat, i: nat)
    ensures Bit(x % Pow2(n), i) == (i < n && Bit(x, i))
  {
    if n == 0 {
      assert x % 1 == 0;
      BitOfZero(i);
    } else {
      HalfOfRemainder(x, Pow2(n - 1), Pow2(n));
      if i > 0 {
        BitOfRemainder(x / 2, n - 1, i - 1);
        BitOfHalf(x, i);
        BitOfHalf(x % Pow2(n), i);
      }
    }
  }

  lemma {:induction false} BitOfZero(i: nat)
    ensures !Bit(0, i)
  {
    DivUnique(0, Pow2(i), 0, 0);
  }

  lemma {:induction false} Pow2Of32()
    ensures Pow2(32) == 0x1_0000_0000
  {
    assert Pow2(8) == 256;
    Pow2Sum(8, 8);
    Pow2Sum(16, 16);
  }

  /** Truncating a mask to 32 bits adds no bit. */
  lemma {:induction false} LowBits(x: nat)
    ensures Bits(x % 0x1_0000_0000) <= Bits(x)
  {
    Pow2Of32();
    forall i: nat | i < 64 && Bit(x % 0x1_0000_0000, i) ensures Bit(x, i) {
      BitOfRemainder(x, 32, i);
    }
  }

  /** x | (1 << k). */
  function OrBit(x: nat, k: nat): nat {
    if Bit(x, k) then x else x + Pow2(k)
  }

  lemma {:induction false} AddBitFits(x: nat, k: nat, n: nat)
    requires x < Pow2(n) && k < n && !Bit(x, k)
    ensures x + Pow2(k) < Pow2(n)
  {
    var h, top := x / 2, Pow2(n - 1);
    assert x == 2 * h + x % 2 && Pow2(n) == 2 * top;
    assert h < top;
    if k > 0 {
      var p := Pow2(k - 1);
      BitOfHalf(x, k);
      AddBitFits(h, k - 1, n - 1);
      assert h + p < top && Pow2(k) == 2 * p;
    } else {
      assert x % 2 == 0;
    }
  }

  lemma {:induction false} HalfOfEvenSum(x: nat, p: nat)
    ensures (x + 2 * p) / 2 == x / 2 + p && (x + 2 * p) % 2 == x % 2
  {
  }

  lemma {:induction false} BitOfSum(x: nat, k: nat, i: nat)
    requires !Bit(x, k)
    ensures Bit(x + Pow2(k), i) == (i == k || Bit(x, i))
  {
    var y := x + Pow2(k);
    if k > 0 {
      HalfOfEvenSum(x, Pow2(k - 1));
      BitOfHalf(x, k);
      if i > 0 {
        BitOfSum(x / 2, k - 1, i - 1);
        BitOfHalf(x, i);
        BitOfHalf(y, i);
      }
    } else if i > 0 {
      assert y / 2 == x / 2;
      BitOfHalf(x, i);
      BitOfHalf(y, i);
    }
  }

  lemma {:induction false} BitsOfOr(x: nat, k: nat)
    requires k < 64
    ensures Bits(OrBit(x, k)) == Bits(x) + {k}
  {
    forall i: nat ensures Bit(OrBit(x, k), i) == (i == k || Bit(x, i)) {
      if !Bit(x, k) {
        BitOfSum(x, k, i);
      }
    }
  }

  lemma {:induction false} Pow2Of16()
    ensures Pow2(16) == 0x1_0000
  {
    assert Pow2(8) == 256;
    Pow2Sum(8, 8);
  }
}
