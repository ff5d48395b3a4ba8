/** Unsigned words as natural numbers: bitwise operators, masks, and rounding up to a power of two. */
module Bits {
  function Pow2(k: nat): (p: nat)
    ensures p >= 1
  {
    if k == 0 then 1 else 2 * Pow2(k - 1)
  }

  ghost predicate IsPow2(x: nat) { exists k: nat :: x == Pow2(k) }

  function And(x: nat, y: nat): nat {
    if x == 0 || y == 0 then 0 else (x % 2) * (y % 2) + 2 * And(x / 2, y / 2)
  }

  function Or(x: nat, y: nat): nat {
    if x == 0 then y else if y == 0 then x
    else (if x % 2 == 1 || y % 2 == 1 then 1 else 0) + 2 * Or(x / 2, y / 2)
  }

  function Shr(x: nat, k: nat): nat { if k == 0 then x else Shr(x / 2, k - 1) }

  predicate Bit(x: nat, i: nat) { if i == 0 then x % 2 == 1 else Bit(x / 2, i - 1) }

  lemma {:induction false} Pow2Mono(i: nat, j: nat)
    requires i <= j
    ensures Pow2(i) <= Pow2(j)
    ensures i < j ==> Pow2(i) < Pow2(j)
  {
    if i < j {
      Pow2Mono(i, j - 1);
    }
  }

  function Rem(x: nat, m: nat): nat
    requires m > 0
  {
    x % m
  }

  // Masking with 2^k - 1 is the remainder modulo 2^k.
  lemma AndMask(x: nat, k: nat)
    ensures And(x, Pow2(k) - 1) == x % Pow2(k)
  {
    AndRem(x, k);
    hide Pow2, And;
    assert Rem(x, Pow2(k)) == x % Pow2(k);
  }

  lemma {:induction false} AndRem(x: nat, k: nat)
    ensures And(x, Pow2(k) - 1) == Rem(x, Pow2(k))
  {
    hide And, Rem;
    if k == 0 || x == 0 {
      MaskZero(x, Pow2(k));
    } else {
      AndRem(x / 2, k - 1);
      MaskDouble(x, Pow2(k - 1));
    }
  }

  lemma MaskZero(x: nat, p: nat)
    requires p == 1 || (x == 0 && p > 0)
    ensures And(x, p - 1) == 0 == Rem(x, p)
  {
    RemZero(x, p);
  }

  lemma MaskDouble(x: nat, p: nat)
    requires p > 0 && x > 0 && And(x / 2, p - 1) == Rem(x / 2, p)
    ensures And(x, 2 * p - 1) == Rem(x, 2 * p)
  {
    hide And, Rem;
    AndOdd(x, p);
    ModDouble(x, p);
  }

  lemma RemWrap(x: nat, m: nat)
    requires 0 < m && x < m + m
    ensures Rem(x, m) == if x < m then x else x - m
  {
    if x < m {
      ModUnique(x, m, 0, x);
    } else {
      ModUnique(x, m, 1, x - m);
    }
  }

  lemma RemZero(x: nat, p: nat)
    requires p == 1 || (x == 0 && p > 0)
    ensures Rem(x, p) == 0
  {
  }

  lemma AndOdd(x: nat, p: nat)
    requires p >= 1 && x > 0
    ensures And(x, 2 * p - 1) == x % 2 + 2 * And(x / 2, p - 1)
  {
    var y := 2 * p - 1;
    assert y / 2 == p - 1 && y % 2 == 1;
  }

  lemma ModDouble(x: nat, p: nat)
    requires p >= 1
    ensures Rem(x, 2 * p) == x % 2 + 2 * Rem(x / 2, p)
  {
    var q, r := (x / 2) / p, (x / 2) % p;
    assert x == q * (2 * p) + (x % 2 + 2 * r) by {
      assert x / 2 == q * p + r;
      assert q * (2 * p) == 2 * (q * p);
    }
    ModUnique(x, 2 * p, q, x % 2 + 2 * r);
  }

  lemma ModUnique(x: int, m: nat, q: int, r: nat)
    requires 0 <= r < m && x == q * m + r
    ensures x % m == r && x / m == q
  {
    var q' := x / m;
    var r' := x % m;
    assert x == q' * m + r';
    assert (q - q') * m == r' - r && (q' - q) * m == r - r';
    if q > q' {
      MulAtLeast(q - q', m);
    } else if q < q' {
      MulAtLeast(q' - q, m);
    }
  }

  lemma MulAtLeast(a: nat, m: nat)
    requires a >= 1
    ensures a * m >= m
  {
    assert a * m == m + (a - 1) * m;
  }

  lemma {:induction false} BitOr(x: nat, y: nat, i: nat)
    ensures Bit(Or(x, y), i) <==> Bit(x, i) || Bit(y, i)
  {
    if x == 0 {
      ZeroBits(i);
    } else if y == 0 {
      ZeroBits(i);
    } else if i > 0 {
      BitOr(x / 2, y / 2, i - 1);
    }
  }

  lemma {:induction false} ZeroBits(i: nat)
    ensures !Bit(0, i)
  {
    if i > 0 {
      ZeroBits(i - 1);
    }
  }

  lemma {:induction false} BitShr(x: nat, k: nat, i: nat)
    ensures Bit(Shr(x, k), i) <==> Bit(x, i + k)
  {
    if k > 0 {
      BitShr(x / 2, k - 1, i);
    }
  }

  lemma {:induction false} ShrSmall(x: nat, k: nat)
    ensures Shr(x, k) <= x
  {
    if k > 0 {
      ShrSmall(x / 2, k - 1);
    }
  }

  lemma {:induction false} OrSmall(x: nat, y: nat, n: nat)
    requires x < Pow2(n) && y < Pow2(n)
    ensures Or(x, y) < Pow2(n)
  {
    if x > 0 && y > 0 {
      OrSmall(x / 2, y / 2, n - 1);
    }
  }

  lemma {:induction false} OnesAre(x: nat, n: nat)
    requires x < Pow2(n) && forall i: nat :: i < n ==> Bit(x, i)
    ensures x == Pow2(n) - 1
  {
    if n > 0 {
      assert Bit(x, 0);
      forall i: nat | i < n - 1 ensures Bit(x / 2, i) {
        assert Bit(x, i + 1);
      }
      OnesAre(x / 2, n - 1);
    }
  }

  // The number of significant bits.
  function Width(x: nat): nat { if x == 0 then 0 else 1 + Width(x / 2) }

  lemma {:induction false} WidthBounds(x: nat)
    ensures x < Pow2(Width(x)) && (x == 0 ==> Width(x) == 0)
    ensures x > 0 ==> Width(x) > 0 && Pow2(Width(x) - 1) <= x && Bit(x, Width(x) - 1)
  {
    if x > 1 {
      WidthBounds(x / 2);
    }
  }

  lemma {:induction false} WidthFits(x: nat, n: nat)
    requires x < Pow2(n)
    ensures Width(x) <= n
  {
    if x > 0 {
      WidthFits(x / 2, n - 1);
    }
  }

  // One step of the bit smearing: x | x >> s doubles the run of ones below the top bit.
  ghost predicate TopOnes(x: nat, n: nat, m: nat) {
    x < Pow2(n) && forall i: nat {:trigger Bit(x, i)} :: i < n && n <= i + m ==> Bit(x, i)
  }

  lemma Smear(x: nat, n: nat, m: nat)
    requires TopOnes(x, n, m)
    ensures TopOnes(Or(x, Shr(x, m)), n, m + m)
  {
    ShrSmall(x, m);
    OrSmall(x, Shr(x, m), n);
    forall i: nat | i < n && n <= i + m + m ensures Bit(Or(x, Shr(x, m)), i) {
      BitOr(x, Shr(x, m), i);
      BitShr(x, m, i);
      if n > i + m {
        assert Bit(x, i + m);
      }
    }
  }

  lemma SmearStart(x0: nat)
    requires 1 <= x0 <= Pow2(63)
    ensures Width(x0 - 1) <= 63 && TopOnes(x0 - 1, Width(x0 - 1), 1)
  {
    hide Pow2;
    WidthBounds(x0 - 1);
    WidthFits(x0 - 1, 63);
  }

  lemma AllOnes(x: nat, n: nat)
    requires TopOnes(x, n, 64) && n <= 63
    ensures x + 1 == Pow2(n)
  {
    assert x < Pow2(n) && forall j: nat :: j < n ==> Bit(x, j);
    hide TopOnes, Bit, Pow2;
    OnesAre(x, n);
  }

  lemma SmearEnd(x0: nat, x: nat)
    requires 1 <= x0 && TopOnes(x, Width(x0 - 1), 64) && Width(x0 - 1) <= 63
    ensures IsPow2(x + 1) && x0 <= x + 1 < 2 * x0
  {
    hide TopOnes, Bit, Width;
    AllOnes(x, Width(x0 - 1));
    WidthBounds(x0 - 1);
  }

  // ceilToPow2 on a 64-bit word: decrement, smear, increment.
  method CeilToPow2(x0: nat) returns (x: nat)
    requires 1 <= x0 <= Pow2(63)
    ensures IsPow2(x) && x >= x0 && x < 2 * x0
  {
    hide *;
    SmearStart(x0);
    x := x0 - 1;
    ghost var n := Width(x);
    Smear(x, n, 1);
    x := Or(x, Shr(x, 1));
    Smear(x, n, 2);
    x := Or(x, Shr(x, 2));
    Smear(x, n, 4);
    x := Or(x, Shr(x, 4));
    var i := 1;
    ghost var m := 8;
    while i < 8
      invariant (i == 1 && m == 8) || (i == 2 && m == 16) || (i == 4 && m == 32) || (i == 8 && m == 64)
      invariant TopOnes(x, n, m)
      decreases 8 - i
    {
      Smear(x, n, m);
      x := Or(x, Shr(x, i * 8));
      i, m := i * 2, m * 2;
    }
    SmearEnd(x0, x);
    x := x + 1;
  }
}
