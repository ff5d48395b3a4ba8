/**
 * The arithmetic of crc32.c on polynomials over GF(2) modulo the CRC polynomial p(x), reflected:
 * the coefficient of x^i is bit 31 - i.  Exclusive-or is addition, and Step is multiplication by x.
 */
module Gf2 {
  import Bits

  const POLY: bv32 := 0xedb88320   // x^32 mod p(x)
  const ONE: bv32 := 0x80000000    // x^0

  // ---- words -----------------------------------------------------------------------------------

  function Xor(a: bv32, b: bv32): bv32 { a ^ b }

  function Half(b: bv32): bv32 { b >> 1 }

  function Shl(a: bv32): bv32 { a << 1 }

  // x^31 times x wraps to x^32 mod p(x).
  function Carry(b: bv32): bv32 { if b & 1 == 1 then POLY else 0 }

  // Multiplication by x.
  function Step(b: bv32): bv32 { Xor(Half(b), Carry(b)) }

  // The constant coefficient of a selects b.
  function Pick(a: bv32, b: bv32): bv32 { if a & ONE != 0 then b else 0 }

  lemma XorAlgebra(a: bv32, b: bv32, c: bv32)
    ensures Xor(a, b) == Xor(b, a) && Xor(Xor(a, b), c) == Xor(a, Xor(b, c))
    ensures Xor(a, 0) == a && Xor(0, a) == a && Xor(a, a) == 0
  {
    hide Xor;
    XorCommutes(a, b);
    XorAssociates(a, b, c);
    XorUnit(a);
  }

  lemma XorCommutes(a: bv32, b: bv32)
    ensures Xor(a, b) == Xor(b, a)
  {
  }

  lemma XorAssociates(a: bv32, b: bv32, c: bv32)
    ensures Xor(Xor(a, b), c) == Xor(a, Xor(b, c))
  {
  }

  lemma XorUnit(a: bv32)
    ensures Xor(a, 0) == a && Xor(0, a) == a && Xor(a, a) == 0
  {
  }

  lemma XorSwap(a: bv32, b: bv32, c: bv32, d: bv32)
    ensures Xor(Xor(a, b), Xor(c, d)) == Xor(Xor(a, c), Xor(b, d))
  {
    hide Xor;
    XorAlgebra(a, b, Xor(c, d));
    XorAlgebra(b, c, d);
    XorAlgebra(c, b, d);
    XorAlgebra(a, c, Xor(b, d));
  }

  lemma HalfXor(a: bv32, b: bv32)
    ensures Half(Xor(a, b)) == Xor(Half(a), Half(b))
    ensures Shl(Xor(a, b)) == Xor(Shl(a), Shl(b))
  {
  }

  lemma CarryXor(a: bv32, b: bv32)
    ensures Carry(Xor(a, b)) == Xor(Carry(a), Carry(b))
  {
    assert (a ^ b) & 1 == (a & 1) ^ (b & 1);
    assert a & 1 == 0 || a & 1 == 1;
    assert b & 1 == 0 || b & 1 == 1;
  }

  lemma PickXor(a: bv32, b: bv32, c: bv32)
    ensures Pick(Xor(a, b), c) == Xor(Pick(a, c), Pick(b, c))
    ensures Pick(a, Xor(b, c)) == Xor(Pick(a, b), Pick(a, c))
  {
    TopXor(a, b);
    XorAlgebra(c, c, c);
    XorAlgebra(0, 0, 0);
    hide Xor;
  }

  lemma TopXor(a: bv32, b: bv32)
    ensures Xor(a, b) & ONE != 0 <==> (a & ONE != 0) != (b & ONE != 0)
  {
    assert (a ^ b) & ONE == (a & ONE) ^ (b & ONE);
    assert a & ONE == 0 || a & ONE == ONE;
    assert b & ONE == 0 || b & ONE == ONE;
  }

  lemma StepXor(a: bv32, b: bv32)
    ensures Step(Xor(a, b)) == Xor(Step(a), Step(b))
  {
    hide Xor, Half, Carry;
    HalfXor(a, b);
    CarryXor(a, b);
    XorSwap(Half(a), Half(b), Carry(a), Carry(b));
  }

  lemma StepZero()
    ensures Step(0) == 0
  {
  }

  lemma StepInjective(b: bv32)
    requires Step(b) == 0
    ensures b == 0
  {
  }

  // ---- powers of x -----------------------------------------------------------------------------

  // b times x^k.
  function Iter(k: nat, b: bv32): bv32 { if k == 0 then b else Step(Iter(k - 1, b)) }

  lemma {:induction false} IterAdd(j: nat, k: nat, b: bv32)
    ensures Iter(j + k, b) == Iter(j, Iter(k, b))
  {
    if j > 0 {
      IterAdd(j - 1, k, b);
    }
  }

  lemma {:induction false} IterXor(k: nat, a: bv32, b: bv32)
    ensures Iter(k, Xor(a, b)) == Xor(Iter(k, a), Iter(k, b))
  {
    hide Xor, Step;
    if k > 0 {
      IterXor(k - 1, a, b);
      StepXor(Iter(k - 1, a), Iter(k - 1, b));
    }
  }

  lemma {:induction false} IterZero(k: nat)
    ensures Iter(k, 0) == 0
  {
    hide Step;
    if k > 0 {
      IterZero(k - 1);
      StepZero();
    }
  }

  // x^k is never zero modulo p(x).
  lemma {:induction false} IterNonZero(k: nat, b: bv32)
    requires b != 0
    ensures Iter(k, b) != 0
  {
    hide Step;
    if k > 0 {
      IterNonZero(k - 1, b);
      if Step(Iter(k - 1, b)) == 0 {
        StepInjective(Iter(k - 1, b));
      }
    }
  }

  // ---- the product -----------------------------------------------------------------------------

  // The first n coefficients of a, times b.
  function MulN(a: bv32, b: bv32, n: nat): bv32
    decreases n
  {
    if n == 0 then 0 else Xor(Pick(a, b), MulN(Shl(a), Step(b), n - 1))
  }

  // a(x) b(x) mod p(x)
  function Mul(a: bv32, b: bv32): bv32 { MulN(a, b, 32) }

  lemma {:induction false} MulNRight(a: bv32, b: bv32, c: bv32, n: nat)
    ensures MulN(a, Xor(b, c), n) == Xor(MulN(a, b, n), MulN(a, c, n))
    decreases n
  {
    hide Xor, Step, Shl, Pick;
    if n == 0 {
      XorAlgebra(0, 0, 0);
    } else {
      StepXor(b, c);
      MulNRight(Shl(a), Step(b), Step(c), n - 1);
      PickXor(a, b, c);
      XorSwap(Pick(a, b), Pick(a, c), MulN(Shl(a), Step(b), n - 1), MulN(Shl(a), Step(c), n - 1));
    }
  }

  lemma {:induction false} MulNLeft(a: bv32, b: bv32, c: bv32, n: nat)
    ensures MulN(Xor(a, b), c, n) == Xor(MulN(a, c, n), MulN(b, c, n))
    decreases n
  {
    hide Xor, Step, Shl, Pick;
    if n == 0 {
      XorAlgebra(0, 0, 0);
    } else {
      HalfXor(a, b);
      MulNLeft(Shl(a), Shl(b), Step(c), n - 1);
      PickXor(a, b, c);
      XorSwap(Pick(a, c), Pick(b, c), MulN(Shl(a), Step(c), n - 1), MulN(Shl(b), Step(c), n - 1));
    }
  }

  lemma {:induction false} MulNStep(a: bv32, b: bv32, n: nat)
    ensures MulN(a, Step(b), n) == Step(MulN(a, b, n))
    decreases n
  {
    if n == 0 {
      StepZero();
    } else {
      MulNStep(Shl(a), Step(b), n - 1);
      StepPick(a, b);
      StepXor(Pick(a, b), MulN(Shl(a), Step(b), n - 1));
    }
  }

  lemma StepPick(a: bv32, b: bv32)
    ensures Pick(a, Step(b)) == Step(Pick(a, b))
  {
  }

  // A zero left factor; and the factor x^0.
  lemma {:induction false} MulNZero(b: bv32, n: nat)
    ensures MulN(0, b, n) == 0
    decreases n
  {
    if n > 0 {
      MulNZero(Step(b), n - 1);
      assert Shl(0) == 0 && Pick(0, b) == 0;
      XorAlgebra(0, 0, 0);
    }
  }

  lemma MulOneLeft(b: bv32)
    ensures Mul(ONE, b) == b
  {
    assert Shl(ONE) == 0 && Pick(ONE, b) == b;
    MulNZero(Step(b), 31);
    XorAlgebra(b, 0, 0);
  }

  // Shifting right k places.
  function Shr(a: bv32, k: nat): bv32 { if k == 0 then a else Half(Shr(a, k - 1)) }

  lemma {:induction false} ShrXor(a: bv32, b: bv32, k: nat)
    ensures Shr(Xor(a, b), k) == Xor(Shr(a, k), Shr(b, k))
  {
    hide Xor, Half;
    if k > 0 {
      ShrXor(a, b, k - 1);
      HalfXor(Shr(a, k - 1), Shr(b, k - 1));
    }
  }

  lemma {:induction false} ShrHalf(a: bv32, k: nat)
    ensures Shr(Half(a), k) == Shr(a, k + 1)
  {
    hide Half;
    if k > 0 {
      ShrHalf(a, k - 1);
    }
  }

  // A word is its top bit and the rest.
  lemma TopAndRest(a: bv32)
    ensures a == Xor(Pick(a, ONE), Half(Shl(a)))
  {
    assert (a << 1) >> 1 == a & 0x7fffffff;
    assert a == (a & 0x80000000) ^ (a & 0x7fffffff);
    assert a & 0x80000000 == 0 || a & 0x80000000 == 0x80000000;
  }

  lemma {:induction false} ShrPick(a: bv32, b: bv32, k: nat)
    ensures Shr(Pick(a, b), k) == Pick(a, Shr(b, k))
  {
    if k > 0 {
      ShrPick(a, b, k - 1);
    }
  }

  lemma {:induction false} ShrOut(k: nat)
    ensures Shr(0, k) == 0
  {
    if k > 0 {
      ShrOut(k - 1);
    }
  }

  lemma {:induction false} ShrAdd(a: bv32, j: nat, k: nat)
    ensures Shr(a, j + k) == Shr(Shr(a, j), k)
  {
    if k > 0 {
      ShrAdd(a, j, k - 1);
    }
  }

  lemma ShrFour(a: bv32)
    ensures Shr(a, 4) == a >> 4
  {
    assert Shr(a, 1) == a >> 1;
    assert Shr(a, 2) == a >> 2;
    assert Shr(a, 3) == a >> 3;
  }

  lemma OneLast()
    ensures Shr(ONE, 31) == 1
  {
    ShrFour(ONE);
    ShrAdd(ONE, 4, 4); ShrFour(0x08000000);
    ShrAdd(ONE, 8, 4); ShrFour(0x00800000);
    ShrAdd(ONE, 12, 4); ShrFour(0x00080000);
    ShrAdd(ONE, 16, 4); ShrFour(0x00008000);
    ShrAdd(ONE, 20, 4); ShrFour(0x00000800);
    ShrAdd(ONE, 24, 4); ShrFour(0x00000080);
    assert Shr(ONE, 28) == 8;
    assert Shr(ONE, 29) == 4;
    assert Shr(ONE, 30) == 2;
  }

  predicate SingleBit(b: bv32) { b != 0 && b & (b - 1) == 0 }

  lemma SingleBitHalf(b: bv32)
    requires SingleBit(b) && Half(b) != 0
    ensures SingleBit(Half(b)) && Carry(b) == 0
  {
  }

  lemma {:induction false} OneSingle(k: nat)
    requires k <= 31
    ensures SingleBit(Shr(ONE, k))
  {
    hide Half, SingleBit, Shr;
    if k == 0 {
      OneIsSingle();
    } else {
      OneSingle(k - 1);
      OneNotOut(k);
      ShrAdd(ONE, k - 1, 1);
      ShrByOne(Shr(ONE, k - 1));
      SingleBitHalf(Shr(ONE, k - 1));
    }
  }

  lemma OneIsSingle()
    ensures SingleBit(Shr(ONE, 0))
  {
  }

  lemma ShrByOne(a: bv32)
    ensures Shr(a, 1) == Half(a)
  {
    assert Shr(a, 0) == a;
  }

  lemma OneNotOut(k: nat)
    requires k <= 31
    ensures Shr(ONE, k) != 0
  {
    hide Half;
    OneLast();
    ShrAdd(ONE, k, 31 - k);
    ShrOut(31 - k);
  }

  // Until it reaches x^31, multiplying x^k by x is a plain shift.
  lemma OneShifts(k: nat)
    requires k < 31
    ensures Step(Shr(ONE, k)) == Shr(ONE, k + 1)
  {
    hide Xor, Half, Carry, SingleBit;
    OneSingle(k);
    OneNotOut(k + 1);
    SingleBitHalf(Shr(ONE, k));
    XorAlgebra(Shr(ONE, k + 1), 0, 0);
  }

  // The sum of a's terms is a.
  lemma {:induction false} MulNOne(a: bv32, k: nat)
    requires k <= 31
    ensures MulN(a, Shr(ONE, k), 32 - k) == Shr(a, k)
    decreases 32 - k
  {
    hide Xor, Half, Carry, Shl, Pick, Step;
    ShrPick(a, ONE, k);
    ShrXor(Pick(a, ONE), Half(Shl(a)), k);
    TopAndRest(a);
    ShrHalf(Shl(a), k);
    if k < 31 {
      OneShifts(k);
      MulNOne(Shl(a), k + 1);
    } else {
      ShrAll(Shl(a));
      assert MulN(Shl(a), Step(Shr(ONE, k)), 0) == 0;
    }
  }

  lemma ShrEight(a: bv32)
    ensures Shr(a, 8) == a >> 8
  {
    ShrFour(a);
    ShrAdd(a, 4, 4);
    ShrFour(a >> 4);
    hide Shr;
    assert (a >> 4) >> 4 == a >> 8;
  }

  lemma ShrSixteen(a: bv32)
    ensures Shr(a, 16) == a >> 16
  {
    hide Shr;
    ShrEight(a);
    ShrAdd(a, 8, 8);
    ShrEight(a >> 8);
    assert (a >> 8) >> 8 == a >> 16;
  }

  lemma ShrAll(a: bv32)
    ensures Shr(a, 32) == 0
  {
    hide Shr;
    ShrSixteen(a);
    ShrAdd(a, 16, 16);
    ShrSixteen(a >> 16);
    assert (a >> 16) >> 16 == 0;
  }

  lemma MulOneRight(a: bv32)
    ensures Mul(a, ONE) == a
  {
    MulNOne(a, 0);
  }

  lemma MulStepRight(a: bv32, b: bv32)
    ensures Mul(a, Step(b)) == Step(Mul(a, b))
  {
    MulNStep(a, b, 32);
  }

  // ---- reduction: x^32 is POLY ----------------------------------------------------------------

  lemma {:induction false} OnePowers(k: nat)
    requires k <= 31
    ensures Iter(k, ONE) == Shr(ONE, k)
  {
    hide Step, Half;
    if k > 0 {
      OnePowers(k - 1);
      OneShifts(k - 1);
    }
  }

  lemma X32()
    ensures Iter(32, ONE) == POLY
  {
    OnePowers(31);
    OneLast();
    assert Step(1) == POLY;
  }

  lemma {:induction false} PolySum(a: bv32, y: bv32, n: nat)
    requires Mul(POLY, y) == Iter(32, y)
    ensures Mul(POLY, MulN(a, y, n)) == Iter(32, MulN(a, y, n))
    decreases n
  {
    hide Xor, Shl, Pick, Step, Mul, Iter;
    if n == 0 {
      MulRightZero(POLY);
      IterZero(32);
    } else {
      MulStepRight(POLY, y);
      IterStep(32, y);
      PolySum(Shl(a), Step(y), n - 1);
      MulXorRight(POLY, Pick(a, y), MulN(Shl(a), Step(y), n - 1));
      IterXor(32, Pick(a, y), MulN(Shl(a), Step(y), n - 1));
      PickCases(a, y);
      MulRightZero(POLY);
      IterZero(32);
    }
  }

  lemma PickCases(a: bv32, b: bv32)
    ensures Pick(a, b) == b || Pick(a, b) == 0
  {
  }

  lemma MulXorRight(a: bv32, b: bv32, c: bv32)
    ensures Mul(a, Xor(b, c)) == Xor(Mul(a, b), Mul(a, c))
  {
    MulNRight(a, b, c, 32);
  }

  lemma MulXorLeft(a: bv32, b: bv32, c: bv32)
    ensures Mul(Xor(a, b), c) == Xor(Mul(a, c), Mul(b, c))
  {
    MulNLeft(a, b, c, 32);
  }

  lemma MulLeftZero(b: bv32)
    ensures Mul(0, b) == 0
  {
    MulNZero(b, 32);
  }

  lemma MulRightZero(a: bv32)
    ensures Mul(a, 0) == 0
  {
    hide Mul;
    MulXorRight(a, 0, 0);
    assert Xor(0, 0) == 0;
    XorAlgebra(Mul(a, 0), 0, 0);
  }

  lemma IterStep(k: nat, b: bv32)
    ensures Iter(k, Step(b)) == Step(Iter(k, b)) == Iter(k + 1, b)
  {
    IterAdd(k, 1, b);
    assert Iter(1, b) == Step(Iter(0, b));
  }

  // Multiplying by p's low part is multiplying by x^32.
  lemma MulPoly(b: bv32)
    ensures Mul(POLY, b) == Iter(32, b)
  {
    hide MulN, Iter;
    X32();
    MulOneRight(POLY);
    PolySum(b, ONE, 32);
    MulOneRight(b);
  }

  // ---- multiplying the left factor by x --------------------------------------------------------

  function ShlN(a: bv32, k: nat): bv32
    decreases k
  {
    if k == 0 then a else ShlN(Shl(a), k - 1)
  }

  lemma {:induction false} MulNLast(a: bv32, b: bv32, n: nat)
    ensures MulN(a, b, n + 1) == Xor(MulN(a, b, n), Pick(ShlN(a, n), Iter(n, b)))
    decreases n
  {
    hide Xor, Shl, Pick, Step;
    if n == 0 {
      assert MulN(Shl(a), Step(b), 0) == 0;
      XorAlgebra(Pick(a, b), 0, 0);
    } else {
      MulNLast(Shl(a), Step(b), n - 1);
      IterStep(n - 1, b);
      XorAlgebra(Pick(a, b), MulN(Shl(a), Step(b), n - 1), Pick(ShlN(a, n), Iter(n, b)));
    }
  }

  // The term of a under the mask m, and the terms after it.
  predicate HasTerm(a: bv32, m: bv32) { And(a, m) != 0 }

  predicate NoTermAfter(a: bv32, m: bv32) { And(a, Dec(m)) == 0 }

  function And(a: bv32, b: bv32): bv32 { a & b }

  function Dec(m: bv32): bv32 { m - 1 }

  function Odd(v: bv32): bv32 { (v << 1) | 1 }

  predicate TopClear(x: bv32) { x & ONE == 0 }

  // The k-th coefficient of a, and whether a has any later one, read by shifting or by masking.
  lemma {:induction false} CoefficientMask(a: bv32, k: nat)
    requires k <= 31
    ensures HasTerm(ShlN(a, k), ONE) <==> HasTerm(a, Shr(ONE, k))
    ensures ShlN(a, k + 1) == 0 <==> NoTermAfter(a, Shr(ONE, k))
    decreases k
  {
    hide Shl, Half, SingleBit, HasTerm, NoTermAfter;
    if k == 0 {
      assert ShlN(a, 1) == ShlN(Shl(a), 0);
      MaskFirst(a);
    } else {
      CoefficientMask(Shl(a), k - 1);
      OneSingle(k - 1);
      OneNotOut(k);
      TermNext(a, Shr(ONE, k - 1));
      AfterNext(a, Shr(ONE, k - 1));
    }
  }

  lemma MaskFirst(a: bv32)
    ensures Shl(a) == 0 <==> NoTermAfter(a, ONE)
  {
  }

  lemma ShlNonZero(x: bv32)
    requires TopClear(x)
    ensures Shl(x) == 0 <==> x == 0
  {
  }

  lemma ShlAnd(a: bv32, m: bv32)
    ensures And(Shl(a), m) == Shl(And(a, Half(m))) && TopClear(And(a, Half(m)))
  {
    assert (a << 1) & m == (a & (m >> 1)) << 1;
  }

  lemma TermNext(a: bv32, m: bv32)
    ensures HasTerm(Shl(a), m) <==> HasTerm(a, Half(m))
  {
    hide And, Shl, Half, TopClear;
    ShlAnd(a, m);
    ShlNonZero(And(a, Half(m)));
  }

  lemma DecSingle(m: bv32)
    requires SingleBit(m) && Half(m) != 0
    ensures Dec(m) == Odd(Dec(Half(m))) && TopClear(Dec(Half(m)))
  {
    assert m == (m >> 1) << 1;
    var u := m >> 1;
    assert (u << 1) - 1 == ((u - 1) << 1) | 1;
  }

  lemma ShlAndOdd(a: bv32, v: bv32)
    requires TopClear(v)
    ensures And(Shl(a), Odd(v)) == Shl(And(a, v)) && TopClear(And(a, v))
  {
    assert (a << 1) & ((v << 1) | 1) == (a & v) << 1;
  }

  lemma AfterNext(a: bv32, m: bv32)
    requires SingleBit(m) && Half(m) != 0
    ensures NoTermAfter(Shl(a), m) <==> NoTermAfter(a, Half(m))
  {
    hide Shl, SingleBit, Half, And, Dec, Odd, TopClear;
    DecSingle(m);
    ShlAndOdd(a, Dec(Half(m)));
    ShlNonZero(And(a, Dec(Half(m))));
  }

  // The terms of x^k start at the k-th.
  lemma {:induction false} MulNBeyond(k: nat, b: bv32, n: nat)
    requires n <= k <= 31
    ensures MulN(Shr(ONE, k), b, n) == 0
    decreases n
  {
    hide Shl, Half, Step, Pick, Xor;
    if n > 0 {
      OneSingle(k - 1);
      OneNotOut(k);
      HalfBack(Shr(ONE, k - 1), b);
      MulNBeyond(k - 1, Step(b), n - 1);
      XorAlgebra(0, 0, 0);
    }
  }

  lemma HalfBack(m: bv32, b: bv32)
    requires SingleBit(m) && Half(m) != 0
    ensures Shl(Half(m)) == m && Pick(Half(m), b) == 0
  {
  }

  // Everything but the last term of a is Half(a), one place on.
  lemma MulHalf(a: bv32, b: bv32)
    ensures Mul(Half(a), b) == MulN(a, Step(b), 31)
  {
    var even := Shl(Half(a));
    HalfParts(a, b);
    hide Shl, Half, Step, Pick, Xor;
    XorAlgebra(MulN(even, Step(b), 31), 0, 0);
    assert Mul(Half(a), b) == MulN(even, Step(b), 31);
    if a != even {
      MulNLeft(even, 1, Step(b), 31);
      OneLast();
      MulNBeyond(31, Step(b), 31);
    }
  }

  lemma HalfParts(a: bv32, b: bv32)
    ensures Pick(Half(a), b) == 0 && (a == Shl(Half(a)) || a == Xor(Shl(Half(a)), 1))
  {
  }

  // x a(x) times b(x) is x times the product.
  lemma MulStepLeft(a: bv32, b: bv32)
    ensures Mul(Step(a), b) == Step(Mul(a, b))
  {
    MulStepRight(a, b);
    MulNLast(a, Step(b), 31);
    MulHalf(a, b);
    LastTerm(a, b);
    hide Xor, Half, MulN, Carry;
    MulXorLeft(Half(a), Carry(a), b);
  }

  lemma LastTerm(a: bv32, b: bv32)
    ensures Pick(ShlN(a, 31), Iter(31, Step(b))) == Mul(Carry(a), b)
  {
    hide Mul, Iter, ShlN;
    CoefficientMask(a, 31);
    OneLast();
    IterStep(31, b);
    MulPoly(b);
    MulLeftZero(b);
  }

  // ---- the product is that of a commutative ring -----------------------------------------------

  lemma {:induction false} MulPower(k: nat, b: bv32)
    ensures Mul(Iter(k, ONE), b) == Iter(k, b)
  {
    hide Mul, Step;
    if k == 0 {
      MulOneLeft(b);
    } else {
      MulPower(k - 1, b);
      MulStepLeft(Iter(k - 1, ONE), b);
    }
  }

  lemma {:induction false} CommutesSum(a: bv32, c: bv32, y: bv32, n: nat)
    requires Mul(a, y) == Mul(y, a)
    ensures Mul(a, MulN(c, y, n)) == Mul(MulN(c, y, n), a)
    decreases n
  {
    hide Xor, Shl, Pick, Step, Mul;
    MulRightZero(a);
    MulLeftZero(a);
    if n > 0 {
      MulStepRight(a, y);
      MulStepLeft(y, a);
      CommutesSum(a, Shl(c), Step(y), n - 1);
      PickCases(c, y);
      MulXorRight(a, Pick(c, y), MulN(Shl(c), Step(y), n - 1));
      MulXorLeft(Pick(c, y), MulN(Shl(c), Step(y), n - 1), a);
    }
  }

  lemma MulCommutes(a: bv32, b: bv32)
    ensures Mul(a, b) == Mul(b, a)
  {
    hide MulN;
    MulOneLeft(a);
    MulOneRight(a);
    CommutesSum(a, b, ONE, 32);
    MulOneRight(b);
  }

  lemma {:induction false} AssociatesSum(c: bv32, y: bv32, n: nat, a: bv32, b: bv32)
    requires Mul(Mul(y, a), b) == Mul(y, Mul(a, b))
    ensures Mul(Mul(MulN(c, y, n), a), b) == Mul(MulN(c, y, n), Mul(a, b))
    decreases n
  {
    hide Xor, Shl, Pick, Step, Mul;
    MulLeftZero(a);
    MulLeftZero(b);
    MulLeftZero(Mul(a, b));
    if n > 0 {
      var p, r := Pick(c, y), MulN(Shl(c), Step(y), n - 1);
      MulStepLeft(y, a);
      MulStepLeft(Mul(y, a), b);
      MulStepLeft(y, Mul(a, b));
      AssociatesSum(Shl(c), Step(y), n - 1, a, b);
      PickCases(c, y);
      MulXorLeft(p, r, a);
      MulXorLeft(Mul(p, a), Mul(r, a), b);
      MulXorLeft(p, r, Mul(a, b));
    }
  }

  lemma MulAssociates(a: bv32, b: bv32, c: bv32)
    ensures Mul(Mul(a, b), c) == Mul(a, Mul(b, c))
  {
    hide MulN;
    MulOneLeft(b);
    MulOneLeft(Mul(b, c));
    AssociatesSum(a, ONE, 32, b, c);
    MulOneRight(a);
  }

  // ---- squares, and x^(2^32) == x --------------------------------------------------------------

  // Squaring spreads the coefficients: the sum of a's coefficients times x^(2i).
  function SpreadN(a: bv32, b: bv32, n: nat): bv32
    decreases n
  {
    if n == 0 then 0 else Xor(Pick(a, b), SpreadN(Shl(a), Step(Step(b)), n - 1))
  }

  lemma SquareXor(a: bv32, b: bv32)
    ensures Mul(Xor(a, b), Xor(a, b)) == Xor(Mul(a, a), Mul(b, b))
  {
    hide Xor, Mul;
    var aa, ab, bb := Mul(a, a), Mul(a, b), Mul(b, b);
    MulCommutes(a, b);
    MulXorLeft(a, b, Xor(a, b));
    MulXorRight(a, a, b);
    MulXorRight(b, a, b);
    XorAlgebra(aa, ab, Xor(ab, bb));
    XorAlgebra(ab, ab, bb);
    XorAlgebra(bb, bb, bb);
  }

  lemma {:induction false} SquareSum(a: bv32, y: bv32, n: nat)
    ensures Mul(MulN(a, y, n), MulN(a, y, n)) == SpreadN(a, Mul(y, y), n)
    decreases n
  {
    hide Xor, Shl, Pick, Step, Mul;
    MulLeftZero(0);
    if n > 0 {
      MulStepLeft(y, Step(y));
      MulStepRight(y, y);
      SquareSum(Shl(a), Step(y), n - 1);
      SquareXor(Pick(a, y), MulN(Shl(a), Step(y), n - 1));
      PickSquare(a, y);
    }
  }

  lemma PickSquare(a: bv32, y: bv32)
    ensures Mul(Pick(a, y), Pick(a, y)) == Pick(a, Mul(y, y))
  {
    hide Mul;
    MulLeftZero(0);
  }

  function Term(a: bv32, m: bv32, b: bv32): bv32 { if a & m != 0 then b else 0 }

  // The sum of x^(2i) over the terms x^i of a, from i == k on.
  function TermSum(a: bv32, k: nat): bv32
    decreases 32 - k
  {
    if k >= 32 then 0 else Xor(Term(a, Shr(ONE, k), Iter(2 * k, ONE)), TermSum(a, k + 1))
  }

  lemma {:induction false} SpreadTerms(a: bv32, k: nat)
    requires k <= 32
    ensures SpreadN(ShlN(a, k), Iter(2 * k, ONE), 32 - k) == TermSum(a, k)
    decreases 32 - k
  {
    hide Xor, Shl, HasTerm, Step, Shr, Term, Pick;
    if k < 32 {
      CoefficientMask(a, k);
      ShlNSnoc(a, k);
      PickIsTerm(ShlN(a, k), a, Shr(ONE, k), Iter(2 * k, ONE));
      assert Iter(2 * (k + 1), ONE) == Step(Step(Iter(2 * k, ONE)));
      SpreadTerms(a, k + 1);
    }
  }

  lemma PickIsTerm(t: bv32, a: bv32, m: bv32, b: bv32)
    requires HasTerm(t, ONE) <==> HasTerm(a, m)
    ensures Pick(t, b) == Term(a, m, b)
  {
  }

  lemma {:induction false} ShlNSnoc(a: bv32, k: nat)
    ensures ShlN(a, k + 1) == Shl(ShlN(a, k))
    decreases k
  {
    hide Shl;
    if k > 0 {
      ShlNSnoc(Shl(a), k - 1);
    }
  }

  // The square of a.
  lemma SquareTerms(a: bv32)
    ensures Mul(a, a) == TermSum(a, 0)
  {
    hide MulN, SpreadN, TermSum;
    MulOneRight(a);
    MulOneRight(ONE);
    SquareSum(a, ONE, 32);
    SpreadTerms(a, 0);
  }

  // The same, with the squares of x^0 .. x^31 worked out.

  function Square0(a: bv32, rest: bv32): bv32 {
    Xor(Term(a, 0x80000000, 0x80000000), Xor(Term(a, 0x40000000, 0x20000000),
      Xor(Term(a, 0x20000000, 0x08000000), Xor(Term(a, 0x10000000, 0x02000000), rest))))
  }

  function Square1(a: bv32, rest: bv32): bv32 {
    Xor(Term(a, 0x08000000, 0x00800000), Xor(Term(a, 0x04000000, 0x00200000),
      Xor(Term(a, 0x02000000, 0x00080000), Xor(Term(a, 0x01000000, 0x00020000), rest))))
  }

  function Square2(a: bv32, rest: bv32): bv32 {
    Xor(Term(a, 0x00800000, 0x00008000), Xor(Term(a, 0x00400000, 0x00002000),
      Xor(Term(a, 0x00200000, 0x00000800), Xor(Term(a, 0x00100000, 0x00000200), rest))))
  }

  function Square3(a: bv32, rest: bv32): bv32 {
    Xor(Term(a, 0x00080000, 0x00000080), Xor(Term(a, 0x00040000, 0x00000020),
      Xor(Term(a, 0x00020000, 0x00000008), Xor(Term(a, 0x00010000, 0x00000002), rest))))
  }

  function Square4(a: bv32, rest: bv32): bv32 {
    Xor(Term(a, 0x00008000, 0xedb88320), Xor(Term(a, 0x00004000, 0x3b6e20c8),
      Xor(Term(a, 0x00002000, 0x0edb8832), Xor(Term(a, 0x00001000, 0xee0e612c), rest))))
  }

  function Square5(a: bv32, rest: bv32): bv32 {
    Xor(Term(a, 0x00000800, 0x3b83984b), Xor(Term(a, 0x00000400, 0x958424a2),
      Xor(Term(a, 0x00000200, 0xc8d98a08), Xor(Term(a, 0x00000100, 0x32366282), rest))))
  }

  function Square6(a: bv32, rest: bv32): bv32 {
    Xor(Term(a, 0x00000080, 0xe1351b80), Xor(Term(a, 0x00000040, 0x384d46e0),
      Xor(Term(a, 0x00000020, 0x0e1351b8), Xor(Term(a, 0x00000010, 0x0384d46e), rest))))
  }

  function Square7(a: bv32, rest: bv32): bv32 {
    Xor(Term(a, 0x00000008, 0xed59b63b), Xor(Term(a, 0x00000004, 0xa032af3e),
      Xor(Term(a, 0x00000002, 0xc5b428ef), Xor(Term(a, 0x00000001, 0xaa09c88b), rest))))
  }

  function Square(a: bv32): bv32 {
    Square0(a, Square1(a, Square2(a, Square3(a, Square4(a, Square5(a, Square6(a, Square7(a, 0))))))))
  }

  // The power x^(2k), and the mask of x^k.
  predicate Powers(k: nat, b: bv32, m: bv32) { Iter(2 * k, ONE) == b && Shr(ONE, k) == m }

  lemma PowersNext(k: nat, b: bv32, m: bv32)
    requires Powers(k, b, m)
    ensures Powers(k + 1, Step(Step(b)), Half(m))
  {
    hide Step, Half;
    assert Iter(2 * (k + 1), ONE) == Step(Step(Iter(2 * k, ONE)));
  }

  lemma FourPowers(k: nat, b0: bv32, b1: bv32, b2: bv32, b3: bv32, b4: bv32, m0: bv32, m1: bv32, m2: bv32, m3: bv32, m4: bv32)
    requires Powers(k, b0, m0)
    requires b1 == Step(Step(b0)) && b2 == Step(Step(b1)) && b3 == Step(Step(b2)) && b4 == Step(Step(b3))
    requires m1 == Half(m0) && m2 == Half(m1) && m3 == Half(m2) && m4 == Half(m3)
    ensures Powers(k + 1, b1, m1) && Powers(k + 2, b2, m2) && Powers(k + 3, b3, m3) && Powers(k + 4, b4, m4)
  {
    hide *;
    PowersNext(k, b0, m0);
    PowersNext(k + 1, b1, m1);
    PowersNext(k + 2, b2, m2);
    PowersNext(k + 3, b3, m3);
  }

  lemma FourTerms(a: bv32, k: nat, b0: bv32, b1: bv32, b2: bv32, b3: bv32, m0: bv32, m1: bv32, m2: bv32, m3: bv32)
    requires k <= 28 && Powers(k, b0, m0) && Powers(k + 1, b1, m1) && Powers(k + 2, b2, m2) && Powers(k + 3, b3, m3)
    ensures TermSum(a, k)
            == Xor(Term(a, m0, b0), Xor(Term(a, m1, b1), Xor(Term(a, m2, b2), Xor(Term(a, m3, b3), TermSum(a, k + 4)))))
  {
    hide Term, Xor, Iter, Shr;
    assert TermSum(a, k + 3) == Xor(Term(a, m3, b3), TermSum(a, k + 4));
    assert TermSum(a, k + 2) == Xor(Term(a, m2, b2), TermSum(a, k + 3));
    assert TermSum(a, k + 1) == Xor(Term(a, m1, b1), TermSum(a, k + 2));
  }

  lemma SquareBlock0(a: bv32)
    requires Powers(0, 0x80000000, 0x80000000)
    ensures Powers(4, 0x00800000, 0x08000000)
    ensures TermSum(a, 0) == Square0(a, TermSum(a, 4))
  {
    FourPowers(0, 0x80000000, 0x20000000, 0x08000000, 0x02000000, 0x00800000, 0x80000000, 0x40000000, 0x20000000, 0x10000000, 0x08000000);
    hide Powers, TermSum, Term, Xor;
    FourTerms(a, 0, 0x80000000, 0x20000000, 0x08000000, 0x02000000, 0x80000000, 0x40000000, 0x20000000, 0x10000000);
  }

  lemma SquareBlock1(a: bv32)
    requires Powers(4, 0x00800000, 0x08000000)
    ensures Powers(8, 0x00008000, 0x00800000)
    ensures TermSum(a, 4) == Square1(a, TermSum(a, 8))
  {
    FourPowers(4, 0x00800000, 0x00200000, 0x00080000, 0x00020000, 0x00008000, 0x08000000, 0x04000000, 0x02000000, 0x01000000, 0x00800000);
    hide Powers, TermSum, Term, Xor;
    FourTerms(a, 4, 0x00800000, 0x00200000, 0x00080000, 0x00020000, 0x08000000, 0x04000000, 0x02000000, 0x01000000);
  }

  lemma SquareBlock2(a: bv32)
    requires Powers(8, 0x00008000, 0x00800000)
    ensures Powers(12, 0x00000080, 0x00080000)
    ensures TermSum(a, 8) == Square2(a, TermSum(a, 12))
  {
    FourPowers(8, 0x00008000, 0x00002000, 0x00000800, 0x00000200, 0x00000080, 0x00800000, 0x00400000, 0x00200000, 0x00100000, 0x00080000);
    hide Powers, TermSum, Term, Xor;
    FourTerms(a, 8, 0x00008000, 0x00002000, 0x00000800, 0x00000200, 0x00800000, 0x00400000, 0x00200000, 0x00100000);
  }

  lemma SquareBlock3(a: bv32)
    requires Powers(12, 0x00000080, 0x00080000)
    ensures Powers(16, 0xedb88320, 0x00008000)
    ensures TermSum(a, 12) == Square3(a, TermSum(a, 16))
  {
    FourPowers(12, 0x00000080, 0x00000020, 0x00000008, 0x00000002, 0xedb88320, 0x00080000, 0x00040000, 0x00020000, 0x00010000, 0x00008000);
    hide Powers, TermSum, Term, Xor;
    FourTerms(a, 12, 0x00000080, 0x00000020, 0x00000008, 0x00000002, 0x00080000, 0x00040000, 0x00020000, 0x00010000);
  }

  lemma SquareBlock4(a: bv32)
    requires Powers(16, 0xedb88320, 0x00008000)
    ensures Powers(20, 0x3b83984b, 0x00000800)
    ensures TermSum(a, 16) == Square4(a, TermSum(a, 20))
  {
    FourPowers(16, 0xedb88320, 0x3b6e20c8, 0x0edb8832, 0xee0e612c, 0x3b83984b, 0x00008000, 0x00004000, 0x00002000, 0x00001000, 0x00000800);
    hide Powers, TermSum, Term, Xor;
    FourTerms(a, 16, 0xedb88320, 0x3b6e20c8, 0x0edb8832, 0xee0e612c, 0x00008000, 0x00004000, 0x00002000, 0x00001000);
  }

  lemma SquareBlock5(a: bv32)
    requires Powers(20, 0x3b83984b, 0x00000800)
    ensures Powers(24, 0xe1351b80, 0x00000080)
    ensures TermSum(a, 20) == Square5(a, TermSum(a, 24))
  {
    FourPowers(20, 0x3b83984b, 0x958424a2, 0xc8d98a08, 0x32366282, 0xe1351b80, 0x00000800, 0x00000400, 0x00000200, 0x00000100, 0x00000080);
    hide Powers, TermSum, Term, Xor;
    FourTerms(a, 20, 0x3b83984b, 0x958424a2, 0xc8d98a08, 0x32366282, 0x00000800, 0x00000400, 0x00000200, 0x00000100);
  }

  lemma SquareBlock6(a: bv32)
    requires Powers(24, 0xe1351b80, 0x00000080)
    ensures Powers(28, 0xed59b63b, 0x00000008)
    ensures TermSum(a, 24) == Square6(a, TermSum(a, 28))
  {
    FourPowers(24, 0xe1351b80, 0x384d46e0, 0x0e1351b8, 0x0384d46e, 0xed59b63b, 0x00000080, 0x00000040, 0x00000020, 0x00000010, 0x00000008);
    hide Powers, TermSum, Term, Xor;
    FourTerms(a, 24, 0xe1351b80, 0x384d46e0, 0x0e1351b8, 0x0384d46e, 0x00000080, 0x00000040, 0x00000020, 0x00000010);
  }

  lemma SquareBlock7(a: bv32)
    requires Powers(28, 0xed59b63b, 0x00000008)
    ensures Powers(32, 0xb1e6b092, 0x00000000)
    ensures TermSum(a, 28) == Square7(a, TermSum(a, 32))
  {
    FourPowers(28, 0xed59b63b, 0xa032af3e, 0xc5b428ef, 0xaa09c88b, 0xb1e6b092, 0x00000008, 0x00000004, 0x00000002, 0x00000001, 0x00000000);
    hide Powers, TermSum, Term, Xor;
    FourTerms(a, 28, 0xed59b63b, 0xa032af3e, 0xc5b428ef, 0xaa09c88b, 0x00000008, 0x00000004, 0x00000002, 0x00000001);
  }

  lemma SquareIs(a: bv32)
    ensures Mul(a, a) == Square(a)
  {
    SquareTerms(a);
    assert Powers(0, ONE, ONE);
    assert TermSum(a, 32) == 0;
    hide *;
    SquareBlock0(a);
    SquareBlock1(a);
    SquareBlock2(a);
    SquareBlock3(a);
    SquareBlock4(a);
    SquareBlock5(a);
    SquareBlock6(a);
    SquareBlock7(a);
    SquareDef(a);
  }

  lemma SquareDef(a: bv32)
    ensures Square(a) == Square0(a, Square1(a, Square2(a, Square3(a, Square4(a, Square5(a, Square6(a, Square7(a, 0))))))))
  {
  }

  // ---- the powers x^(2^k) ----------------------------------------------------------------------

  // x2n_table[k] is v
  predicate Entry(k: nat, v: bv32) { Iter(Bits.Pow2(k), ONE) == v }

  lemma PowerSquare(n: nat)
    ensures Mul(Iter(n, ONE), Iter(n, ONE)) == Iter(2 * n, ONE)
  {
    hide Mul, Iter;
    MulPower(n, Iter(n, ONE));
    IterAdd(n, n, ONE);
  }

  lemma EntryNext(k: nat, v: bv32)
    requires Entry(k, v)
    ensures Entry(k + 1, Square(v))
  {
    hide Mul, Iter, Square;
    PowerSquare(Bits.Pow2(k));
    SquareIs(v);
  }

  lemma TableSquares0()
    ensures Square(0x40000000) == 0x20000000
    ensures Square(0x20000000) == 0x08000000
  {
  }

  lemma TableSquares1()
    ensures Square(0x08000000) == 0x00800000
    ensures Square(0x00800000) == 0x00008000
  {
  }

  lemma TableSquares2()
    ensures Square(0x00008000) == 0xedb88320
    ensures Square(0xedb88320) == 0xb1e6b092
    ensures Square(0xb1e6b092) == 0xa06a2517
    ensures Square(0xa06a2517) == 0xed627dae
  {
  }

  lemma TableSquares3()
    ensures Square(0xed627dae) == 0x88d14467
    ensures Square(0x88d14467) == 0xd7bbfe6a
    ensures Square(0xd7bbfe6a) == 0xec447f11
    ensures Square(0xec447f11) == 0x8e7ea170
  {
  }

  lemma TableSquares4()
    ensures Square(0x8e7ea170) == 0x6427800e
    ensures Square(0x6427800e) == 0x4d47bae0
    ensures Square(0x4d47bae0) == 0x09fe548f
    ensures Square(0x09fe548f) == 0x83852d0f
  {
  }

  lemma TableSquares5()
    ensures Square(0x83852d0f) == 0x30362f1a
    ensures Square(0x30362f1a) == 0x7b5a9cc3
    ensures Square(0x7b5a9cc3) == 0x31fec169
    ensures Square(0x31fec169) == 0x9fec022a
  {
  }

  lemma TableSquares6()
    ensures Square(0x9fec022a) == 0x6c8dedc4
    ensures Square(0x6c8dedc4) == 0x15d6874d
    ensures Square(0x15d6874d) == 0x5fde7a4e
    ensures Square(0x5fde7a4e) == 0xbad90e37
  {
  }

  lemma TableSquares7()
    ensures Square(0xbad90e37) == 0x2e4e5eef
    ensures Square(0x2e4e5eef) == 0x4eaba214
    ensures Square(0x4eaba214) == 0xa8a472c0
    ensures Square(0xa8a472c0) == 0x429a969e
  {
  }

  lemma TableSquares8()
    ensures Square(0x429a969e) == 0x148d302a
    ensures Square(0x148d302a) == 0xc40ba6d0
    ensures Square(0xc40ba6d0) == 0xc4e22c3c
    ensures Square(0xc4e22c3c) == 0x40000000
  {
  }

  lemma Entries0()
    requires Entry(0, 0x40000000)
    ensures Entry(1, 0x20000000) && Entry(2, 0x08000000)
  {
    TableSquares0();
    hide *;
    EntryNext(0, 0x40000000);
    EntryNext(1, 0x20000000);
  }

  lemma Entries1()
    requires Entry(2, 0x08000000)
    ensures Entry(3, 0x00800000) && Entry(4, 0x00008000)
  {
    TableSquares1();
    hide *;
    EntryNext(2, 0x08000000);
    EntryNext(3, 0x00800000);
  }

  lemma Entries2()
    requires Entry(4, 0x00008000)
    ensures Entry(5, 0xedb88320) && Entry(6, 0xb1e6b092) && Entry(7, 0xa06a2517) && Entry(8, 0xed627dae)
  {
    TableSquares2();
    hide *;
    EntryNext(4, 0x00008000);
    EntryNext(5, 0xedb88320);
    EntryNext(6, 0xb1e6b092);
    EntryNext(7, 0xa06a2517);
  }

  lemma Entries3()
    requires Entry(8, 0xed627dae)
    ensures Entry(9, 0x88d14467) && Entry(10, 0xd7bbfe6a) && Entry(11, 0xec447f11) && Entry(12, 0x8e7ea170)
  {
    TableSquares3();
    hide *;
    EntryNext(8, 0xed627dae);
    EntryNext(9, 0x88d14467);
    EntryNext(10, 0xd7bbfe6a);
    EntryNext(11, 0xec447f11);
  }

  lemma Entries4()
    requires Entry(12, 0x8e7ea170)
    ensures Entry(13, 0x6427800e) && Entry(14, 0x4d47bae0) && Entry(15, 0x09fe548f) && Entry(16, 0x83852d0f)
  {
    TableSquares4();
    hide *;
    EntryNext(12, 0x8e7ea170);
    EntryNext(13, 0x6427800e);
    EntryNext(14, 0x4d47bae0);
    EntryNext(15, 0x09fe548f);
  }

  lemma Entries5()
    requires Entry(16, 0x83852d0f)
    ensures Entry(17, 0x30362f1a) && Entry(18, 0x7b5a9cc3) && Entry(19, 0x31fec169) && Entry(20, 0x9fec022a)
  {
    TableSquares5();
    hide *;
    EntryNext(16, 0x83852d0f);
    EntryNext(17, 0x30362f1a);
    EntryNext(18, 0x7b5a9cc3);
    EntryNext(19, 0x31fec169);
  }

  lemma Entries6()
    requires Entry(20, 0x9fec022a)
    ensures Entry(21, 0x6c8dedc4) && Entry(22, 0x15d6874d) && Entry(23, 0x5fde7a4e) && Entry(24, 0xbad90e37)
  {
    TableSquares6();
    hide *;
    EntryNext(20, 0x9fec022a);
    EntryNext(21, 0x6c8dedc4);
    EntryNext(22, 0x15d6874d);
    EntryNext(23, 0x5fde7a4e);
  }

  lemma Entries7()
    requires Entry(24, 0xbad90e37)
    ensures Entry(25, 0x2e4e5eef) && Entry(26, 0x4eaba214) && Entry(27, 0xa8a472c0) && Entry(28, 0x429a969e)
  {
    TableSquares7();
    hide *;
    EntryNext(24, 0xbad90e37);
    EntryNext(25, 0x2e4e5eef);
    EntryNext(26, 0x4eaba214);
    EntryNext(27, 0xa8a472c0);
  }

  lemma Entries8()
    requires Entry(28, 0x429a969e)
    ensures Entry(29, 0x148d302a) && Entry(30, 0xc40ba6d0) && Entry(31, 0xc4e22c3c) && Entry(32, 0x40000000)
  {
    TableSquares8();
    hide *;
    EntryNext(28, 0x429a969e);
    EntryNext(29, 0x148d302a);
    EntryNext(30, 0xc40ba6d0);
    EntryNext(31, 0xc4e22c3c);
  }

  lemma FirstEntry()
    ensures Entry(0, 0x40000000)
  {
    assert Iter(1, ONE) == Step(Iter(0, ONE));
  }

  // x2n_table of crc32.h holds the powers x^(2^k), and x^(2^32) == x modulo p(x): squaring the last
  // entry gives the first one again.
  lemma ShippedTable()
    ensures Entry(0, 0x40000000) && Entry(1, 0x20000000) && Entry(2, 0x08000000) && Entry(3, 0x00800000)
    ensures Entry(4, 0x00008000) && Entry(5, 0xedb88320) && Entry(6, 0xb1e6b092) && Entry(7, 0xa06a2517)
    ensures Entry(8, 0xed627dae) && Entry(9, 0x88d14467) && Entry(10, 0xd7bbfe6a) && Entry(11, 0xec447f11)
    ensures Entry(12, 0x8e7ea170) && Entry(13, 0x6427800e) && Entry(14, 0x4d47bae0) && Entry(15, 0x09fe548f)
    ensures Entry(16, 0x83852d0f) && Entry(17, 0x30362f1a) && Entry(18, 0x7b5a9cc3) && Entry(19, 0x31fec169)
    ensures Entry(20, 0x9fec022a) && Entry(21, 0x6c8dedc4) && Entry(22, 0x15d6874d) && Entry(23, 0x5fde7a4e)
    ensures Entry(24, 0xbad90e37) && Entry(25, 0x2e4e5eef) && Entry(26, 0x4eaba214) && Entry(27, 0xa8a472c0)
    ensures Entry(28, 0x429a969e) && Entry(29, 0x148d302a) && Entry(30, 0xc40ba6d0) && Entry(31, 0xc4e22c3c)
    ensures Entry(32, 0x40000000)
  {
    hide *;
    FirstEntry();
    Entries0();
    Entries1();
    Entries2();
    Entries3();
    Entries4();
    Entries5();
    Entries6();
    Entries7();
    Entries8();
  }

  lemma PowersWrap(b: bv32)
    ensures Iter(Bits.Pow2(32), b) == Iter(Bits.Pow2(0), b)
  {
    hide Mul, Iter, Bits.Pow2;
    FirstEntry();
    LastEntry();
    MulPower(Bits.Pow2(32), b);
    MulPower(Bits.Pow2(0), b);
  }

  lemma LastEntry()
    ensures Entry(32, 0x40000000)
  {
    hide *;
    ShippedTable();
  }

  lemma PowDouble(k: nat)
    ensures Bits.Pow2(k + 1) == 2 * Bits.Pow2(k)
  {
  }

  lemma {:induction false} PowersPeriod(k: nat, b: bv32)
    ensures Iter(Bits.Pow2(k + 32), b) == Iter(Bits.Pow2(k), b)
  {
    hide Iter, Bits.Pow2;
    if k == 0 {
      PowersWrap(b);
    } else {
      PowDouble(k - 1);
      PowDouble(k + 31);
      IterAdd(Bits.Pow2(k - 1), Bits.Pow2(k - 1), b);
      IterAdd(Bits.Pow2(k + 31), Bits.Pow2(k + 31), b);
      PowersPeriod(k - 1, b);
      PowersPeriod(k - 1, Iter(Bits.Pow2(k - 1), b));
    }
  }

  // Entry k mod 32 of the table stands for x^(2^k), for every k.
  lemma {:induction false} TableWraps(k: nat, b: bv32)
    ensures Iter(Bits.Pow2(k % 32), b) == Iter(Bits.Pow2(k), b)
    decreases k
  {
    hide Iter, Bits.Pow2;
    if k >= 32 {
      TableWraps(k - 32, b);
      PowersPeriod(k - 32, b);
    }
  }
}
