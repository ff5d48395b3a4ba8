/**
 * CRC-32 as zlib's crc32.c computes it: tables, polynomial products for combining two CRCs, and
 * the braided word-at-a-time calculation on a little-endian machine (N == 5 braids of W == 8 bytes).
 * The reference is the bit-at-a-time register of section 8 of RFC 1952.
 */
module Crc32 {
  import Bits
  import opened Gf2
  import opened Wrappers

  const N: nat := 5
  const W: nat := 8

  // ---- the reference ---------------------------------------------------------------------------

  // One byte into the register: add it at the low end and shift out eight bits.
  function ByteIn(c: bv32, b: bv8): bv32 { Iter(8, Xor(c, b as bv32)) }

  function Reg(c: bv32, bytes: seq<bv8>): bv32
    decreases bytes
  {
    if bytes == [] then c else Reg(ByteIn(c, bytes[0]), bytes[1..])
  }

  // The CRC of bytes, continuing from crc.
  function Crc(crc: bv32, bytes: seq<bv8>): bv32 { Not(Reg(Not(crc), bytes)) }

  function Not(c: bv32): bv32 { Xor(c, 0xffffffff) }

  lemma {:induction false} RegConcat(c: bv32, a: seq<bv8>, b: seq<bv8>)
    ensures Reg(c, a + b) == Reg(Reg(c, a), b)
    decreases a
  {
    if a == [] {
      assert a + b == b;
    } else {
      assert (a + b)[1..] == a[1..] + b;
      RegConcat(ByteIn(c, a[0]), a[1..], b);
    }
  }

  lemma ByteInXor(c: bv32, d: bv32, b: bv8)
    ensures ByteIn(Xor(c, d), b) == Xor(ByteIn(c, b), Iter(8, d))
  {
    hide Xor, Iter;
    XorAlgebra(c, d, b as bv32);
    XorAlgebra(d, b as bv32, 0);
    XorAlgebra(c, b as bv32, d);
    IterXor(8, Xor(c, b as bv32), d);
  }

  // The starting value contributes x^(8 n) times itself.
  lemma {:induction false} RegFrom(c: bv32, d: bv32, bytes: seq<bv8>)
    ensures Reg(Xor(c, d), bytes) == Xor(Reg(c, bytes), Iter(8 * |bytes|, d))
    decreases bytes
  {
    hide Xor, Iter, ByteIn;
    if bytes == [] {
      assert Iter(0, d) == d by { IterNone(d); }
    } else {
      ByteInXor(c, d, bytes[0]);
      RegFrom(ByteIn(c, bytes[0]), Iter(8, d), bytes[1..]);
      IterAdd(8 * |bytes[1..]|, 8, d);
    }
  }

  lemma IterNone(d: bv32)
    ensures Iter(0, d) == d
  {
  }

  // ---- products and powers ---------------------------------------------------------------------

  // multmodp: a must not be zero.
  method MultModP(a: bv32, b0: bv32) returns (p: bv32)
    requires a != 0
    ensures p == Mul(a, b0)
  {
    hide Xor, MulN, ShlN, Shr, Iter, Step, HasTerm, NoTermAfter;
    var m, b := ONE, b0;
    p := 0;
    ghost var n := 0;
    StartProduct(a, b0);
    while true
      invariant n <= 31 && m == Shr(ONE, n) && ShlN(a, n) != 0
      invariant Mul(a, b0) == Xor(p, MulN(ShlN(a, n), b, 32 - n))
      decreases 32 - n
    {
      CoefficientMask(a, n);
      ProductStep(a, b, n, p);
      MaskTests(a, m);
      if a & m != 0 {
        p := Plus(p, b);
        if a & (m - 1) == 0 {
          break;
        }
      }
      MaskShift(n);
      m := m >> 1;
      b := TimesX(b);
      n := n + 1;
    }
  }

  // The machine operations the loop uses, as Gf2 names them.
  function Plus(p: bv32, b: bv32): (r: bv32)
    ensures r == Xor(p, b)
  {
    p ^ b
  }

  function TimesX(b: bv32): (r: bv32)
    ensures r == Step(b)
  {
    if b & 1 == 1 then (b >> 1) ^ POLY else b >> 1
  }

  lemma MaskTests(a: bv32, m: bv32)
    ensures HasTerm(a, m) <==> a & m != 0
    ensures NoTermAfter(a, m) <==> a & (m - 1) == 0
  {
  }

  lemma MaskShift(n: nat)
    ensures Shr(ONE, n + 1) == Shr(ONE, n) >> 1
  {
  }

  lemma StartProduct(a: bv32, b: bv32)
    ensures ShlN(a, 0) == a && Shr(ONE, 0) == ONE && Mul(a, b) == Xor(0, MulN(ShlN(a, 0), b, 32))
  {
    XorAlgebra(MulN(a, b, 32), 0, 0);
  }

  // One coefficient of a: what is left to add, and that a non-zero rest never runs out of places.
  lemma ProductStep(a: bv32, b: bv32, n: nat, p: bv32)
    requires n <= 31 && ShlN(a, n) != 0
    ensures MulN(ShlN(a, n), b, 32 - n)
            == Xor(if HasTerm(a, Shr(ONE, n)) then b else 0, MulN(ShlN(a, n + 1), Step(b), 31 - n))
    ensures Xor(p, MulN(ShlN(a, n), b, 32 - n))
            == Xor(if HasTerm(a, Shr(ONE, n)) then Xor(p, b) else p, MulN(ShlN(a, n + 1), Step(b), 31 - n))
    ensures ShlN(a, n + 1) == 0 ==> MulN(ShlN(a, n + 1), Step(b), 31 - n) == 0
    ensures !HasTerm(a, Shr(ONE, n)) ==> ShlN(a, n + 1) != 0
    ensures n == 31 ==> ShlN(a, n + 1) == 0
    ensures Xor(Xor(p, b), 0) == Xor(p, b)
  {
    hide Xor, Shl, Shr, Step, HasTerm, NoTermAfter;
    CoefficientMask(a, n);
    ShlNSnoc(a, n);
    PickTop(ShlN(a, n), b);
    var r := MulN(ShlN(a, n + 1), Step(b), 31 - n);
    assert MulN(ShlN(a, n), b, 32 - n) == Xor(Pick(ShlN(a, n), b), r);
    XorAlgebra(p, b, r);
    XorAlgebra(r, 0, 0);
    XorAlgebra(Xor(p, b), 0, 0);
    MulNZero(Step(b), 31 - n);
    if n == 31 {
      OneLast();
      NothingAfterLast(a);
    }
  }

  lemma PickTop(t: bv32, b: bv32)
    ensures Pick(t, b) == if HasTerm(t, ONE) then b else 0
    ensures t != 0 && !HasTerm(t, ONE) ==> Shl(t) != 0
  {
  }

  lemma NothingAfterLast(a: bv32)
    ensures NoTermAfter(a, 1)
  {
  }

  // x2n_table: entry k is x^(2^k).
  ghost predicate PowerTable(t: seq<bv32>) {
    |t| == 32 && forall k {:trigger t[k]} :: 0 <= k < 32 ==> Entry(k, t[k])
  }

  // n 2^k
  function Scaled(n: nat, k: nat): nat { n * Bits.Pow2(k) }

  // x2nmodp: x^(n 2^k) modulo p(x), never zero.  n is not negative.
  method X2nModP(n0: nat, k0: nat, x2n: seq<bv32>) returns (p: bv32)
    requires PowerTable(x2n)
    ensures p == Iter(Scaled(n0, k0), ONE) && p != 0
  {
    hide Iter, Mul, Bits.Pow2, Entry, Scaled;
    p := ONE;
    var n: nat, k: nat := n0, k0;
    while n != 0
      invariant p != 0 && Iter(Scaled(n, k), p) == Iter(Scaled(n0, k0), ONE)
    {
      PowerStep(n, k, p, x2n[k % 32]);
      if n % 2 == 1 {
        p := MultModP(x2n[k % 32], p);
      }
      n := n / 2;
      k := k + 1;
    }
    NoPower(k, p);
  }

  lemma NoPower(k: nat, p: bv32)
    ensures Iter(Scaled(0, k), p) == p
  {
  }

  // n 2^k == (n mod 2) 2^k + (n div 2) 2^(k+1), and the table entry stands for x^(2^k) also after k
  // has passed 31.
  lemma PowerStep(n: nat, k: nat, p: bv32, t: bv32)
    requires Entry(k % 32, t) && p != 0
    ensures t != 0 && Mul(t, p) != 0
    ensures Iter(Scaled(n, k), p) == Iter(Scaled(n / 2, k + 1), if n % 2 == 1 then Mul(t, p) else p)
  {
    hide Iter, Mul, Bits.Pow2, Entry;
    EntryActs(k, p, t);
    PowDouble(k);
    SplitPower(n, Bits.Pow2(k), p);
  }

  lemma EntryActs(k: nat, p: bv32, t: bv32)
    requires Entry(k % 32, t) && p != 0
    ensures t != 0 && Mul(t, p) == Iter(Bits.Pow2(k), p) && Mul(t, p) != 0
  {
    hide Iter, Mul, Bits.Pow2, Entry;
    var j := k % 32;
    EntryMeans(j, t);
    IterNonZero(Bits.Pow2(j), ONE);
    MulPower(Bits.Pow2(j), p);
    TableWraps(k, p);
    IterNonZero(Bits.Pow2(k), p);
  }

  lemma SplitPower(n: nat, q: nat, p: bv32)
    ensures Iter(n * q, p) == Iter(n / 2 * (2 * q), if n % 2 == 1 then Iter(q, p) else p)
  {
    hide Iter;
    Halves(n, q);
    if n % 2 == 1 {
      IterAdd(n / 2 * (2 * q), q, p);
    }
  }

  lemma EntryMeans(k: nat, t: bv32)
    requires Entry(k, t)
    ensures t == Iter(Bits.Pow2(k), ONE)
  {
  }

  lemma Halves(n: nat, q: nat)
    ensures n * q == n / 2 * (2 * q) + if n % 2 == 1 then q else 0
  {
    assert n == n / 2 * 2 + n % 2;
    assert (n / 2 * 2 + n % 2) * q == n / 2 * 2 * q + n % 2 * q;
    assert n / 2 * 2 * q == n / 2 * (2 * q);
  }

  // ---- combining -------------------------------------------------------------------------------

  // crc32_combine64
  method Combine(crc1: bv32, crc2: bv32, len2: nat, x2n: seq<bv32>) returns (r: bv32)
    requires PowerTable(x2n)
    ensures r == Xor(Iter(8 * len2, crc1), crc2)
    ensures forall start: bv32, a: seq<bv8>, b: seq<bv8> {:trigger Crc(start, a + b)} ::
              |b| == len2 && crc1 == Crc(start, a) && crc2 == Crc(0, b) ==> r == Crc(start, a + b)
  {
    var p := X2nModP(len2, 3, x2n);
    r := MultModP(p, crc1);
    r := Plus(r, crc2);
    Eights(len2);
    hide Iter, Mul, Xor, Crc, Scaled;
    MulPower(8 * len2, crc1);
    forall start: bv32, a: seq<bv8>, b: seq<bv8> | |b| == len2 && crc1 == Crc(start, a) && crc2 == Crc(0, b)
      ensures r == Crc(start, a + b)
    {
      CombineIs(start, a, b);
    }
  }

  lemma Eights(n: nat)
    ensures Scaled(n, 3) == 8 * n
  {
    assert Bits.Pow2(1) == 2 && Bits.Pow2(2) == 4 && Bits.Pow2(3) == 8;
  }

  // The CRC of a concatenation, from the CRCs of its parts and the length of the second.
  lemma CombineIs(start: bv32, a: seq<bv8>, b: seq<bv8>)
    ensures Crc(start, a + b) == Xor(Iter(8 * |b|, Crc(start, a)), Crc(0, b))
  {
    hide Xor, Iter, Reg;
    var ones: bv32 := 0xffffffff;
    var ra := Reg(Not(start), a);
    RegConcat(Not(start), a, b);
    // Reg(ra, b) and Reg(ones, b) from Reg(0, b)
    XorAlgebra(ra, 0, 0);
    XorAlgebra(ones, 0, 0);
    RegFrom(0, ra, b);
    RegFrom(0, ones, b);
    IterXor(8 * |b|, ra, ones);
    var z, ia, io := Reg(0, b), Iter(8 * |b|, ra), Iter(8 * |b|, ones);
    // ~(z ^ ia) == (ia ^ io) ^ ~(z ^ io)
    CombineAlgebra(z, ia, io, ones);
  }

  lemma CombineAlgebra(z: bv32, ia: bv32, io: bv32, ones: bv32)
    ensures Xor(Xor(z, ia), ones) == Xor(Xor(ia, io), Xor(Xor(z, io), ones))
  {
    hide Xor;
    XorAlgebra(Xor(ia, io), Xor(z, io), ones);
    XorSwap(ia, io, z, io);
    XorAlgebra(io, 0, 0);
    XorAlgebra(Xor(ia, z), 0, 0);
    XorAlgebra(ia, z, 0);
  }

  // ---- the byte table --------------------------------------------------------------------------

  // crc_table
  ghost predicate ByteTable(t: seq<bv32>) { TableBelow(t, 8, 256) }

  // Entry b is b times x^e, for every byte b below n.
  ghost predicate TableBelow(t: seq<bv32>, e: nat, n: bv32) {
    && |t| == 256 && n <= 256
    && forall b: bv32 {:trigger t[b as int]} :: b < n ==> t[b as int] == Iter(e, b)
  }

  // The n low bits are clear.
  predicate LowClear(x: bv32, n: nat)
    decreases n
  {
    n == 0 || (Carry(x) == 0 && LowClear(Half(x), n - 1))
  }

  // With its low bits clear, a register is only shifted.
  lemma {:induction false} ClearShifts(x: bv32, n: nat)
    requires LowClear(x, n)
    ensures Iter(n, x) == Shr(x, n)
    decreases n
  {
    hide Half, Carry, Xor;
    if n > 0 {
      XorUnit(Half(x));
      IterStep(n - 1, x);
      ClearShifts(Half(x), n - 1);
      ShrHalf(x, n - 1);
    }
  }

  lemma ClearNext(x: bv32, m: bv32)
    requires m < 0x80000000 && x & ((m << 1) | 1) == 0
    ensures Carry(x) == 0 && Half(x) & m == 0
  {
    assert x & 1 == 0;
  }

  lemma ShiftOut(x: bv32)
    requires x & 0xff == 0
    ensures Iter(8, x) == x >> 8
  {
    LowByteClear(x);
    ClearShifts(x, 8);
    ShrEight(x);
  }

  lemma LowByteClear(x: bv32)
    requires x & 0xff == 0
    ensures LowClear(x, 8)
  {
    var x1 := Half(x); var x2 := Half(x1); var x3 := Half(x2); var x4 := Half(x3);
    var x5 := Half(x4); var x6 := Half(x5); var x7 := Half(x6);
    hide Half, Carry;
    ClearNext(x, 0x7f);
    ClearNext(x1, 0x3f);
    ClearNext(x2, 0x1f);
    ClearNext(x3, 0xf);
    ClearNext(x4, 7);
    ClearNext(x5, 3);
    ClearNext(x6, 1);
    ClearNext(x7, 0);
    assert LowClear(x6, 2) && LowClear(x4, 4) && LowClear(x2, 6) by {
      assert LowClear(x7, 1) && LowClear(x5, 3) && LowClear(x3, 5);
    }
    assert LowClear(x1, 7);
  }

  // A byte of steps is a shift and a table entry.
  lemma ShiftByte(c: bv32)
    ensures Iter(8, c) == Xor(c >> 8, Iter(8, c & 0xff))
  {
    hide Iter;
    LowByte(c);
    hide Xor;
    IterXor(8, c & 0xffffff00, c & 0xff);
    ShiftOut(c & 0xffffff00);
  }

  lemma LowByte(c: bv32)
    ensures c == Xor(c & 0xffffff00, c & 0xff)
    ensures (c & 0xffffff00) & 0xff == 0 && (c & 0xffffff00) >> 8 == c >> 8
  {
  }

  // The index into crc_table for register c and byte b.
  function Index(c: bv32, b: bv8): (i: bv32)
    ensures i < 256
  {
    (c ^ (b as bv32)) & 0xff
  }

  lemma TableByte(c: bv32, b: bv8)
    ensures Xor(c >> 8, Iter(8, Index(c, b))) == ByteIn(c, b)
  {
    hide Iter;
    ShiftByte(Xor(c, b as bv32));
    ByteParts(c, b);
  }

  lemma ByteParts(c: bv32, b: bv8)
    ensures Xor(c, b as bv32) >> 8 == c >> 8 && Xor(c, b as bv32) & 0xff == Index(c, b)
  {
    assert (b as bv32) >> 8 == 0;
  }

  // (crc >> 8) ^ crc_table[(crc ^ b) & 0xff]
  function TableStep(c: bv32, b: bv8, t: seq<bv32>): (r: bv32)
    requires ByteTable(t)
    ensures r == ByteIn(c, b)
  {
    TableByte(c, b);
    (c >> 8) ^ t[Index(c, b) as int]
  }

  // make_crc_table: the byte table and the powers of x.
  method MakeTables() returns (table: array<bv32>, x2n: array<bv32>, ltl: seq<array<bv32>>)
    ensures fresh(table) && fresh(x2n)
    ensures ByteTable(table[..]) && PowerTable(x2n[..]) && BraidTable(Rows(ltl), N)
  {
    hide Iter, Step, Mul, Entry, TableBelow, BraidTable, Rows;
    table := new bv32[256];
    NoBytes(table[..], 8);
    var i: bv32 := 0;
    while i < 256
      invariant table.Length == 256 && TableBelow(table[..], 8, i)
      decreases 256 - i
    {
      var p := i;
      IterNone(i);
      for j := 0 to 8
        invariant p == Iter(j, i) && TableBelow(table[..], 8, i)
      {
        IterNext(j, i);
        p := TimesX(p);
      }
      SetByte(table[..], 8, i, p);
      ghost var before := table[..];
      table[i as int] := p;
      assert table[..] == before[i as int := p];
      i := i + 1;
    }
    x2n := new bv32[32];
    var p: bv32 := 0x40000000;
    x2n[0] := p;
    FirstEntry();
    var n := 1;
    while n < 32
      invariant 1 <= n <= 32 && x2n.Length == 32 && Entry(n - 1, p) && TableBelow(table[..], 8, 256)
      invariant forall k {:trigger x2n[k]} :: 0 <= k < n ==> Entry(k, x2n[k])
    {
      EntryNonZero(n - 1, p);
      EntrySquare(n - 1, p);
      p := MultModP(p, p);
      x2n[n] := p;
      n := n + 1;
    }
    ltl := Braid(N, x2n[..]);
  }

  lemma SetByte(t: seq<bv32>, e: nat, i: bv32, v: bv32)
    requires TableBelow(t, e, i) && i < 256 && v == Iter(e, i)
    ensures i as int < 256 && TableBelow(t[i as int := v], e, i + 1)
  {
    hide Iter;
    forall b: bv32 | b < i + 1 ensures t[i as int := v][b as int] == Iter(e, b) {
      if b != i {
        Injective(b, i);
        Before(b, i);
      }
    }
  }

  lemma NoBytes(t: seq<bv32>, e: nat)
    requires |t| == 256
    ensures TableBelow(t, e, 0)
  {
  }

  lemma Injective(b: bv32, i: bv32)
    requires b != i
    ensures b as int != i as int
  {
    assert (b as int) as bv32 == b && (i as int) as bv32 == i;
  }

  lemma Before(b: bv32, i: bv32)
    requires i < 256 && b < i + 1 && b != i
    ensures b < i
  {
  }

  lemma IterNext(j: nat, b: bv32)
    ensures Iter(j + 1, b) == Step(Iter(j, b))
  {
  }

  lemma EntryNonZero(k: nat, v: bv32)
    requires Entry(k, v)
    ensures v != 0
  {
    IterNonZero(Bits.Pow2(k), ONE);
  }

  lemma EntrySquare(k: nat, v: bv32)
    requires Entry(k, v)
    ensures Entry(k + 1, Mul(v, v))
  {
    hide Mul, Iter;
    PowerSquare(Bits.Pow2(k));
  }

  // ---- words -----------------------------------------------------------------------------------

  // w >> (k << 3)
  function ShrB(w: bv64, k: nat): bv64
    decreases k
  {
    if k == 0 then w else Shr8(ShrB(w, k - 1))
  }

  function LowOf(w: bv64): (b: bv32)
    ensures b < 256
  {
    (w & 0xff) as bv32
  }

  // The n low bytes of a word, the least significant first.
  function BytesN(w: bv64, n: nat): (bytes: seq<bv8>)
    ensures |bytes| == n
    decreases n
  {
    if n == 0 then [] else [Low8(w)] + BytesN(Shr8(w), n - 1)
  }

  function Low8(w: bv64): bv8 { (w & 0xff) as bv8 }

  function Shr8(w: bv64): bv64 { w >> 8 }

  function Xor64(a: bv64, b: bv64): bv64 { a ^ b }

  function Ext(c: bv32): bv64 { c as bv64 }

  // The register after the eight bytes of a word.
  function WordIn(c: bv32, w: bv64): bv32 { Reg(c, BytesN(w, W)) }

  lemma BytesStep(c: bv32, w: bv64, n: nat)
    ensures Reg(c, BytesN(w, n + 1)) == Reg(ByteIn(c, Low8(w)), BytesN(Shr8(w), n))
  {
    hide ByteIn, Low8, Shr8;
    var bytes := BytesN(w, n + 1);
    assert bytes[1..] == BytesN(Shr8(w), n);
  }

  lemma {:induction false} RegLinear(c: bv32, d: bv32, u: bv64, v: bv64, n: nat)
    ensures Reg(Xor(c, d), BytesN(Xor64(u, v), n)) == Xor(Reg(c, BytesN(u, n)), Reg(d, BytesN(v, n)))
    decreases n
  {
    hide Xor, Xor64, ByteIn, Reg, BytesN, Shr8, Low8;
    if n == 0 {
      RegNone(c, u);
      RegNone(d, v);
      RegNone(Xor(c, d), Xor64(u, v));
    } else {
      BytesStep(c, u, n - 1);
      BytesStep(d, v, n - 1);
      BytesStep(Xor(c, d), Xor64(u, v), n - 1);
      ByteLinear(c, d, u, v);
      WordShiftXor(u, v);
      RegLinear(ByteIn(c, Low8(u)), ByteIn(d, Low8(v)), Shr8(u), Shr8(v), n - 1);
    }
  }

  lemma RegNone(c: bv32, u: bv64)
    ensures Reg(c, BytesN(u, 0)) == c
  {
  }

  lemma WordShiftXor(u: bv64, v: bv64)
    ensures Shr8(Xor64(u, v)) == Xor64(Shr8(u), Shr8(v))
  {
  }

  lemma LowXor(u: bv64, v: bv64)
    ensures Low8(Xor64(u, v)) as bv32 == Xor(Low8(u) as bv32, Low8(v) as bv32)
  {
  }

  lemma ByteLinear(c: bv32, d: bv32, u: bv64, v: bv64)
    ensures ByteIn(Xor(c, d), Low8(Xor64(u, v)))
            == Xor(ByteIn(c, Low8(u)), ByteIn(d, Low8(v)))
  {
    var b, e := Low8(u) as bv32, Low8(v) as bv32;
    LowXor(u, v);
    hide Xor, Xor64, Iter, Low8;
    XorSwap(c, d, b, e);
    IterXor(8, Xor(c, b), Xor(d, e));
  }

  lemma {:induction false} ZeroWord(c: bv32, n: nat)
    ensures Reg(c, BytesN(0, n)) == Iter(8 * n, c)
    decreases n
  {
    hide ByteIn, Reg, BytesN, Iter, Shr8, Low8;
    if n == 0 {
      RegNone(c, 0);
      IterNone(c);
    } else {
      BytesStep(c, 0, n - 1);
      ZeroByte(c);
      ZeroWord(Iter(8, c), n - 1);
      IterAdd(8 * (n - 1), 8, c);
    }
  }

  lemma ZeroByte(c: bv32)
    ensures ByteIn(c, Low8(0)) == Iter(8, c) && Shr8(0) == 0
  {
    hide Iter;
    XorUnit(c);
    assert Low8(0) as bv32 == 0;
  }

  // A register is absorbed by a word: the bytes of u after register t are the bytes of u ^ t.
  lemma {:induction false} Absorb(a: bv32, u: bv64, t: bv32, n: nat)
    ensures Reg(Xor(a, t), BytesN(Xor64(u, Ext(t)), n)) == Xor(Reg(a, BytesN(u, n)), Shr(t, 8 * n))
    decreases n
  {
    hide Xor, Xor64, Ext, ByteIn, Reg, BytesN, Shr8, Low8, Shr;
    if n == 0 {
      RegNone(a, u);
      RegNone(Xor(a, t), Xor64(u, Ext(t)));
      ShrNone(t);
    } else {
      BytesStep(a, u, n - 1);
      BytesStep(Xor(a, t), Xor64(u, Ext(t)), n - 1);
      AbsorbByte(a, u, t);
      Absorb(ByteIn(a, Low8(u)), Shr8(u), Shr(t, 8), n - 1);
      ShrAdd(t, 8, 8 * (n - 1));
    }
  }

  lemma ShrNone(t: bv32)
    ensures Shr(t, 0) == t
  {
  }

  lemma AbsorbByte(a: bv32, u: bv64, t: bv32)
    ensures ByteIn(Xor(a, t), Low8(Xor64(u, Ext(t)))) == Xor(ByteIn(a, Low8(u)), Shr(t, 8))
    ensures Shr8(Xor64(u, Ext(t))) == Xor64(Shr8(u), Ext(Shr(t, 8)))
  {
    var b := Low8(u) as bv32;
    var high := t & 0xffffff00;
    ShrEight(t);
    LowExt(u, t);
    WordShiftXor(u, Ext(t));
    ExtShift(t);
    LowByte(t);
    hide Xor, Xor64, Ext, Shr8, Low8, Iter, Shr;
    // (a ^ t) ^ (b ^ low t) == (a ^ b) ^ high t
    XorSwap(a, t, b, t & 0xff);
    XorAlgebra(high, t & 0xff, t & 0xff);
    XorUnit(t & 0xff);
    XorUnit(high);
    IterXor(8, Xor(a, b), high);
    ShiftOut(high);
  }

  lemma LowExt(u: bv64, t: bv32)
    ensures Low8(Xor64(u, Ext(t))) as bv32 == Xor(Low8(u) as bv32, t & 0xff)
  {
  }

  lemma ExtShift(t: bv32)
    ensures Shr8(Ext(t)) == Ext(t >> 8)
  {
  }

  lemma AbsorbWord(c: bv32, u: bv64)
    ensures WordIn(0, Xor64(u, Ext(c))) == WordIn(c, u)
  {
    hide Xor, Xor64, Ext, Reg, BytesN, Shr;
    Absorb(c, u, c, 8);
    XorUnit(c);
    ShrAllWord(c);
    XorUnit(WordIn(c, u));
  }

  lemma ShrAllWord(c: bv32)
    ensures Shr(c, 64) == 0
  {
    hide Shr;
    ShrAll(c);
    ShrAdd(c, 32, 32);
    ShrAll(0);
  }

  // The register before a word and the word itself contribute separately.
  lemma WordSplit(c: bv32, u: bv64)
    ensures WordIn(c, u) == Xor(Iter(64, c), WordIn(0, u))
  {
    hide Xor, Xor64, Reg, BytesN, Iter;
    RegLinear(c, 0, 0, u, 8);
    XorUnit(c);
    Xor64Unit(u);
    ZeroWord(c, 8);
  }

  lemma Xor64Unit(u: bv64)
    ensures Xor64(0, u) == u
  {
  }

  // ---- crc_word --------------------------------------------------------------------------------

  // crc_word: the register after the bytes of a word, starting from zero.
  method CrcWord(data0: bv64, t: seq<bv32>) returns (crc: bv32)
    requires ByteTable(t)
    ensures crc == WordIn(0, data0)
  {
    hide Xor64, Ext, Reg, BytesN, Iter, ByteTable, ShrB, ByteIn, Shr8, Low8;
    var data := data0;
    ghost var r: bv32, rest := 0, data0;
    WordStart(data0);
    var k := 0;
    while k < W
      invariant 0 <= k <= W && data == Xor64(rest, Ext(r)) && rest == ShrB(data0, k)
      invariant WordIn(0, data0) == Reg(r, BytesN(rest, W - k))
    {
      var i := LowOf(data);
      WordStep(data, rest, r, i);
      BytesStep(r, rest, W - k - 1);
      data := Xor64(Shr8(data), Ext(Entry8(t, i)));
      r, rest := ByteIn(r, Low8(rest)), Shr8(rest);
      k := k + 1;
      ShrBNext(data0, k);
    }
    ShrBAll(data0);
    RegNone(r, rest);
    WordEnd(data, r);
    crc := (data & 0xffffffff) as bv32;
  }

  // crc_table[i]
  function Entry8(t: seq<bv32>, i: bv32): (v: bv32)
    requires ByteTable(t) && i < 256
    ensures v == Iter(8, i)
  {
    t[i as int]
  }

  lemma WordStart(w: bv64)
    ensures w == Xor64(w, Ext(0)) && w == ShrB(w, 0)
  {
  }

  lemma WordEnd(data: bv64, r: bv32)
    requires data == Xor64(0, Ext(r))
    ensures (data & 0xffffffff) as bv32 == r
  {
  }

  lemma ShrBNext(w: bv64, k: nat)
    requires k > 0
    ensures ShrB(w, k) == Shr8(ShrB(w, k - 1))
  {
  }

  lemma ShrBAll(w: bv64)
    ensures ShrB(w, 8) == 0
  {
    hide Shr8;
    var w1 := Shr8(w); var w2 := Shr8(w1); var w3 := Shr8(w2); var w4 := Shr8(w3);
    assert ShrB(w, 1) == w1;
    assert ShrB(w, 2) == w2;
    assert ShrB(w, 3) == w3;
    assert ShrB(w, 4) == w4;
    var w5 := Shr8(w4); var w6 := Shr8(w5); var w7 := Shr8(w6);
    assert ShrB(w, 5) == w5;
    assert ShrB(w, 6) == w6;
    assert ShrB(w, 7) == w7;
    EightShr8(w);
  }

  lemma EightShr8(w: bv64)
    ensures Shr8(Shr8(Shr8(Shr8(Shr8(Shr8(Shr8(Shr8(w)))))))) == 0
  {
    assert Shr8(Shr8(w)) == w >> 16;
    assert (w >> 16) >> 16 == w >> 32;
    assert (w >> 32) >> 16 == w >> 48;
    assert (w >> 48) >> 16 == 0;
  }

  // One round of crc_word keeps data as the rest of the word plus the register.
  lemma WordStep(data: bv64, rest: bv64, r: bv32, i: bv32)
    requires data == Xor64(rest, Ext(r)) && i == LowOf(data)
    ensures Xor64(Shr8(data), Ext(Iter(8, i))) == Xor64(Shr8(rest), Ext(ByteIn(r, Low8(rest))))
  {
    var b := Low8(rest);
    hide Xor, Iter, ByteIn;
    TableByte(r, b);
    IndexLow(rest, r, b);
    WordShiftXor(rest, Ext(r));
    ExtShift(r);
    ExtXor(r >> 8, Iter(8, i));
    hide Xor64, Ext, Shr8, Low8;
    Xor64Assoc(Shr8(rest), Ext(r >> 8), Ext(Iter(8, i)));
  }

  lemma IndexLow(rest: bv64, r: bv32, b: bv8)
    requires b == Low8(rest)
    ensures LowOf(Xor64(rest, Ext(r))) == Index(r, b)
  {
  }

  lemma ExtXor(a: bv32, b: bv32)
    ensures Ext(Xor(a, b)) == Xor64(Ext(a), Ext(b))
  {
  }

  lemma Xor64Assoc(a: bv64, b: bv64, c: bv64)
    ensures Xor64(Xor64(a, b), c) == Xor64(a, Xor64(b, c))
  {
    calc {
      Xor64(Xor64(a, b), c);
      (a ^ b) ^ c;
      a ^ (b ^ c);
      Xor64(a, Xor64(b, c));
    }
  }

  // ---- the braid tables ------------------------------------------------------------------------

  // Row k of crc_braid_table: what byte k of a word contributes n words after the word's start.
  function Exponent(n: nat, k: nat): nat
    requires n >= 1 && k <= W
  {
    8 * (n * W - k)
  }

  ghost predicate BraidTable(ltl: seq<seq<bv32>>, n: nat) {
    n >= 1 && |ltl| == W && forall k {:trigger ltl[k]} :: 0 <= k < W ==> TableBelow(ltl[k], Exponent(n, k), 256)
  }

  // The rows of a table, as values.
  function Rows(ltl: seq<array<bv32>>): (rows: seq<seq<bv32>>)
    reads ltl
    ensures |rows| == |ltl| && forall k {:trigger rows[k]} :: 0 <= k < |ltl| ==> rows[k] == ltl[k][..]
  {
    seq(|ltl|, k requires 0 <= k < |ltl| reads ltl => ltl[k][..])
  }

  // braid, one row of the little-endian tables
  method BraidRow(n: nat, k: nat, x2n: seq<bv32>) returns (row: array<bv32>)
    requires PowerTable(x2n) && n >= 1 && k < W
    ensures fresh(row) && TableBelow(row[..], Exponent(n, k), 256)
  {
    hide Iter, Mul, PowerTable, Scaled, TableBelow, Exponent;
    row := new bv32[256];
    ghost var e := Exponent(n, k);
    NoBytes(row[..], e);
    RowPower(n, k);
    var p := X2nModP((n * W + 3 - k) * 8, 0, x2n);
    IterZero(e);
    SetByte(row[..], e, 0, 0);
    ghost var before := row[..];
    row[0] := 0;
    FirstIndex();
    assert row[..] == before[0 := 0];
    var i: bv32 := 1;
    while i < 256
      invariant row.Length == 256 && TableBelow(row[..], e, i)
      decreases 256 - i
    {
      TopByte(i);
      RowEntry(i, e, p);
      var q := MultModP(i << 24, p);
      SetByte(row[..], e, i, q);
      before := row[..];
      row[i as int] := q;
      assert row[..] == before[i as int := q];
      i := i + 1;
    }
  }

  lemma FirstIndex()
    ensures (0 as bv32) as int == 0
  {
  }

  lemma RowPower(n: nat, k: nat)
    requires n >= 1 && k < W
    ensures n * W + 3 - k >= 0 && Scaled((n * W + 3 - k) * 8, 0) == Exponent(n, k) + 24
  {
  }

  // A byte at the top of a register is 24 places before its place at the bottom.
  lemma TopByte(i: bv32)
    ensures i < 256 ==> Iter(24, i << 24) == i
    ensures 0 < i < 256 ==> i << 24 != 0
  {
    if i < 256 {
      ByteMoves(i);
      hide Iter;
      ShiftOut(i << 24);
      ShiftOut(i << 16);
      ShiftOut(i << 8);
      IterAdd(8, 8, i << 24);
      IterAdd(8, 16, i << 24);
    }
  }

  lemma ByteMoves(i: bv32)
    requires i < 256
    ensures (i << 24) & 0xff == 0 && (i << 24) >> 8 == i << 16
    ensures (i << 16) & 0xff == 0 && (i << 16) >> 8 == i << 8
    ensures (i << 8) & 0xff == 0 && (i << 8) >> 8 == i
    ensures 0 < i ==> i << 24 != 0
  {
  }

  lemma RowEntry(i: bv32, e: nat, p: bv32)
    requires i < 256 && p == Iter(e + 24, ONE)
    ensures Mul(i << 24, p) == Iter(e, i)
  {
    hide Iter, Mul;
    MulCommutes(i << 24, p);
    MulPower(e + 24, i << 24);
    IterAdd(e, 24, i << 24);
    TopByte(i);
  }

  method Braid(n: nat, x2n: seq<bv32>) returns (ltl: seq<array<bv32>>)
    requires PowerTable(x2n) && n >= 1
    ensures BraidTable(Rows(ltl), n)
  {
    hide Iter, PowerTable, TableBelow, Exponent;
    ltl := [];
    var k := 0;
    while k < W
      invariant 0 <= k <= W && |ltl| == k
      invariant forall j {:trigger ltl[j]} :: 0 <= j < k ==> TableBelow(ltl[j][..], Exponent(n, j), 256)
    {
      var row := BraidRow(n, k, x2n);
      ltl := ltl + [row];
      k := k + 1;
    }
  }

  // (word >> (k << 3)) & 0xff
  function ByteAt(w: bv64, k: nat): (b: bv32)
    ensures b < 256
  {
    LowOf(ShrB(w, k))
  }

  // The new CRC of one braid: one table look-up for each byte of its word.
  method BraidWord(word: bv64, ltl: seq<seq<bv32>>, n: nat) returns (crc: bv32)
    requires BraidTable(ltl, n)
    ensures crc == Iter(64 * (n - 1), WordIn(0, word))
  {
    hide Xor, Reg, BytesN, Iter, TableBelow, ShrB, ByteIn, Shr8, Low8, Exponent, ByteAt;
    ghost var r: bv32, rest := 0, word;
    WordStart(word);
    crc := LookUp(ltl[0], Exponent(n, 0), ByteAt(word, 0));
    BraidStart(n, crc);
    BraidStep(r, rest, word, 0, n);
    BytesStep(r, rest, W - 1);
    r, rest := ByteIn(r, Low8(rest)), Shr8(rest);
    ShrBNext(word, 1);
    var k := 1;
    while k < W
      invariant 1 <= k <= W && rest == ShrB(word, k) && crc == Iter(Exponent(n, k), r)
      invariant WordIn(0, word) == Reg(r, BytesN(rest, W - k))
    {
      BraidStep(r, rest, word, k, n);
      BytesStep(r, rest, W - k - 1);
      crc := Plus(crc, LookUp(ltl[k], Exponent(n, k), ByteAt(word, k)));
      r, rest := ByteIn(r, Low8(rest)), Shr8(rest);
      k := k + 1;
      ShrBNext(word, k);
    }
    RegNone(r, rest);
  }

  // The register after one more byte, moved to the end of the block.
  lemma BraidStep(r: bv32, rest: bv64, word: bv64, k: nat, n: nat)
    requires n >= 1 && k < W && rest == ShrB(word, k)
    ensures Xor(Iter(Exponent(n, k), r), Iter(Exponent(n, k), ByteAt(word, k)))
            == Iter(Exponent(n, k + 1), ByteIn(r, Low8(rest)))
  {
    LowBytes(rest);
    hide Iter, Xor, ShrB, Low8, LowOf;
    var b := Low8(rest) as bv32;
    assert Exponent(n, k) == Exponent(n, k + 1) + 8;
    hide Exponent;
    IterAdd(Exponent(n, k + 1), 8, Xor(r, b));
    IterXor(Exponent(n, k), r, b);
  }

  lemma LowBytes(w: bv64)
    ensures LowOf(w) == Low8(w) as bv32
  {
  }

  lemma BraidStart(n: nat, b: bv32)
    requires n >= 1
    ensures Xor(Iter(Exponent(n, 0), 0), b) == b
    ensures Exponent(n, W) == 64 * (n - 1)
  {
    IterZero(Exponent(n, 0));
    XorUnit(b);
  }

  function LookUp(t: seq<bv32>, ghost e: nat, b: bv32): (v: bv32)
    requires TableBelow(t, e, 256) && b < 256
    ensures v == Iter(e, b)
  {
    t[b as int]
  }

  // ---- braids ----------------------------------------------------------------------------------

  // The register after whole words.
  function Words(c: bv32, ws: seq<bv64>): bv32
    decreases ws
  {
    if ws == [] then c else Words(WordIn(c, ws[0]), ws[1..])
  }

  // Each braid's CRC added to its word of the block.
  function Inject(crcs: seq<bv32>, ws: seq<bv64>): (us: seq<bv64>)
    requires |crcs| == |ws|
    ensures |us| == |ws|
  {
    seq(|ws|, j requires 0 <= j < |ws| => Xor64(ws[j], Ext(crcs[j])))
  }

  lemma {:induction false} WordsSnoc(c: bv32, ws: seq<bv64>, w: bv64)
    ensures Words(c, ws + [w]) == WordIn(Words(c, ws), w)
    decreases ws
  {
    if ws == [] {
      assert ws + [w] == [w] && [w][1..] == [];
    } else {
      assert (ws + [w])[1..] == ws[1..] + [w];
      WordsSnoc(WordIn(c, ws[0]), ws[1..], w);
    }
  }

  // What is in the register before the words, and the words themselves, contribute separately.
  lemma {:induction false} WordsSplit(c: bv32, ws: seq<bv64>)
    ensures Words(c, ws) == Xor(Iter(64 * |ws|, c), Words(0, ws))
    decreases |ws|
  {
    hide Iter, Xor, WordIn;
    if ws == [] {
      IterNone(c);
      XorUnit(c);
    } else {
      var n := |ws| - 1;
      var init, w := ws[..n], ws[n];
      assert ws == init + [w];
      WordsSplit(c, init);
      WordsSnoc(c, init, w);
      WordsSnoc(0, init, w);
      var a, b := Iter(64 * n, c), Words(0, init);
      WordSplit(Xor(a, b), w);
      WordSplit(b, w);
      IterXor(64, a, b);
      IterAdd(64, 64 * n, c);
      XorAlgebra(Iter(64, a), Iter(64, b), WordIn(0, w));
    }
  }

  // Injecting into both: addition word by word.
  lemma {:induction false} WordsInject(crcs: seq<bv32>, ws: seq<bv64>, m: nat)
    requires |crcs| == |ws| && m <= |ws|
    ensures Words(0, Inject(crcs, ws)[..m]) == Xor(Words(0, Inject(crcs, Zeros(|ws|))[..m]), Words(0, ws[..m]))
    decreases m
  {
    hide Xor, WordIn, Iter, Xor64, Ext;
    var us, zs := Inject(crcs, ws), Inject(crcs, Zeros(|ws|));
    if m == 0 {
      XorUnit(0);
    } else {
      WordsInject(crcs, ws, m - 1);
      assert us[..m] == us[..m - 1] + [us[m - 1]];
      assert zs[..m] == zs[..m - 1] + [zs[m - 1]];
      assert ws[..m] == ws[..m - 1] + [ws[m - 1]];
      WordsSnoc(0, us[..m - 1], us[m - 1]);
      WordsSnoc(0, zs[..m - 1], zs[m - 1]);
      WordsSnoc(0, ws[..m - 1], ws[m - 1]);
      InjectLinear(Words(0, zs[..m - 1]), Words(0, ws[..m - 1]), crcs[m - 1], ws[m - 1]);
    }
  }

  function Zeros(n: nat): (zs: seq<bv64>)
    ensures |zs| == n
  {
    seq(n, j => 0)
  }

  lemma InjectLinear(a: bv32, b: bv32, c: bv32, w: bv64)
    ensures WordIn(Xor(a, b), Xor64(w, Ext(c))) == Xor(WordIn(a, Xor64(0, Ext(c))), WordIn(b, w))
  {
    hide Xor, Xor64, Ext, Reg, BytesN;
    RegLinear(a, b, Xor64(0, Ext(c)), w, 8);
    Xor64Unit(Ext(c));
    Xor64Commutes(Ext(c), w);
  }

  lemma Xor64Commutes(a: bv64, b: bv64)
    ensures Xor64(a, b) == Xor64(b, a)
  {
  }

  // Every braid advanced over its word and n - 1 more words adds up to the register of the whole
  // block moved over the next one.
  lemma {:induction false} BraidsAdvance(us: seq<bv64>, crcs: seq<bv32>, n: nat, m: nat)
    requires |us| == |crcs| && n >= 1 && m <= |us|
    requires forall j :: 0 <= j < |us| ==> crcs[j] == Iter(64 * (n - 1), WordIn(0, us[j]))
    ensures Words(0, Inject(crcs, Zeros(|us|))[..m]) == Iter(64 * n, Words(0, us[..m]))
    decreases m
  {
    hide Xor, WordIn, Iter, Xor64, Ext;
    var zs := Inject(crcs, Zeros(|us|));
    if m == 0 {
      IterZero(64 * n);
    } else {
      BraidsAdvance(us, crcs, n, m - 1);
      assert zs[..m] == zs[..m - 1] + [zs[m - 1]];
      assert us[..m] == us[..m - 1] + [us[m - 1]];
      WordsSnoc(0, zs[..m - 1], zs[m - 1]);
      WordsSnoc(0, us[..m - 1], us[m - 1]);
      AdvanceOne(Words(0, us[..m - 1]), us[m - 1], crcs[m - 1], n);
    }
  }

  lemma AdvanceOne(r: bv32, u: bv64, c: bv32, n: nat)
    requires n >= 1 && c == Iter(64 * (n - 1), WordIn(0, u))
    ensures WordIn(Iter(64 * n, r), Xor64(0, Ext(c))) == Iter(64 * n, WordIn(r, u))
  {
    hide Xor, Xor64, Ext, Iter, WordIn;
    var g := WordIn(0, u);
    WordSplit(Iter(64 * n, r), Xor64(0, Ext(c)));
    AbsorbWord(c, 0);
    WordSplit(c, 0);
    NoWord();
    XorUnit(Iter(64, c));
    IterAdd(64, 64 * (n - 1), g);
    IterAdd(64, 64 * n, r);
    IterAdd(64 * n, 64, r);
    WordSplit(r, u);
    IterXor(64 * n, Iter(64, r), g);
  }

  lemma NoWord()
    ensures WordIn(0, 0) == 0
  {
    hide Iter, Reg, BytesN;
    ZeroWord(0, 8);
    IterZero(64);
  }

  // One block: the new braids, injected into the next block, stand for the register after this one.
  lemma NextBlock(us: seq<bv64>, crcs: seq<bv32>, next: seq<bv64>)
    requires |us| == |crcs| == |next| >= 1
    requires forall j :: 0 <= j < |us| ==> crcs[j] == Iter(64 * (|us| - 1), WordIn(0, us[j]))
    ensures Words(0, Inject(crcs, next)) == Words(Words(0, us), next)
  {
    hide Xor, WordIn, Iter, Words, Inject;
    var n := |us|;
    var zs := Inject(crcs, Zeros(n));
    BraidsAdvance(us, crcs, n, n);
    WordsInject(crcs, next, n);
    WordsSplit(Words(0, us), next);
    assert us[..n] == us && next[..n] == next && zs[..n] == zs && Inject(crcs, next)[..n] == Inject(crcs, next);
  }

  // The first block: the register goes into the first braid.
  lemma FirstBlock(c: bv32, ws: seq<bv64>, crcs: seq<bv32>)
    requires |crcs| == |ws| >= 1 && crcs[0] == c && forall j :: 1 <= j < |crcs| ==> crcs[j] == 0
    ensures Words(0, Inject(crcs, ws)) == Words(c, ws)
  {
    hide WordIn, Xor64, Ext;
    var us := Inject(crcs, ws);
    AbsorbWord(c, ws[0]);
    forall j | 1 <= j < |ws| ensures us[j] == ws[j] {
      Xor64Ext0(ws[j]);
    }
    assert us[1..] == ws[1..];
  }

  lemma Xor64Ext0(w: bv64)
    ensures Xor64(w, Ext(0)) == w
  {
  }

  // ---- crc32_z ---------------------------------------------------------------------------------

  // A little-endian load of eight bytes.
  function Load(b0: bv8, b1: bv8, b2: bv8, b3: bv8, b4: bv8, b5: bv8, b6: bv8, b7: bv8): bv64 {
    (b0 as bv64) | ((b1 as bv64) << 8) | ((b2 as bv64) << 16) | ((b3 as bv64) << 24)
    | ((b4 as bv64) << 32) | ((b5 as bv64) << 40) | ((b6 as bv64) << 48) | ((b7 as bv64) << 56)
  }

  lemma LoadFirst(b0: bv8, b1: bv8, b2: bv8, b3: bv8, b4: bv8, b5: bv8, b6: bv8, b7: bv8)
    ensures Low8(Load(b0, b1, b2, b3, b4, b5, b6, b7)) == b0
  {
  }

  lemma LoadRest(b0: bv8, b1: bv8, b2: bv8, b3: bv8, b4: bv8, b5: bv8, b6: bv8, b7: bv8)
    ensures Shr8(Load(b0, b1, b2, b3, b4, b5, b6, b7)) == Load(b1, b2, b3, b4, b5, b6, b7, 0)
  {
  }

  function WordAt(buf: seq<bv8>, pos: nat): bv64
    requires pos + 8 <= |buf|
  {
    Load(buf[pos], buf[pos + 1], buf[pos + 2], buf[pos + 3], buf[pos + 4], buf[pos + 5], buf[pos + 6], buf[pos + 7])
  }

  // The bytes from p up to end, then zeros, as a word.
  function Pad(buf: seq<bv8>, p: nat, end: nat): bv8
    requires end <= |buf|
  {
    if p < end then buf[p] else 0
  }

  function Tail(buf: seq<bv8>, p: nat, end: nat): bv64
    requires end <= |buf|
  {
    Load(Pad(buf, p, end), Pad(buf, p + 1, end), Pad(buf, p + 2, end), Pad(buf, p + 3, end),
         Pad(buf, p + 4, end), Pad(buf, p + 5, end), Pad(buf, p + 6, end), Pad(buf, p + 7, end))
  }

  lemma TailStep(buf: seq<bv8>, p: nat, end: nat)
    requires p < end <= |buf| && end <= p + 8
    ensures Low8(Tail(buf, p, end)) == buf[p] && Shr8(Tail(buf, p, end)) == Tail(buf, p + 1, end)
  {
    hide Load, Low8, Shr8;
    LoadFirst(Pad(buf, p, end), Pad(buf, p + 1, end), Pad(buf, p + 2, end), Pad(buf, p + 3, end),
              Pad(buf, p + 4, end), Pad(buf, p + 5, end), Pad(buf, p + 6, end), Pad(buf, p + 7, end));
    LoadRest(Pad(buf, p, end), Pad(buf, p + 1, end), Pad(buf, p + 2, end), Pad(buf, p + 3, end),
             Pad(buf, p + 4, end), Pad(buf, p + 5, end), Pad(buf, p + 6, end), Pad(buf, p + 7, end));
    assert Pad(buf, p + 8, end) == 0;
  }

  lemma {:induction false} TailBytes(buf: seq<bv8>, p: nat, end: nat)
    requires p <= end <= |buf| && end <= p + 8
    ensures BytesN(Tail(buf, p, end), end - p) == buf[p..end]
    decreases end - p
  {
    hide Tail, Low8, Shr8;
    if p < end {
      TailStep(buf, p, end);
      TailBytes(buf, p + 1, end);
      assert buf[p..end] == [buf[p]] + buf[p + 1..end];
    }
  }

  // Loading a word and taking it apart gives the bytes back.
  lemma WordBytes(buf: seq<bv8>, pos: nat)
    requires pos + 8 <= |buf|
    ensures BytesN(WordAt(buf, pos), 8) == buf[pos..pos + 8]
  {
    hide Load, BytesN;
    TailBytes(buf, pos, pos + 8);
    assert Tail(buf, pos, pos + 8) == WordAt(buf, pos);
  }

  // The n words from pos on.
  function Block(buf: seq<bv8>, pos: nat, n: nat): (ws: seq<bv64>)
    requires pos + 8 * n <= |buf|
    ensures |ws| == n
  {
    seq(n, j requires 0 <= j < n => WordAt(buf, pos + 8 * j))
  }

  lemma {:induction false} BlockReg(c: bv32, buf: seq<bv8>, pos: nat, n: nat)
    requires pos + 8 * n <= |buf|
    ensures Words(c, Block(buf, pos, n)) == Reg(c, buf[pos..pos + 8 * n])
    decreases n
  {
    hide WordAt, WordIn, Reg;
    if n == 0 {
      RegEmptyAt(c, buf, pos);
      NoWords(c);
    } else {
      BlockReg(c, buf, pos, n - 1);
      var w := WordAt(buf, pos + 8 * (n - 1));
      assert Block(buf, pos, n) == Block(buf, pos, n - 1) + [w];
      WordsSnoc(c, Block(buf, pos, n - 1), w);
      WordBytes(buf, pos + 8 * (n - 1));
      assert buf[pos..pos + 8 * n] == buf[pos..pos + 8 * (n - 1)] + buf[pos + 8 * (n - 1)..pos + 8 * n];
      RegConcat(c, buf[pos..pos + 8 * (n - 1)], buf[pos + 8 * (n - 1)..pos + 8 * n]);
      WordInIs(Words(c, Block(buf, pos, n - 1)), w);
    }
  }

  lemma WordInIs(c: bv32, w: bv64)
    ensures WordIn(c, w) == Reg(c, BytesN(w, 8))
  {
  }

  lemma RegEmptyAt(c: bv32, buf: seq<bv8>, pos: nat)
    requires pos <= |buf|
    ensures Reg(c, buf[pos..pos]) == c
  {
  }

  // One byte, table driven.
  method OneByte(c: bv32, buf: seq<bv8>, start: nat, pos: nat, t: seq<bv32>, ghost c0: bv32) returns (r: bv32)
    requires ByteTable(t) && start <= pos < |buf| && c == Reg(c0, buf[start..pos])
    ensures r == Reg(c0, buf[start..pos + 1])
  {
    hide ByteTable, ByteIn;
    r := TableStep(c, buf[pos], t);
    assert buf[start..pos + 1] == buf[start..pos] + [buf[pos]];
    RegConcat(c0, buf[start..pos], [buf[pos]]);
    assert [buf[pos]][1..] == [];
  }

  // The remaining bytes: eight at a time, then one at a time.
  method Remaining(c0: bv32, buf: seq<bv8>, start: nat, t: seq<bv32>) returns (c: bv32)
    requires ByteTable(t) && start <= |buf|
    ensures c == Reg(c0, buf[start..])
  {
    hide ByteTable, ByteIn;
    c := c0;
    var pos: nat, len: nat := start, |buf| - start;
    while len >= 8
      invariant start <= pos && pos + len == |buf| && c == Reg(c0, buf[start..pos])
    {
      len := len - 8;
      for k := 0 to 8
        invariant start <= pos && pos + len == |buf| - 8 + k && c == Reg(c0, buf[start..pos])
      {
        c := OneByte(c, buf, start, pos, t, c0);
        pos := pos + 1;
      }
    }
    while len != 0
      invariant start <= pos && pos + len == |buf| && c == Reg(c0, buf[start..pos])
    {
      len := len - 1;
      c := OneByte(c, buf, start, pos, t, c0);
      pos := pos + 1;
    }
    assert buf[start..] == buf[start..|buf|];
  }

  // The words of the block, with each braid's CRC folded in.
  method LoadBlock(crcs: seq<bv32>, buf: seq<bv8>, pos: nat) returns (words: seq<bv64>)
    requires |crcs| == N && pos + N * W <= |buf|
    ensures words == Inject(crcs, Block(buf, pos, N))
  {
    hide WordAt, Xor64, Ext;
    words := [];
    for j := 0 to N
      invariant |words| == j
      invariant forall i :: 0 <= i < j ==> words[i] == Xor64(WordAt(buf, pos + 8 * i), Ext(crcs[i]))
    {
      words := words + [Xor64(WordAt(buf, pos + 8 * j), Ext(crcs[j]))];
    }
  }

  // The braided calculation over blks blocks, at least one, from start on.
  method Blocks(c0: bv32, buf: seq<bv8>, start: nat, blks0: nat, t: seq<bv32>, ltl: seq<seq<bv32>>) returns (c: bv32, pos: nat)
    requires ByteTable(t) && BraidTable(ltl, N) && blks0 >= 1 && start + blks0 * (N * W) <= |buf|
    ensures pos == start + blks0 * (N * W) && c == Reg(c0, buf[start..pos])
  {
    hide Inject, Words, WordIn, ByteTable, BraidTable, Block, Reg, Iter, Xor64, Ext;
    var crcs := [c0, 0, 0, 0, 0];
    var blks: nat := blks0 - 1;
    pos := start;
    FirstBlock(c0, Block(buf, pos, N), crcs);
    BlockReg(c0, buf, pos, N);
    while blks != 0
      invariant |crcs| == N && start <= pos && pos + (blks + 1) * (N * W) == start + blks0 * (N * W)
      invariant Words(0, Inject(crcs, Block(buf, pos, N))) == Reg(c0, buf[start..pos + N * W])
    {
      var words := LoadBlock(crcs, buf, pos);
      var crcs' := [];
      for j := 0 to N
        invariant |crcs'| == j
        invariant forall i :: 0 <= i < j ==> crcs'[i] == Iter(64 * (N - 1), WordIn(0, words[i]))
      {
        var crc := BraidWord(words[j], ltl, N);
        crcs' := crcs' + [crc];
      }
      pos := pos + N * W;
      BlockDone(c0, buf, start, pos, words, crcs');
      crcs := crcs';
      blks := blks - 1;
    }
    var us := LoadBlock(crcs, buf, pos);
    c := LastBlock(us, t);
    pos := pos + N * W;
  }

  lemma BlockDone(c0: bv32, buf: seq<bv8>, start: nat, pos: nat, words: seq<bv64>, crcs: seq<bv32>)
    requires start <= pos && pos + N * W <= |buf| && |words| == |crcs| == N
    requires Words(0, words) == Reg(c0, buf[start..pos])
    requires forall j :: 0 <= j < N ==> crcs[j] == Iter(64 * (N - 1), WordIn(0, words[j]))
    ensures Words(0, Inject(crcs, Block(buf, pos, N))) == Reg(c0, buf[start..pos + N * W])
  {
    hide Inject, Words, WordIn, Block, Reg, Iter;
    var r := Reg(c0, buf[start..pos]);
    NextBlock(words, crcs, Block(buf, pos, N));
    BlockReg(r, buf, pos, N);
    assert buf[start..pos + N * W] == buf[start..pos] + buf[pos..pos + N * W];
    RegConcat(c0, buf[start..pos], buf[pos..pos + N * W]);
  }

  // The last block combines the braids one word after the other.
  method LastBlock(us: seq<bv64>, t: seq<bv32>) returns (c: bv32)
    requires ByteTable(t) && |us| == N
    ensures c == Words(0, us)
  {
    hide WordIn, ByteTable, Xor64, Ext, Words;
    c := CrcWord(us[0], t);
    WordsSnoc(0, [], us[0]);
    NoWords(0);
    assert us[..1] == [] + [us[0]];
    var j := 1;
    while j < N
      invariant 1 <= j <= N && c == Words(0, us[..j])
    {
      AbsorbWord(c, us[j]);
      c := CrcWord(Xor64(us[j], Ext(c)), t);
      assert us[..j + 1] == us[..j] + [us[j]];
      WordsSnoc(0, us[..j], us[j]);
      j := j + 1;
    }
    assert us[..N] == us;
  }

  lemma NoWords(c: bv32)
    ensures Words(c, []) == c
  {
  }

  // crc32_z for a buffer at address addr: the CRC continued from crc, whatever the alignment and
  // the length.  A null buffer gives the initial value.
  method Crc32Z(crc: bv64, data: Option<seq<bv8>>, addr: nat, t: seq<bv32>, ltl: seq<seq<bv32>>) returns (r: bv64)
    requires ByteTable(t) && BraidTable(ltl, N)
    ensures data.None? ==> r == 0
    ensures data.Some? ==> r == Ext(Crc(Low32(crc), data.value))
  {
    hide ByteTable, BraidTable, Reg, Iter, Xor, Ext;
    if data.None? {
      return 0;
    }
    var buf := data.value;
    var c0 := Condition(crc);
    var c, pos := c0, 0;
    RegEmptyAt(c0, buf, 0);
    if |buf| >= N * W + W - 1 {
      while pos < |buf| && (addr + pos) % W != 0
        invariant 0 <= pos < W && pos <= |buf| && c == Reg(c0, buf[0..pos])
        invariant forall a {:trigger Misaligned(a)} :: addr <= a < addr + pos ==> Misaligned(a)
      {
        Aligns(addr, pos);
        c := OneByte(c, buf, 0, pos, t, c0);
        pos := pos + 1;
      }
      // Word loads are aligned, and there is at least one whole block left.
      assert !Misaligned(addr + pos);
      var blks := (|buf| - pos) / (N * W);
      var c', pos' := Blocks(c, buf, pos, blks, t, ltl);
      assert buf[0..pos'] == buf[0..pos] + buf[pos..pos'];
      RegConcat(c0, buf[0..pos], buf[pos..pos']);
      c, pos := c', pos';
    }
    ghost var r0 := c;
    c := Remaining(c, buf, pos, t);
    assert buf == buf[0..pos] + buf[pos..];
    RegConcat(c0, buf[0..pos], buf[pos..]);
    r := PostCondition(c);
  }

  // crc32_z as compiled to make its tables itself: for every buffer the bit-at-a-time CRC, with no table given.
  method Crc32Dynamic(crc: bv64, data: Option<seq<bv8>>, addr: nat) returns (r: bv64)
    ensures data.None? ==> r == 0
    ensures data.Some? ==> r == Ext(Crc(Low32(crc), data.value))
  {
    hide ByteTable, PowerTable, BraidTable, Rows, Ext, Crc;
    var table, x2n, ltl := MakeTables();
    r := Crc32Z(crc, data, addr, table[..], Rows(ltl));
  }

  predicate Misaligned(a: nat) { a % W != 0 }

  // Among eight consecutive addresses one is aligned.
  lemma Aligns(addr: nat, pos: nat)
    requires Misaligned(addr + pos)
    requires forall a {:trigger Misaligned(a)} :: addr <= a < addr + pos ==> Misaligned(a)
    ensures pos < W - 1
  {
    var a := if addr % W == 0 then addr else addr + (W - addr % W);
    assert !Misaligned(a);
  }

  // (~crc) & 0xffffffff, and crc ^ 0xffffffff
  function Low32(crc: bv64): bv32 { (crc & 0xffffffff) as bv32 }

  function Condition(crc: bv64): (c: bv32)
    ensures c == Not(Low32(crc))
  {
    ((!crc) & 0xffffffff) as bv32
  }

  function PostCondition(c: bv32): (r: bv64)
    ensures r == Ext(Not(c))
  {
    (c as bv64) ^ 0xffffffff
  }
}
