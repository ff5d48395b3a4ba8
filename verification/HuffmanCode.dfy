/**
 * Bit streams and canonical Huffman codes (section 3.2.2 of RFC 1951), as the table builder of
 * inftrees.c uses them.  A stream is a natural number whose bit 0 comes first.  The first l bits
 * of a stream, read as a code with the first bit most significant, are Prefix(v, l); the same bits
 * as a table index, with the first bit least significant, are Low(v, l).
 */
module HuffmanCode {
  import opened Bits

  const MAXBITS: nat := 15

  // ---- streams ---------------------------------------------------------------------------------

  // v & ((1 << l) - 1)
  function Low(v: nat, l: nat): nat
    decreases l
  {
    if l == 0 then 0 else v % 2 + 2 * Low(v / 2, l - 1)
  }

  function BitVal(v: nat, i: nat): nat { if Bit(v, i) then 1 else 0 }

  function Prefix(v: nat, l: nat): nat { if l == 0 then 0 else 2 * Prefix(v, l - 1) + BitVal(v, l - 1) }

  // v << l
  function Scale(x: nat, l: nat): nat { if l == 0 then x else 2 * Scale(x, l - 1) }

  ghost predicate Same(v: nat, w: nat, l: nat) { forall i: nat {:trigger Bit(v, i)} {:trigger Bit(w, i)} :: i < l ==> Bit(v, i) == Bit(w, i) }

  lemma {:induction false} LowIsMask(v: nat, l: nat)
    ensures Low(v, l) == And(v, Pow2(l) - 1)
  {
    hide Rem, And;
    LowRem(v, l);
    AndRem(v, l);
  }

  lemma {:induction false} LowRem(v: nat, l: nat)
    ensures Low(v, l) == Rem(v, Pow2(l))
    decreases l
  {
    hide Rem;
    if l == 0 {
      RemZero(v, 1);
    } else {
      LowRem(v / 2, l - 1);
      ModDouble(v, Pow2(l - 1));
    }
  }

  lemma {:induction false} LowBit(v: nat, l: nat, i: nat)
    ensures Bit(Low(v, l), i) == (i < l && Bit(v, i))
    decreases l
  {
    if l == 0 {
      ZeroBits(i);
    } else {
      assert Low(v, l) / 2 == Low(v / 2, l - 1);
      if i > 0 {
        LowBit(v / 2, l - 1, i - 1);
      }
    }
  }

  lemma {:induction false} LowBelow(v: nat, l: nat)
    ensures Low(v, l) < Pow2(l)
    decreases l
  {
    if l > 0 {
      LowBelow(v / 2, l - 1);
    }
  }

  lemma {:induction false} LowSmall(v: nat, l: nat)
    requires v < Pow2(l)
    ensures Low(v, l) == v
    decreases l
  {
    if l > 0 {
      LowSmall(v / 2, l - 1);
    }
  }

  lemma {:induction false} SameLow(v: nat, w: nat, l: nat)
    ensures Same(v, w, l) <==> Low(v, l) == Low(w, l)
    decreases l
  {
    if Low(v, l) == Low(w, l) {
      forall i: nat | i < l ensures Bit(v, i) == Bit(w, i) {
        LowBit(v, l, i);
        LowBit(w, l, i);
      }
    }
    if Same(v, w, l) && l > 0 {
      assert Bit(v, 0) == Bit(w, 0);
      forall i: nat | i < l - 1 ensures Bit(v / 2, i) == Bit(w / 2, i) {
        assert Bit(v, i + 1) == Bit(w, i + 1);
      }
      SameLow(v / 2, w / 2, l - 1);
    }
  }

  lemma {:induction false} SamePrefix(v: nat, w: nat, l: nat)
    ensures Same(v, w, l) <==> Prefix(v, l) == Prefix(w, l)
  {
    if l > 0 {
      SamePrefix(v, w, l - 1);
      if Same(v, w, l) {
        assert Bit(v, l - 1) == Bit(w, l - 1);
        assert Same(v, w, l - 1);
      }
      if Prefix(v, l) == Prefix(w, l) {
        assert BitVal(v, l - 1) == BitVal(w, l - 1);
      }
    }
  }

  lemma SameSplit(v: nat, w: nat, a: nat, b: nat)
    ensures Same(v, w, a + b) <==> Same(v, w, a) && Same(Shr(v, a), Shr(w, a), b)
  {
    forall i: nat ensures Bit(Shr(v, a), i) == Bit(v, i + a) && Bit(Shr(w, a), i) == Bit(w, i + a) {
      BitShr(v, a, i);
      BitShr(w, a, i);
    }
    if Same(v, w, a) && Same(Shr(v, a), Shr(w, a), b) {
      forall i: nat | i < a + b ensures Bit(v, i) == Bit(w, i) {
        if i >= a {
          assert Bit(Shr(v, a), i - a) == Bit(Shr(w, a), i - a);
        }
      }
    }
    if Same(v, w, a + b) {
      forall i: nat | i < b ensures Bit(Shr(v, a), i) == Bit(Shr(w, a), i) {
        assert Bit(v, i + a) == Bit(w, i + a);
      }
    }
  }

  // ---- scaling ---------------------------------------------------------------------------------

  lemma {:induction false} ScaleAdd(x: nat, y: nat, l: nat)
    ensures Scale(x + y, l) == Scale(x, l) + Scale(y, l)
  {
    if l > 0 {
      ScaleAdd(x, y, l - 1);
    }
  }

  lemma {:induction false} ScaleScale(x: nat, a: nat, b: nat)
    ensures Scale(Scale(x, a), b) == Scale(x, a + b)
  {
    if b > 0 {
      ScaleScale(x, a, b - 1);
    }
  }

  lemma {:induction false} ScaleLess(x: nat, y: nat, l: nat)
    ensures x < y <==> Scale(x, l) < Scale(y, l)
  {
    if l > 0 {
      ScaleLess(x, y, l - 1);
    }
  }

  lemma {:induction false} ScaleOne(l: nat)
    ensures Scale(1, l) == Pow2(l) && Scale(0, l) == 0
  {
    if l > 0 {
      ScaleOne(l - 1);
    }
  }

  // More bits refine a prefix.
  lemma {:induction false} PrefixRange(v: nat, a: nat, b: nat)
    ensures Scale(Prefix(v, a), b) <= Prefix(v, a + b) < Scale(Prefix(v, a) + 1, b)
  {
    if b > 0 {
      PrefixRange(v, a, b - 1);
    }
  }

  // A stream whose bits from a on are clear.
  lemma {:induction false} PrefixZeros(v: nat, a: nat, b: nat)
    requires forall i: nat :: a <= i < a + b ==> !Bit(v, i)
    ensures Prefix(v, a + b) == Scale(Prefix(v, a), b)
  {
    if b > 0 {
      PrefixZeros(v, a, b - 1);
    }
  }

  // A stream whose bits from a on are set.
  lemma {:induction false} PrefixOnes(v: nat, a: nat, b: nat)
    requires forall i: nat :: a <= i < a + b ==> Bit(v, i)
    ensures Prefix(v, a + b) + 1 == Scale(Prefix(v, a) + 1, b)
  {
    if b > 0 {
      PrefixOnes(v, a, b - 1);
    }
  }

  // ---- the canonical code of section 3.2.2 -----------------------------------------------------

  // The number of symbols with code length l.
  function CountEq(lens: seq<nat>, l: nat): nat {
    if lens == [] then 0 else CountEq(lens[..|lens| - 1], l) + if lens[|lens| - 1] == l then 1 else 0
  }

  // The code values of length l used up to and including that length: next_code[l + 1] is twice this.
  function End(lens: seq<nat>, l: nat): nat { if l == 0 then 0 else 2 * End(lens, l - 1) + CountEq(lens, l) }

  // The first code of length l.
  function NextCode(lens: seq<nat>, l: nat): nat
    requires l >= 1
  {
    2 * End(lens, l - 1)
  }

  // The code of a symbol: codes of one length are consecutive, in symbol order.
  function CodeOf(lens: seq<nat>, sym: nat): nat
    requires sym < |lens| && lens[sym] >= 1
  {
    NextCode(lens, lens[sym]) + CountEq(lens[..sym], lens[sym])
  }

  // The number of symbols with a shorter, non-zero code length.
  function Base(lens: seq<nat>, l: nat): nat { if l <= 1 then 0 else Base(lens, l - 1) + CountEq(lens, l - 1) }

  // The place of a symbol when sorted by length, then by symbol.
  function Place(lens: seq<nat>, sym: nat): nat
    requires sym < |lens|
  {
    Base(lens, lens[sym]) + CountEq(lens[..sym], lens[sym])
  }

  // A stream that starts with a symbol's code.
  predicate StartsWith(lens: seq<nat>, sym: nat, v: nat)
    requires sym < |lens| && lens[sym] >= 1
  {
    Prefix(v, lens[sym]) == CodeOf(lens, sym)
  }

  // The k-th place holds a code of length l.
  predicate At(lens: seq<nat>, k: nat, l: nat) { 1 <= l <= MAXBITS && Base(lens, l) <= k < Base(lens, l) + CountEq(lens, l) }

  function CodeAt(lens: seq<nat>, k: nat, l: nat): nat
    requires At(lens, k, l)
  {
    NextCode(lens, l) + k - Base(lens, l)
  }

  // Where the code starts among all streams, counted in streams of MAXBITS bits.
  function Start(lens: seq<nat>, k: nat, l: nat): nat
    requires At(lens, k, l)
  {
    Scale(CodeAt(lens, k, l), MAXBITS - l)
  }

  function X(v: nat): nat { Prefix(v, MAXBITS) }

  lemma {:induction false} BaseMono(lens: seq<nat>, a: nat, b: nat)
    requires 1 <= a <= b
    ensures Base(lens, a) <= Base(lens, b)
    ensures a < b ==> Base(lens, a) + CountEq(lens, a) <= Base(lens, b)
  {
    if a < b {
      BaseMono(lens, a, b - 1);
    }
  }

  lemma AtUnique(lens: seq<nat>, k: nat, a: nat, b: nat)
    requires At(lens, k, a) && At(lens, k, b)
    ensures a == b
  {
    if a < b {
      BaseMono(lens, a, b);
    } else if b < a {
      BaseMono(lens, b, a);
    }
  }

  lemma AtMono(lens: seq<nat>, j: nat, a: nat, k: nat, b: nat)
    requires At(lens, j, a) && At(lens, k, b) && j <= k
    ensures a <= b
  {
    if b < a {
      BaseMono(lens, b, a);
    }
  }

  // Being in the range of a code is starting with it.
  lemma InRange(lens: seq<nat>, k: nat, l: nat, v: nat)
    requires At(lens, k, l)
    ensures Prefix(v, l) == CodeAt(lens, k, l)
            <==> Start(lens, k, l) <= X(v) < Start(lens, k, l) + Scale(1, MAXBITS - l)
  {
    var c, p, m := CodeAt(lens, k, l), Prefix(v, l), MAXBITS - l;
    PrefixRange(v, l, m);
    ScaleAdd(c, 1, m);
    ScaleLess(p, c + 1, m);
    ScaleLess(c, p + 1, m);
  }

  // Nothing has a length strictly between a and b.
  lemma {:induction false} EndAcross(lens: seq<nat>, a: nat, b: nat)
    requires 1 <= a <= b && Base(lens, b + 1) == Base(lens, a + 1)
    ensures End(lens, b) == Scale(End(lens, a), b - a)
  {
    if a < b {
      BaseMono(lens, a + 1, b);
      EndAcross(lens, a, b - 1);
    }
  }

  // Codes follow each other without a gap.
  lemma NextStart(lens: seq<nat>, k: nat, a: nat, b: nat)
    requires At(lens, k, a) && At(lens, k + 1, b)
    ensures Start(lens, k + 1, b) == Start(lens, k, a) + Scale(1, MAXBITS - a)
  {
    hide End, Scale;
    AtMono(lens, k, a, k + 1, b);
    var c := CodeAt(lens, k, a);
    ScaleAdd(c, 1, MAXBITS - a);
    if a < b {
      FirstLonger(lens, k, a, b);
      ScaleScale(c + 1, b - a, MAXBITS - b);
    }
  }

  lemma FirstLonger(lens: seq<nat>, k: nat, a: nat, b: nat)
    requires At(lens, k, a) && At(lens, k + 1, b) && a < b
    ensures CodeAt(lens, k + 1, b) == Scale(CodeAt(lens, k, a) + 1, b - a)
  {
    BaseMono(lens, a + 1, b);
    BaseMono(lens, a, b);
    assert Base(lens, b) == k + 1 == Base(lens, a + 1);
    EndAcross(lens, a, b - 1);
    assert End(lens, a) == CodeAt(lens, k, a) + 1;
    hide End;
    ScaleScale(End(lens, a), b - 1 - a, 1);
  }

  // The k-th code's end, in terms of the lengths not longer than l.
  lemma EndStart(lens: seq<nat>, k: nat, l: nat)
    requires At(lens, k, l)
    ensures Scale(End(lens, l), MAXBITS - l)
            == Start(lens, k, l) + Scale(Base(lens, l + 1) - k, MAXBITS - l)
  {
    ScaleAdd(CodeAt(lens, k, l), Base(lens, l + 1) - k, MAXBITS - l);
  }

  // The length of the code at each place.
  ghost predicate Lengths(lens: seq<nat>, ls: seq<nat>) {
    forall k {:trigger ls[k]} :: 0 <= k < |ls| ==> At(lens, k, ls[k])
  }

  lemma {:induction false} StartMono(lens: seq<nat>, ls: seq<nat>, j: nat, k: nat)
    requires Lengths(lens, ls) && j < k < |ls|
    ensures Start(lens, j, ls[j]) + Scale(1, MAXBITS - ls[j]) <= Start(lens, k, ls[k])
    decreases k - j
  {
    if j + 1 == k {
      NextStart(lens, j, ls[j], ls[k]);
    } else {
      StartMono(lens, ls, j, k - 1);
      NextStart(lens, k - 1, ls[k - 1], ls[k]);
    }
  }

  // No code is a prefix of another: a stream starts with at most one.
  lemma PrefixFree(lens: seq<nat>, ls: seq<nat>, j: nat, k: nat, v: nat)
    requires Lengths(lens, ls) && j < |ls| && k < |ls|
    requires Prefix(v, ls[j]) == CodeAt(lens, j, ls[j]) && Prefix(v, ls[k]) == CodeAt(lens, k, ls[k])
    ensures j == k
  {
    hide At, Start, Prefix, Scale;
    InRange(lens, j, ls[j], v);
    InRange(lens, k, ls[k], v);
    if j < k {
      StartMono(lens, ls, j, k);
    } else if k < j {
      StartMono(lens, ls, k, j);
    }
  }
}
