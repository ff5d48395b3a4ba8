/**
 * zlib's inflate_table: two-level decoding tables built from canonical code lengths.  The methods
 * follow the phases of the C function; `table` is filled in place.
 */
module InflateTable {
  import opened Bits
  import opened HuffmanCode

  datatype CodeType = CODES | LENS | DISTS

  // A table entry: op 0 is a literal, 1..15 a link to a sub-table, others as in inftrees.h.
  datatype Code = Code(op: nat, bits: nat, val: nat)

  const ENOUGH_LENS: nat := 852
  const ENOUGH_DISTS: nat := 592

  // ---- counting and sorting the lengths --------------------------------------------------------

  ghost predicate LensOk(lens: seq<nat>) { forall s {:trigger lens[s]} :: 0 <= s < |lens| ==> lens[s] <= MAXBITS }

  lemma CountSnoc(lens: seq<nat>, s: nat, l: nat)
    requires s < |lens|
    ensures CountEq(lens[..s + 1], l) == CountEq(lens[..s], l) + if lens[s] == l then 1 else 0
  {
    assert lens[..s + 1][..s] == lens[..s];
  }

  method CountLengths(lens: seq<nat>) returns (count: array<nat>)
    requires LensOk(lens)
    ensures fresh(count) && count.Length == MAXBITS + 1
    ensures forall l {:trigger count[l]} :: 0 <= l <= MAXBITS ==> count[l] == CountEq(lens, l)
  {
    hide CountEq;
    count := new nat[MAXBITS + 1];
    var len := 0;
    while len <= MAXBITS
      invariant 0 <= len <= MAXBITS + 1
      invariant forall l {:trigger count[l]} :: 0 <= l < len ==> count[l] == 0
    {
      count[len] := 0;
      len := len + 1;
    }
    NoCount(lens);
    var sym: nat := 0;
    while sym < |lens|
      invariant 0 <= sym <= |lens|
      invariant forall l {:trigger count[l]} :: 0 <= l <= MAXBITS ==> count[l] == CountEq(lens[..sym], l)
    {
      forall l ensures CountEq(lens[..sym + 1], l) == CountEq(lens[..sym], l) + if lens[sym] == l then 1 else 0 {
        CountSnoc(lens, sym, l);
      }
      count[lens[sym]] := count[lens[sym]] + 1;
      sym := sym + 1;
    }
    assert lens[..|lens|] == lens;
  }

  lemma NoCount(lens: seq<nat>)
    ensures forall l: nat {:trigger CountEq(lens[..0], l)} :: CountEq(lens[..0], l) == 0
  {
  }

  // The lengths are over-subscribed at l: more codes than bit strings.
  ghost predicate OverAt(lens: seq<nat>, l: nat) { End(lens, l) > Pow2(l) }

  ghost predicate Oversubscribed(lens: seq<nat>) { exists l {:trigger OverAt(lens, l)} :: 1 <= l <= MAXBITS && OverAt(lens, l) }

  // Some bit strings start with no code.
  ghost predicate Incomplete(lens: seq<nat>) { End(lens, MAXBITS) < Pow2(MAXBITS) }

  // The check for an over-subscribed or incomplete set of lengths.
  method CheckLeft(lens: seq<nat>, count: array<nat>) returns (over: bool, left: int)
    requires count.Length == MAXBITS + 1
    requires forall l {:trigger count[l]} :: 0 <= l <= MAXBITS ==> count[l] == CountEq(lens, l)
    ensures over <==> Oversubscribed(lens)
    ensures !over ==> left >= 0 && (left > 0 <==> Incomplete(lens))
  {
    hide CountEq;
    left := 1;
    var len := 1;
    while len <= MAXBITS
      invariant 1 <= len <= MAXBITS + 1 && left == Pow2(len - 1) - End(lens, len - 1) && left >= 0
      invariant forall l {:trigger OverAt(lens, l)} :: 1 <= l < len ==> !OverAt(lens, l)
    {
      left := left * 2;
      left := left - count[len];
      if left < 0 {
        assert OverAt(lens, len);
        return true, left;
      }
      len := len + 1;
    }
    over := false;
  }

  lemma {:induction false} BaseBelow(lens: seq<nat>, l: nat)
    requires LensOk(lens)
    ensures Base(lens, l) + (if l >= 1 then CountAbove(lens, l) else 0) <= |lens|
  {
    if l <= 1 {
      AboveSmall(lens, l);
    } else {
      BaseBelow(lens, l - 1);
      AboveStep(lens, l - 1);
    }
  }

  // The number of symbols with a length of at least l.
  function CountAbove(lens: seq<nat>, l: nat): nat {
    if lens == [] then 0 else CountAbove(lens[..|lens| - 1], l) + if lens[|lens| - 1] >= l then 1 else 0
  }

  lemma {:induction false} AboveSmall(lens: seq<nat>, l: nat)
    ensures CountAbove(lens, l) <= |lens|
  {
    if lens != [] {
      AboveSmall(lens[..|lens| - 1], l);
    }
  }

  lemma {:induction false} AboveStep(lens: seq<nat>, l: nat)
    ensures CountAbove(lens, l) == CountEq(lens, l) + CountAbove(lens, l + 1)
  {
    if lens != [] {
      AboveStep(lens[..|lens| - 1], l);
    }
  }

  lemma {:induction false} CountPrefix(lens: seq<nat>, s: nat, l: nat)
    requires s <= |lens|
    ensures CountEq(lens[..s], l) <= CountEq(lens, l)
    ensures s < |lens| && lens[s] == l ==> CountEq(lens[..s], l) < CountEq(lens, l)
    decreases |lens| - s
  {
    if s < |lens| {
      CountSnoc(lens, s, l);
      CountPrefix(lens, s + 1, l);
    } else {
      assert lens[..s] == lens;
    }
  }

  // Places k of length l that have been given their symbol.
  ghost predicate Placed(lens: seq<nat>, work: seq<nat>, k: nat, l: nat) {
    k < |work| && work[k] < |lens| && lens[work[k]] == l && Place(lens, work[k]) == k
  }

  // All places of symbols below s have been given their symbol.
  ghost predicate SortedBelow(lens: seq<nat>, work: seq<nat>, s: nat)
    requires s <= |lens|
  {
    forall k: nat, l: nat {:trigger Placed(lens, work, k, l)} ::
      1 <= l <= MAXBITS && Base(lens, l) <= k < Base(lens, l) + CountEq(lens[..s], l) ==> Placed(lens, work, k, l)
  }

  ghost predicate Sorted(lens: seq<nat>, work: seq<nat>) {
    forall k: nat, l: nat {:trigger Placed(lens, work, k, l)} :: At(lens, k, l) ==> Placed(lens, work, k, l)
  }

  lemma PlaceInRange(lens: seq<nat>, s: nat)
    requires LensOk(lens) && s < |lens| && lens[s] >= 1
    ensures At(lens, Place(lens, s), lens[s]) && Place(lens, s) < |lens|
  {
    var l := lens[s];
    CountPrefix(lens, s, l);
    BaseBelow(lens, l + 1);
  }

  // Storing symbol s at its place keeps what is there for the symbols before it.
  lemma SortStep(lens: seq<nat>, work: seq<nat>, s: nat)
    requires LensOk(lens) && s < |lens| && |work| >= |lens| && SortedBelow(lens, work, s)
    ensures lens[s] >= 1 ==> Place(lens, s) < |work| && SortedBelow(lens, work[Place(lens, s) := s], s + 1)
    ensures lens[s] == 0 ==> SortedBelow(lens, work, s + 1)
  {
    if lens[s] >= 1 {
      var l0 := lens[s];
      var p := Place(lens, s);
      PlaceInRange(lens, s);
      var work' := work[p := s];
      forall k: nat, l: nat | 1 <= l <= MAXBITS && Base(lens, l) <= k < Base(lens, l) + CountEq(lens[..s + 1], l)
        ensures Placed(lens, work', k, l)
      {
        CountSnoc(lens, s, l);
        CountPrefix(lens, s + 1, l);
        CountPrefix(lens, s, l);
        if k != p {
          assert Placed(lens, work, k, l);
        } else {
          AtUnique(lens, p, l, l0);
        }
      }
    } else {
      forall k: nat, l: nat | 1 <= l <= MAXBITS && Base(lens, l) <= k < Base(lens, l) + CountEq(lens[..s + 1], l)
        ensures Placed(lens, work, k, l)
      {
        CountSnoc(lens, s, l);
      }
    }
  }

  // The symbols sorted by length, then by symbol.
  method SortSymbols(lens: seq<nat>, count: array<nat>) returns (work: array<nat>)
    requires LensOk(lens) && count.Length == MAXBITS + 1
    requires forall l {:trigger count[l]} :: 0 <= l <= MAXBITS ==> count[l] == CountEq(lens, l)
    ensures fresh(work) && work.Length == |lens| && Sorted(lens, work[..])
  {
    hide CountEq, SortedBelow, Sorted;
    work := new nat[|lens|];
    var offs := new nat[MAXBITS + 1];
    offs[1] := 0;
    var len := 1;
    while len < MAXBITS
      invariant 1 <= len <= MAXBITS
      invariant forall l {:trigger offs[l]} :: 1 <= l <= len ==> offs[l] == Base(lens, l)
      invariant forall l {:trigger count[l]} :: 0 <= l <= MAXBITS ==> count[l] == CountEq(lens, l)
    {
      offs[len + 1] := offs[len] + count[len];
      len := len + 1;
    }
    hide Base;
    NoCount(lens);
    SortStart(lens, work[..]);
    var sym: nat := 0;
    while sym < |lens|
      invariant 0 <= sym <= |lens| && work.Length == |lens| && offs.Length == MAXBITS + 1
      invariant forall l {:trigger offs[l]} :: 1 <= l <= MAXBITS ==> offs[l] == Base(lens, l) + CountEq(lens[..sym], l)
      invariant SortedBelow(lens, work[..], sym)
    {
      forall l: nat ensures CountEq(lens[..sym + 1], l) == CountEq(lens[..sym], l) + if lens[sym] == l then 1 else 0 {
        CountSnoc(lens, sym, l);
      }
      SortStep(lens, work[..], sym);
      if lens[sym] != 0 {
        PlaceInRange(lens, sym);
        ghost var before := work[..];
        work[offs[lens[sym]]] := sym;
        assert work[..] == before[Place(lens, sym) := sym];
        offs[lens[sym]] := offs[lens[sym]] + 1;
      }
      sym := sym + 1;
    }
    SortEnd(lens, work[..]);
  }

  lemma SortStart(lens: seq<nat>, work: seq<nat>)
    ensures SortedBelow(lens, work, 0)
  {
  }

  lemma SortEnd(lens: seq<nat>, work: seq<nat>)
    requires SortedBelow(lens, work, |lens|)
    ensures Sorted(lens, work)
  {
    assert lens[..|lens|] == lens;
  }

  // ---- the code being used ---------------------------------------------------------------------

  // huff is the code c of length len, first bit least significant.
  ghost predicate IsHuff(huff: nat, len: nat, c: nat) { huff < Pow2(len) && Prefix(huff, len) == c }

  // Indices that agree with huff in their low len bits are those of the streams that start with c.
  lemma HuffMeans(huff: nat, len: nat, c: nat, v: nat)
    requires IsHuff(huff, len, c)
    ensures Prefix(v, len) == c <==> Low(v, len) == huff
  {
    SamePrefix(v, huff, len);
    SameLow(v, huff, len);
    LowSmall(huff, len);
  }

  lemma {:induction false} NoBitsAbove(huff: nat, len: nat, i: nat)
    requires huff < Pow2(len) && len <= i
    ensures !Bit(huff, i)
  {
    if len == 0 {
      ZeroBits(i);
    } else {
      NoBitsAbove(huff / 2, len - 1, i - 1);
    }
  }

  // A code followed by zeros is the code of the greater length.
  lemma HuffLonger(huff: nat, len: nat, c: nat, len': nat)
    requires IsHuff(huff, len, c) && len <= len'
    ensures IsHuff(huff, len', Scale(c, len' - len))
  {
    Pow2Mono(len, len');
    forall i: nat | len <= i < len + (len' - len) ensures !Bit(huff, i) {
      NoBitsAbove(huff, len, i);
    }
    PrefixZeros(huff, len, len' - len);
  }

  lemma {:induction false} BitIsMask(v: nat, p: nat)
    ensures And(v, Pow2(p)) != 0 <==> Bit(v, p)
    decreases p
  {
    if p == 0 {
      assert And(v / 2, 0) == 0;
    } else if v == 0 {
      ZeroBits(p);
    } else {
      BitIsMask(v / 2, p - 1);
      assert Pow2(p) / 2 == Pow2(p - 1) && Pow2(p) % 2 == 0;
    }
  }

  // huff & (incr - 1), then + incr: the low p bits, and bit p set.
  lemma {:induction false} SetBitAfter(v: nat, p: nat, i: nat)
    ensures Bit(Low(v, p) + Pow2(p), i) == (i == p || (i < p && Bit(v, i)))
    decreases p
  {
    if p == 0 {
      if i > 0 {
        ZeroBits(i - 1);
      }
    } else {
      var x := Low(v, p) + Pow2(p);
      assert x / 2 == Low(v / 2, p - 1) + Pow2(p - 1) && x % 2 == v % 2;
      if i > 0 {
        SetBitAfter(v / 2, p - 1, i - 1);
      }
    }
  }

  // Reading the first bit as the most significant one, the result is the next code.
  lemma NextHuff(huff: nat, len: nat, p: nat)
    requires huff < Pow2(len) && p < len && !Bit(huff, p) && forall i: nat :: p < i < len ==> Bit(huff, i)
    ensures IsHuff(Low(huff, p) + Pow2(p), len, Prefix(huff, len) + 1)
  {
    var h := Low(huff, p) + Pow2(p);
    SetBitFits(huff, p, len);
    hide Low, Pow2, Prefix, Bit;
    forall i: nat ensures Bit(h, i) == (i == p || (i < p && Bit(huff, i))) {
      SetBitAfter(huff, p, i);
    }
    Carried(h, huff, len, p);
  }

  // Clearing the ones after position p and setting p adds one.
  lemma Carried(h: nat, huff: nat, len: nat, p: nat)
    requires p < len && Same(h, huff, p) && Bit(h, p) && !Bit(huff, p)
    requires forall i: nat :: p < i < len ==> Bit(huff, i) && !Bit(h, i)
    ensures Prefix(h, len) == Prefix(huff, len) + 1
  {
    hide Bit, Scale;
    var m := len - 1 - p;
    SamePrefix(h, huff, p);
    assert Prefix(h, p + 1) == 2 * Prefix(h, p) + 1;
    assert Prefix(huff, p + 1) == 2 * Prefix(huff, p);
    hide Prefix, Same;
    PrefixZeros(h, p + 1, m);
    PrefixOnes(huff, p + 1, m);
  }

  lemma SetBitFits(huff: nat, p: nat, len: nat)
    requires p < len
    ensures Low(huff, p) + Pow2(p) < Pow2(len)
  {
    hide Low;
    LowBelow(huff, p);
    Pow2Mono(p + 1, len);
  }

  lemma AllBitsSet(huff: nat, len: nat)
    requires huff < Pow2(len) && forall i: nat :: i < len ==> Bit(huff, i)
    ensures Prefix(huff, len) + 1 == Pow2(len)
  {
    PrefixOnes(huff, 0, len);
    ScaleOne(len);
  }

  // Backwards increment of the len-bit code huff; all ones become zero.
  method BackwardIncrement(huff0: nat, len: nat) returns (huff: nat)
    requires len >= 1 && huff0 < Pow2(len)
    ensures Prefix(huff0, len) + 1 < Pow2(len) ==> IsHuff(huff, len, Prefix(huff0, len) + 1)
    ensures Prefix(huff0, len) + 1 >= Pow2(len) ==> huff == 0
    ensures huff != 0 <==> Prefix(huff0, len) + 1 < Pow2(len)
  {
    hide Prefix, Bit, And, Low;
    var incr := Pow2(len - 1);
    ghost var p: int := len - 1;
    while And(huff0, incr) != 0
      invariant -1 <= p < len && incr == (if p >= 0 then Pow2(p) else 0)
      invariant forall i: nat :: p < i < len ==> Bit(huff0, i)
      decreases p + 1
    {
      MaskNone(huff0);
      BitIsMask(huff0, p);
      incr := incr / 2;
      p := p - 1;
    }
    if incr != 0 {
      BitIsMask(huff0, p);
      LowIsMask(huff0, p);
      NextHuff(huff0, len, p);
      huff := And(huff0, incr - 1);
      huff := huff + incr;
      HuffBelow(huff, len);
    } else {
      AllBitsSet(huff0, len);
      huff := 0;
    }
  }

  lemma MaskNone(v: nat)
    ensures And(v, 0) == 0
  {
  }

  lemma {:induction false} HuffBelow(huff: nat, len: nat)
    requires huff < Pow2(len)
    ensures Prefix(huff, len) < Pow2(len)
  {
    PrefixRange(huff, 0, len);
    ScaleOne(len);
  }

  // ---- replicating an entry --------------------------------------------------------------------

  lemma {:induction false} SplitNum(i: nat, m: nat)
    ensures i == Low(i, m) + Scale(Shr(i, m), m)
    decreases m
  {
    if m > 0 {
      SplitNum(i / 2, m - 1);
    }
  }

  lemma {:induction false} JoinNum(h: nat, q: nat, m: nat)
    requires h < Pow2(m)
    ensures Low(h + Scale(q, m), m) == h && Shr(h + Scale(q, m), m) == q
    decreases m
  {
    if m > 0 {
      assert (h + Scale(q, m)) / 2 == h / 2 + Scale(q, m - 1) && (h + Scale(q, m)) % 2 == h % 2;
      JoinNum(h / 2, q, m - 1);
    }
  }

  lemma {:induction false} ShrBelow(i: nat, m: nat, n: nat)
    requires i < Pow2(m + n)
    ensures Shr(i, m) < Pow2(n)
    decreases m
  {
    if m > 0 {
      ShrBelow(i / 2, m - 1, n);
    }
  }

  // The table with `here` at every index of the (sub-)table at `at`, curr bits wide, whose low m
  // bits are h.
  ghost predicate Replicated(t: seq<Code>, t': seq<Code>, at: nat, curr: nat, m: nat, h: nat, here: Code)
    requires at + Pow2(curr) <= |t| == |t'|
  {
    && (forall i {:trigger t'[i]} :: 0 <= i < |t| && !(at <= i < at + Pow2(curr)) ==> t'[i] == t[i])
    && (forall i: nat {:trigger t'[at + i]} {:trigger Low(i, m)} :: i < Pow2(curr) ==>
          t'[at + i] == if Low(i, m) == h then here else t[at + i])
  }

  method Replicate(table: array<Code>, at: nat, curr: nat, m: nat, h: nat, here: Code)
    requires at + Pow2(curr) <= table.Length && m <= curr && h < Pow2(m)
    modifies table
    ensures Replicated(old(table[..]), table[..], at, curr, m, h, here)
  {
    hide Pow2, Low, Shr, Scale;
    ghost var t := table[..];
    var incr := Pow2(m);
    var fill := Pow2(curr);
    ghost var q := Pow2(curr - m);
    FillStart(curr, m);
    while true
      invariant 0 < q <= Pow2(curr - m) && fill == Scale(q, m) && at + Pow2(curr) <= table.Length == |t|
      invariant forall i {:trigger table[i]} :: 0 <= i < |t| && !(at <= i < at + Pow2(curr)) ==> table[i] == t[i]
      invariant forall i: nat {:trigger Low(i, m)} :: i < Pow2(curr) ==>
                  table[at + i] == if Low(i, m) == h && Shr(i, m) >= q then here else t[at + i]
      decreases q
    {
      ghost var before := table[..];
      FillNext(q, m, curr, h);
      fill := fill - incr;
      q := q - 1;
      table[at + h + fill] := here;
      forall i: nat | i < Pow2(curr)
        ensures table[at + i] == if Low(i, m) == h && Shr(i, m) >= q then here else t[at + i]
      {
        SplitNum(i, m);
        assert before[at + i] == if Low(i, m) == h && Shr(i, m) >= q + 1 then here else t[at + i];
      }
      if fill == 0 {
        break;
      }
      NotZero(q, m);
    }
    FillEnd(q, m);
    forall i: nat | i < Pow2(curr) ensures table[..][at + i] == if Low(i, m) == h then here else t[at + i] {
      assert table[at + i] == if Low(i, m) == h && Shr(i, m) >= q then here else t[at + i];
    }
  }

  lemma FillStart(curr: nat, m: nat)
    requires m <= curr
    ensures Pow2(curr) == Scale(Pow2(curr - m), m) && Pow2(curr - m) > 0
    ensures forall i: nat {:trigger Shr(i, m)} :: i < Pow2(curr) ==> Shr(i, m) < Pow2(curr - m)
  {
    ScaleOne(curr - m);
    ScaleOne(curr);
    ScaleScale(1, curr - m, m);
    forall i: nat | i < Pow2(curr) ensures Shr(i, m) < Pow2(curr - m) {
      ShrBelow(i, m, curr - m);
    }
  }

  lemma FillNext(q: nat, m: nat, curr: nat, h: nat)
    requires m <= curr && 0 < q <= Pow2(curr - m) && h < Pow2(m)
    ensures Scale(q, m) - Pow2(m) == Scale(q - 1, m)
    ensures h + Scale(q - 1, m) < Pow2(curr)
    ensures Low(h + Scale(q - 1, m), m) == h && Shr(h + Scale(q - 1, m), m) == q - 1
  {
    ScaleAdd(q - 1, 1, m);
    ScaleOne(m);
    FillStart(curr, m);
    if q < Pow2(curr - m) {
      ScaleLess(q, Pow2(curr - m), m);
    }
    JoinNum(h, q - 1, m);
  }

  lemma NotZero(q: nat, m: nat)
    requires Scale(q, m) != 0
    ensures q > 0
  {
    ScaleOne(m);
  }

  lemma FillEnd(q: nat, m: nat)
    ensures Scale(q, m) == 0 <==> q == 0
  {
    ScaleOne(m);
    ScaleLess(0, q, m);
  }

  // ---- entries ---------------------------------------------------------------------------------

  // Length codes 257..287 and distance codes 0..31: base values, and op with the extra bits.
  const LBASE: seq<nat> := [3, 4, 5, 6, 7, 8, 9, 10, 11, 13, 15, 17, 19, 23, 27, 31,
                            35, 43, 51, 59, 67, 83, 99, 115, 131, 163, 195, 227, 258, 0, 0]
  const LEXT: seq<nat> := [16, 16, 16, 16, 16, 16, 16, 16, 17, 17, 17, 17, 18, 18, 18, 18,
                           19, 19, 19, 19, 20, 20, 20, 20, 21, 21, 21, 21, 16, 198, 203]
  const DBASE: seq<nat> := [1, 2, 3, 4, 5, 7, 9, 13, 17, 25, 33, 49, 65, 97, 129, 193,
                            257, 385, 513, 769, 1025, 1537, 2049, 3073, 4097, 6145,
                            8193, 12289, 16385, 24577, 0, 0]
  const DEXT: seq<nat> := [16, 16, 16, 16, 17, 17, 18, 18, 19, 19, 20, 20, 21, 21, 22, 22,
                           23, 23, 24, 24, 25, 25, 26, 26, 27, 27, 28, 28, 29, 29, 64, 64]

  // What the arrays above hold entries for.
  function MaxSymbols(kind: CodeType): nat {
    match kind
    case CODES => 19
    case LENS => 288
    case DISTS => 32
  }

  function Match(kind: CodeType): nat {
    match kind
    case CODES => 20
    case LENS => 257
    case DISTS => 0
  }

  predicate IsLink(c: Code) { 1 <= c.op < 16 }

  // The table entry of a symbol.
  function EntryFor(kind: CodeType, sym: nat, bits: nat): (c: Code)
    requires sym < MaxSymbols(kind)
    ensures c.bits == bits && !IsLink(c)
  {
    if sym + 1 < Match(kind) then Code(0, bits, sym)
    else if sym >= Match(kind) then
      if kind == LENS then Code(LEXT[sym - 257], bits, LBASE[sym - 257]) else Code(DEXT[sym], bits, DBASE[sym])
    else Code(32 + 64, bits, 0)
  }

  // ---- what the table must decode --------------------------------------------------------------

  // Looking up stream v: the root entry, or through a link, which takes the root bits, one more entry.  The entry is e but for
  // its bits, and len bits are consumed in all.
  ghost predicate Decodes(t: seq<Code>, root: nat, v: nat, e: Code, len: nat) {
    Low(v, root) < |t| &&
    var here := t[Low(v, root)];
    if IsLink(here) then
      var i := here.val + Low(Shr(v, here.bits), here.op);
      here.bits == root < len && root + here.op <= MAXBITS && i < |t| && t[i] == e.(bits := len - here.bits) && !IsLink(t[i])
    else here == e.(bits := len)
  }

  // Slot i is read for stream v.
  ghost predicate Touches(t: seq<Code>, root: nat, v: nat, i: nat) {
    Low(v, root) < |t| &&
    var here := t[Low(v, root)];
    i == Low(v, root) || (IsLink(here) && i == here.val + Low(Shr(v, here.bits), here.op))
  }

  // ---- how large a table is --------------------------------------------------------------------

  // The code of symbol s is longer than root, and starts with the root bits p.
  predicate Under(lens: seq<nat>, root: nat, s: nat, p: nat) {
    s < |lens| && lens[s] > root
    && Scale(p, lens[s] - root) <= CodeOf(lens, s) < Scale(p + 1, lens[s] - root)
  }

  // The longest such code of the first n symbols, 0 if there is none.
  function LongestUnder(lens: seq<nat>, root: nat, p: nat, n: nat): nat
    requires n <= |lens|
  {
    if n == 0 then 0
    else
      var m := LongestUnder(lens, root, p, n - 1);
      if Under(lens, root, n - 1, p) && lens[n - 1] > m then lens[n - 1] else m
  }

  // Root bits with longer codes need a sub-table indexed by the other bits of the longest.
  function SubSize(lens: seq<nat>, root: nat, p: nat): nat {
    var m := LongestUnder(lens, root, p, |lens|);
    if m > root then Pow2(m - root) else 0
  }

  function SubSizes(lens: seq<nat>, root: nat, n: nat): nat {
    if n == 0 then 0 else SubSizes(lens, root, n - 1) + SubSize(lens, root, n - 1)
  }

  function TableSize(lens: seq<nat>, root: nat): nat { Pow2(root) + SubSizes(lens, root, Pow2(root)) }

  // ---- the state of the filling loop -----------------------------------------------------------

  // What stays fixed: ls lists the code lengths in sorted order.
  datatype Plan = Plan(kind: CodeType, lens: seq<nat>, work: seq<nat>, ls: seq<nat>, root: nat)

  ghost predicate PlanOk(x: Plan) {
    && LensOk(x.lens) && |x.lens| <= MaxSymbols(x.kind) && |x.ls| <= |x.work| && 1 <= x.root <= MAXBITS
    && Lengths(x.lens, x.ls)
    && forall k {:trigger x.work[k]} :: 0 <= k < |x.ls| ==> x.work[k] < |x.lens| && x.lens[x.work[k]] == x.ls[k]
  }

  datatype Link = Link(low: nat, at: nat, curr: nat)

  // Stream v starts with the code at place k.
  ghost predicate Hits(x: Plan, k: nat, v: nat)
    requires Lengths(x.lens, x.ls) && k < |x.ls|
  {
    Prefix(v, x.ls[k]) == CodeAt(x.lens, k, x.ls[k])
  }

  function EntryAt(x: Plan, k: nat, bits: nat): (c: Code)
    requires PlanOk(x) && k < |x.ls|
    ensures c.bits == bits && !IsLink(c)
  {
    EntryFor(x.kind, x.work[k], bits)
  }

  // Sub-tables follow the root table one after the other.
  function Offset(root: nat, links: seq<Link>, i: nat): nat
    requires i <= |links|
  {
    if i == 0 then Pow2(root) else Offset(root, links, i - 1) + Pow2(links[i - 1].curr)
  }

  ghost predicate LinksOk(t: seq<Code>, root: nat, links: seq<Link>, used: nat) {
    && used == Offset(root, links, |links|) && used <= |t|
    && forall i {:trigger links[i]} :: 0 <= i < |links| ==>
         && 1 <= links[i].curr && root + links[i].curr <= MAXBITS && links[i].low < Pow2(root) && links[i].at == Offset(root, links, i)
         && links[i].low < |t| && t[links[i].low] == Code(links[i].curr, root, links[i].at)
  }

  ghost predicate RightIn(x: Plan, t: seq<Code>, links: seq<Link>, k: nat, v: nat, i: nat)
    requires PlanOk(x) && k < |x.ls| && x.ls[k] > x.root
  {
    && i < |links| && links[i].low == Low(v, x.root) && x.ls[k] <= x.root + links[i].curr
    && var s := links[i].at + Low(Shr(v, x.root), links[i].curr);
       s < |t| && t[s] == EntryAt(x, k, x.ls[k] - x.root)
  }

  // Stream v, which starts with the code at place k, finds its entry.
  ghost predicate Right(x: Plan, t: seq<Code>, links: seq<Link>, k: nat, v: nat)
    requires PlanOk(x) && k < |x.ls|
  {
    if x.ls[k] <= x.root then Low(v, x.root) < |t| && t[Low(v, x.root)] == EntryAt(x, k, x.ls[k])
    else exists i: nat {:trigger RightIn(x, t, links, k, v, i)} :: RightIn(x, t, links, k, v, i)
  }

  ghost predicate Filled(x: Plan, t: seq<Code>, links: seq<Link>, n: nat)
    requires PlanOk(x) && n <= |x.ls|
  {
    forall k: nat, v: nat {:trigger Hits(x, k, v)} :: k < n && Hits(x, k, v) ==> Right(x, t, links, k, v)
  }

  lemma {:induction false} OffsetMono(root: nat, links: seq<Link>, i: nat, j: nat)
    requires i <= j <= |links|
    ensures Offset(root, links, i) <= Offset(root, links, j)
    ensures i < j ==> Offset(root, links, i) + Pow2(links[i].curr) <= Offset(root, links, j)
    ensures Pow2(root) <= Offset(root, links, i)
  {
    if i < j {
      OffsetMono(root, links, i, j - 1);
    } else if i > 0 {
      OffsetMono(root, links, 0, i - 1);
    }
  }

  lemma {:induction false} OffsetSnoc(root: nat, links: seq<Link>, l: Link, i: nat)
    requires i <= |links|
    ensures Offset(root, links + [l], i) == Offset(root, links, i)
  {
    if i > 0 {
      OffsetSnoc(root, links, l, i - 1);
    }
  }

  // ---- one symbol ------------------------------------------------------------------------------

  // Entries of other codes are elsewhere: a stream that would read a slot written for place k
  // starts with the code at place k.
  lemma RootSlot(x: Plan, k: nat, huff: nat, v: nat)
    requires PlanOk(x) && k < |x.ls| && x.ls[k] <= x.root && IsHuff(huff, x.ls[k], CodeAt(x.lens, k, x.ls[k]))
    ensures Low(Low(v, x.root), x.ls[k]) == huff <==> Hits(x, k, v)
  {
    var r := Low(v, x.root);
    HuffMeans(huff, x.ls[k], CodeAt(x.lens, k, x.ls[k]), v);
    LowLow(v, x.root, x.ls[k]);
  }

  lemma LowLow(v: nat, a: nat, b: nat)
    requires b <= a
    ensures Low(Low(v, a), b) == Low(v, b)
  {
    forall i: nat | i < b ensures Bit(Low(v, a), i) == Bit(v, i) {
      LowBit(v, a, i);
    }
    SameLow(Low(v, a), v, b);
  }

  lemma WroteRoot(x: Plan, t: seq<Code>, t': seq<Code>, k: nat, huff: nat)
    requires PlanOk(x) && k < |x.ls| && x.ls[k] <= x.root && IsHuff(huff, x.ls[k], CodeAt(x.lens, k, x.ls[k]))
    requires Filled(x, t, [], k) && Pow2(x.root) <= |t| == |t'|
    requires Replicated(t, t', 0, x.root, x.ls[k], huff, EntryAt(x, k, x.ls[k]))
    ensures Filled(x, t', [], k + 1)
  {
    hide EntryAt, IsHuff, CodeAt, At, Prefix, Low;
    forall j: nat, v: nat | j < k + 1 && Hits(x, j, v) ensures Right(x, t', [], j, v) {
      var s := Low(v, x.root);
      LowBelow(v, x.root);
      RootSlot(x, k, huff, v);
      AtMono(x.lens, j, x.ls[j], k, x.ls[k]);
      assert t'[0 + s] == if Low(s, x.ls[k]) == huff then EntryAt(x, k, x.ls[k]) else t[0 + s];
      if j < k {
        OtherCode(x, j, k, v);
        assert Right(x, t, [], j, v);
      }
    }
  }

  lemma OtherCode(x: Plan, j: nat, k: nat, v: nat)
    requires PlanOk(x) && j < |x.ls| && k < |x.ls| && j != k && Hits(x, j, v)
    ensures !Hits(x, k, v)
  {
    if Hits(x, k, v) {
      PrefixFree(x.lens, x.ls, j, k, v);
    }
  }

  // In the current sub-table, at link i.
  lemma SubSlot(x: Plan, k: nat, huff: nat, v: nat, curr: nat)
    requires PlanOk(x) && k < |x.ls| && x.root < x.ls[k] <= x.root + curr
    requires IsHuff(huff, x.ls[k], CodeAt(x.lens, k, x.ls[k]))
    ensures Hits(x, k, v) <==>
      Low(v, x.root) == Low(huff, x.root) && Low(Low(Shr(v, x.root), curr), x.ls[k] - x.root) == Shr(huff, x.root)
    ensures Shr(huff, x.root) < Pow2(x.ls[k] - x.root)
  {
    hide Prefix, Low, Shr, Same, LensOk, Pow2, Base, CountEq;
    var l := x.ls[k];
    var m := l - x.root;
    SamePrefix(v, huff, l);
    SameSplit(v, huff, x.root, m);
    SameLow(v, huff, x.root);
    SameLow(Shr(v, x.root), Shr(huff, x.root), m);
    LowLow(Shr(v, x.root), curr, m);
    ShrBelow(huff, x.root, m);
    LowSmall(Shr(huff, x.root), m);
  }

  lemma WroteSub(x: Plan, t: seq<Code>, t': seq<Code>, links: seq<Link>, used: nat, k: nat, huff: nat)
    requires PlanOk(x) && k < |x.ls| && LinksOk(t, x.root, links, used) && links != [] && |t'| == |t|
    requires var L := links[|links| - 1];
      && x.root < x.ls[k] <= x.root + L.curr && IsHuff(huff, x.ls[k], CodeAt(x.lens, k, x.ls[k])) && L.low == Low(huff, x.root)
      && L.at + Pow2(L.curr) <= |t|
      && Replicated(t, t', L.at, L.curr, x.ls[k] - x.root, Shr(huff, x.root), EntryAt(x, k, x.ls[k] - x.root))
    requires Filled(x, t, links, k)
    ensures Filled(x, t', links, k + 1) && LinksOk(t', x.root, links, used)
  {
    hide EntryAt, IsHuff, CodeAt, At, Prefix, Low, Shr, Pow2;
    var n := |links| - 1;
    OffsetMono(x.root, links, n, n);
    forall j: nat, v: nat | j < k + 1 && Hits(x, j, v) ensures Right(x, t', links, j, v) {
      if j < k {
        OtherCode(x, j, k, v);
        KeptEntry(x, t, t', links, used, j, k, huff, v);
      } else {
        NewEntry(x, t, t', links, k, huff, v);
      }
    }
  }

  lemma NewEntry(x: Plan, t: seq<Code>, t': seq<Code>, links: seq<Link>, k: nat, huff: nat, v: nat)
    requires PlanOk(x) && k < |x.ls| && links != [] && |t'| == |t| && Hits(x, k, v)
    requires var L := links[|links| - 1];
      && x.root < x.ls[k] <= x.root + L.curr && IsHuff(huff, x.ls[k], CodeAt(x.lens, k, x.ls[k])) && L.low == Low(huff, x.root)
      && L.at + Pow2(L.curr) <= |t|
      && Replicated(t, t', L.at, L.curr, x.ls[k] - x.root, Shr(huff, x.root), EntryAt(x, k, x.ls[k] - x.root))
    ensures Right(x, t', links, k, v)
  {
    hide EntryAt, IsHuff, CodeAt, At, Prefix, Low, Shr, Pow2;
    var n := |links| - 1;
    var s := Low(Shr(v, x.root), links[n].curr);
    LowBelow(Shr(v, x.root), links[n].curr);
    SubSlot(x, k, huff, v, links[n].curr);
    assert t'[links[n].at + s] == EntryAt(x, k, x.ls[k] - x.root);
    assert RightIn(x, t', links, k, v, n);
  }

  lemma KeptEntry(x: Plan, t: seq<Code>, t': seq<Code>, links: seq<Link>, used: nat, j: nat, k: nat, huff: nat, v: nat)
    requires PlanOk(x) && j < k < |x.ls| && LinksOk(t, x.root, links, used) && links != [] && |t'| == |t|
    requires Hits(x, j, v) && !Hits(x, k, v) && Right(x, t, links, j, v)
    requires var L := links[|links| - 1];
      && x.root < x.ls[k] <= x.root + L.curr && IsHuff(huff, x.ls[k], CodeAt(x.lens, k, x.ls[k])) && L.low == Low(huff, x.root)
      && L.at + Pow2(L.curr) <= |t|
      && Replicated(t, t', L.at, L.curr, x.ls[k] - x.root, Shr(huff, x.root), EntryAt(x, k, x.ls[k] - x.root))
    ensures Right(x, t', links, j, v)
  {
    hide EntryAt, IsHuff, CodeAt, Lengths, LensOk, LinksOk, Prefix, Low, Shr, Pow2, Hits;
    var n := |links| - 1;
    LinkBelow(t, x.root, links, used, n);
    LowBelow(v, x.root);
    if x.ls[j] > x.root {
      var i: nat :| RightIn(x, t, links, j, v, i);
      LinkBelow(t, x.root, links, used, i);
      var s := Low(Shr(v, x.root), links[i].curr);
      LowBelow(Shr(v, x.root), links[i].curr);
      if i == n {
        SubSlot(x, k, huff, v, links[n].curr);
        assert t'[links[n].at + s] == t[links[n].at + s];
      } else {
        assert t'[links[i].at + s] == t[links[i].at + s];
      }
      assert RightIn(x, t', links, j, v, i);
    } else {
      assert t'[Low(v, x.root)] == t[Low(v, x.root)];
    }
  }

  // Sub-tables lie behind the root table, and before the current one.
  lemma LinkBelow(t: seq<Code>, root: nat, links: seq<Link>, used: nat, i: nat)
    requires LinksOk(t, root, links, used) && i < |links|
    ensures Pow2(root) <= links[i].at && links[i].at + Pow2(links[i].curr) <= used <= |t|
    ensures i < |links| - 1 ==> links[i].at + Pow2(links[i].curr) <= links[|links| - 1].at
    ensures links[i].low < Pow2(root)
  {
    hide Offset, Pow2;
    OffsetMono(root, links, i, |links|);
    OffsetMono(root, links, 0, i);
    if i < |links| - 1 {
      OffsetMono(root, links, i, |links| - 1);
    }
  }

  // ---- a new sub-table -------------------------------------------------------------------------

  // The streams of every linked root entry begin before s.
  ghost predicate LinksBefore(x: Plan, links: seq<Link>, s: nat)
    requires x.root <= MAXBITS
  {
    forall i {:trigger links[i]} :: 0 <= i < |links| ==> Scale(Prefix(links[i].low, x.root), MAXBITS - x.root) < s
  }

  lemma LinkAppended(x: Plan, t: seq<Code>, links: seq<Link>, used: nat, huff: nat, curr: nat)
    requires 1 <= x.root <= MAXBITS && LinksOk(t, x.root, links, used) && 1 <= curr && x.root + curr <= MAXBITS
    requires used + Pow2(curr) <= |t| && Low(huff, x.root) < |t|
    requires LinksBefore(x, links, Scale(Prefix(huff, x.root), MAXBITS - x.root))
    ensures var t' := t[Low(huff, x.root) := Code(curr, x.root, used)];
            var links' := links + [Link(Low(huff, x.root), used, curr)];
            LinksOk(t', x.root, links', used + Pow2(curr))
  {
    hide Prefix, Low, Scale, Pow2, Offset, LinksBefore;
    var low := Low(huff, x.root);
    var l := Link(low, used, curr);
    var links' := links + [l];
    LowBelow(huff, x.root);
    LinkOffsets(x.root, links, l);
    forall i | 0 <= i < |links| ensures links'[i] == links[i] && links[i].low != low {
      LowDiffers(x, links, huff, i);
    }
  }

  lemma LinkOffsets(root: nat, links: seq<Link>, l: Link)
    ensures Offset(root, links + [l], |links| + 1) == Offset(root, links, |links|) + Pow2(l.curr)
    ensures forall i: nat {:trigger Offset(root, links + [l], i)} :: i <= |links| ==>
              Offset(root, links + [l], i) == Offset(root, links, i)
  {
    forall i: nat | i <= |links| ensures Offset(root, links + [l], i) == Offset(root, links, i) {
      OffsetSnoc(root, links, l, i);
    }
    assert (links + [l])[|links|] == l;
  }

  lemma LowDiffers(x: Plan, links: seq<Link>, huff: nat, i: nat)
    requires x.root <= MAXBITS && i < |links|
    requires LinksBefore(x, links, Scale(Prefix(huff, x.root), MAXBITS - x.root))
    ensures links[i].low != Low(huff, x.root)
  {
    hide Prefix, Low, Scale;
    var low := Low(huff, x.root);
    LowLow(huff, x.root, x.root);
    SamePrefix(low, huff, x.root);
    SameLow(low, huff, x.root);
  }

  // No code before place k reads the root entry of place k, once that entry's streams begin at k.
  lemma NewLink(x: Plan, t: seq<Code>, links: seq<Link>, used: nat, k: nat, huff: nat, curr: nat)
    requires PlanOk(x) && 0 < k < |x.ls| && LinksOk(t, x.root, links, used) && Filled(x, t, links, k)
    requires x.ls[k] > x.root && IsHuff(huff, x.ls[k], CodeAt(x.lens, k, x.ls[k])) && 1 <= curr && x.root + curr <= MAXBITS
    requires used + Pow2(curr) <= |t|
    requires Start(x.lens, k, x.ls[k]) == Scale(Prefix(huff, x.root), MAXBITS - x.root)
    requires LinksBefore(x, links, Start(x.lens, k, x.ls[k]))
    ensures Low(huff, x.root) < |t|
    ensures var t' := t[Low(huff, x.root) := Code(curr, x.root, used)];
            var links' := links + [Link(Low(huff, x.root), used, curr)];
            LinksOk(t', x.root, links', used + Pow2(curr)) && Filled(x, t', links', k)
  {
    hide EntryAt, IsHuff, CodeAt, Lengths, LensOk, LinksOk, LinksBefore, Prefix, Low, Shr, Pow2, Start, Scale;
    var low := Low(huff, x.root);
    LowBelow(huff, x.root);
    UsedRoot(t, x.root, links, used);
    var t' := t[low := Code(curr, x.root, used)];
    var links' := links + [Link(low, used, curr)];
    LinkAppended(x, t, links, used, huff, curr);
    forall j: nat, v: nat | j < k && Hits(x, j, v) ensures Right(x, t', links', j, v) {
      BeforeSlot(x, j, k, huff, v);
      LowBelow(v, x.root);
      assert Right(x, t, links, j, v);
      if x.ls[j] > x.root {
        var i: nat :| RightIn(x, t, links, j, v, i);
        LinkBelow(t, x.root, links, used, i);
        assert links'[i] == links[i];
        assert RightIn(x, t', links', j, v, i);
      }
    }
  }

  lemma UsedRoot(t: seq<Code>, root: nat, links: seq<Link>, used: nat)
    requires LinksOk(t, root, links, used)
    ensures Pow2(root) <= used <= |t|
  {
    OffsetMono(root, links, 0, |links|);
  }

  // An earlier code lies before the streams of the new root entry.
  lemma BeforeSlot(x: Plan, j: nat, k: nat, huff: nat, v: nat)
    requires PlanOk(x) && j < k < |x.ls| && Hits(x, j, v)
    requires Start(x.lens, k, x.ls[k]) == Scale(Prefix(huff, x.root), MAXBITS - x.root)
    ensures Low(v, x.root) != Low(huff, x.root)
  {
    hide Start, Scale, At, CodeAt, Low, Prefix;
    InRange(x.lens, j, x.ls[j], v);
    StartMono(x.lens, x.ls, j, k);
    PrefixRange(v, x.root, MAXBITS - x.root);
    ScaleLess(Prefix(v, x.root), Prefix(huff, x.root), MAXBITS - x.root);
    SamePrefix(v, huff, x.root);
    SameLow(v, huff, x.root);
  }

  // What the code of a place says about the streams of its root entry.
  lemma CodeSpan(x: Plan, k: nat, huff: nat)
    requires PlanOk(x) && k < |x.ls| && IsHuff(huff, x.ls[k], CodeAt(x.lens, k, x.ls[k]))
    ensures var p, s := Prefix(huff, x.root), Start(x.lens, k, x.ls[k]);
      && Scale(p, MAXBITS - x.root) <= s < Scale(p + 1, MAXBITS - x.root)
      && (x.ls[k] > x.root ==> s + Scale(1, MAXBITS - x.ls[k]) <= Scale(p + 1, MAXBITS - x.root))
      && (x.ls[k] <= x.root ==>
            s + Scale(1, MAXBITS - x.ls[k])
            == Scale(Scale(CodeAt(x.lens, k, x.ls[k]) + 1, x.root - x.ls[k]), MAXBITS - x.root))
  {
    hide Prefix, Scale, CodeAt, Pow2, CountEq, Base;
    var l := x.ls[k];
    var c := CodeAt(x.lens, k, l);
    HuffLonger(huff, l, c, MAXBITS);
    PrefixRange(huff, x.root, MAXBITS - x.root);
    ScaleAdd(c, 1, MAXBITS - l);
    if l > x.root {
      var p := Prefix(huff, x.root);
      PrefixRange(huff, x.root, l - x.root);
      ScaleScale(p + 1, l - x.root, MAXBITS - l);
      ScaleLess(Scale(p + 1, l - x.root), c + 1, MAXBITS - l);
    } else {
      ScaleScale(c + 1, x.root - l, MAXBITS - x.root);
    }
  }

  // Where a new sub-table is started, its root entry's streams begin with the code.
  lemma Boundary(x: Plan, k: nat, huff: nat, huff': nat)
    requires PlanOk(x) && k + 1 < |x.ls| && x.ls[k + 1] > x.root
    requires IsHuff(huff, x.ls[k], CodeAt(x.lens, k, x.ls[k]))
    requires IsHuff(huff', x.ls[k + 1], CodeAt(x.lens, k + 1, x.ls[k + 1]))
    requires x.ls[k] > x.root ==> Low(huff', x.root) != Low(huff, x.root)
    ensures Start(x.lens, k + 1, x.ls[k + 1]) == Scale(Prefix(huff', x.root), MAXBITS - x.root)
  {
    hide Prefix, Scale, At, CodeAt, Start, Low, IsHuff;
    var m := MAXBITS - x.root;
    var p, p' := Prefix(huff, x.root), Prefix(huff', x.root);
    CodeSpan(x, k, huff);
    CodeSpan(x, k + 1, huff');
    NextStart(x.lens, k, x.ls[k], x.ls[k + 1]);
    SamePrefix(huff', huff, x.root);
    SameLow(huff', huff, x.root);
    if x.ls[k] > x.root {
      ScaleLess(p, p' + 1, m);
      ScaleLess(p' , p + 1, m);
    } else {
      var q := Scale(CodeAt(x.lens, k, x.ls[k]) + 1, x.root - x.ls[k]);
      ScaleLess(q, p' + 1, m);
      ScaleLess(p', q + 1, m);
      ScaleLess(q, p', m);
    }
  }

  // All codes of the streams of root prefix p that are still to come have at most d bits.
  ghost predicate Covers(lens: seq<nat>, root: nat, p: nat, d: nat, max: nat)
    requires root <= MAXBITS
  {
    d >= max || (d <= MAXBITS && Scale(End(lens, d), MAXBITS - d) >= Scale(p + 1, MAXBITS - root))
  }

  lemma {:induction false} EndBefore(lens: seq<nat>, k: nat, l: nat, d: nat)
    requires At(lens, k, l) && d < l
    ensures Scale(End(lens, d), MAXBITS - d) <= Start(lens, k, l)
    decreases l - d
  {
    hide Base;
    if d + 1 == l {
      ScaleScale(End(lens, d), 1, MAXBITS - l);
      assert Scale(End(lens, d), 1) == 2 * End(lens, d);
      ScaleAdd(2 * End(lens, d), CodeAt(lens, k, l) - 2 * End(lens, d), MAXBITS - l);
    } else {
      EndBefore(lens, k, l, d + 1);
      assert Scale(End(lens, d), 1) == 2 * End(lens, d);
      ScaleScale(End(lens, d), 1, MAXBITS - d - 1);
      ScaleAdd(2 * End(lens, d), CountEq(lens, d + 1), MAXBITS - d - 1);
    }
  }

  // A code in the current sub-table fits it.
  lemma Fits(x: Plan, k: nat, huff: nat, d: nat, max: nat)
    requires PlanOk(x) && k < |x.ls| && IsHuff(huff, x.ls[k], CodeAt(x.lens, k, x.ls[k])) && x.ls[k] <= max
    requires Covers(x.lens, x.root, Prefix(huff, x.root), d, max)
    ensures x.ls[k] <= d
  {
    hide Prefix, Scale, At, CodeAt, Start, IsHuff, End;
    CodeSpan(x, k, huff);
    if d < x.ls[k] {
      EndBefore(x.lens, k, x.ls[k], d);
    }
  }

  // The length counts that are left when place k is next.
  ghost predicate Remaining(x: Plan, count: seq<nat>, k: nat)
    requires k < |x.ls|
  {
    |count| == MAXBITS + 1 &&
    forall l {:trigger count[l]} :: x.ls[k] <= l <= MAXBITS ==>
      count[l] == if l == x.ls[k] then Base(x.lens, l + 1) - k else CountEq(x.lens, l)
  }

  // How many index bits the sub-table for place k needs.
  method SubTableBits(ghost x: Plan, count: array<nat>, ghost k: nat, ghost huff: nat, len: nat, root: nat, max: nat) returns (curr: nat)
    requires PlanOk(x) && k < |x.ls| && Remaining(x, count[..], k) && len == x.ls[k] && root == x.root
    requires root < len <= max <= MAXBITS
    requires Start(x.lens, k, len) == Scale(Prefix(huff, root), MAXBITS - root)
    ensures 1 <= curr && len <= root + curr <= max && Covers(x.lens, root, Prefix(huff, root), root + curr, max)
    ensures root + curr == len || !Covers(x.lens, root, Prefix(huff, root), root + curr - 1, max)
  {
    hide Prefix, Scale, At, CodeAt, Start, End, Base, CountEq, Pow2;
    ghost var s := Start(x.lens, k, len);
    ghost var end := Scale(Prefix(huff, root) + 1, MAXBITS - root);
    curr := len - root;
    var left: int := Pow2(curr);
    ghost var a := s;
    FirstLeft(Prefix(huff, root), root, len);
    while curr + root < max
      invariant len - root <= curr && curr + root <= max && left > 0
      invariant a + Scale(left, MAXBITS - (curr + root)) == end
      invariant a == if curr + root == len then s else Scale(End(x.lens, curr + root - 1), MAXBITS - (curr + root - 1))
      invariant root + curr == len || !Covers(x.lens, root, Prefix(huff, root), root + curr - 1, max)
      decreases max - curr
    {
      var d := curr + root;
      EndOf(x, k, d);
      assert count[..][d] == count[d];
      ghost var before := left;
      left := left - count[d];
      if left <= 0 {
        LeftGone(before, count[d], d);
        break;
      }
      LeftMore(left, count[d], d);
      a := a + Scale(count[d], MAXBITS - d);
      LeftSome(left, d);
      curr := curr + 1;
      left := left * 2;
    }
  }

  lemma FirstLeft(p: nat, root: nat, len: nat)
    requires root < len <= MAXBITS
    ensures Scale(p, MAXBITS - root) + Scale(Pow2(len - root), MAXBITS - len) == Scale(p + 1, MAXBITS - root)
    ensures Pow2(len - root) > 0
  {
    ScaleOne(len - root);
    ScaleScale(1, len - root, MAXBITS - len);
    ScaleAdd(p, 1, MAXBITS - root);
  }

  // The codes of length d end where the shorter ones end, plus their own.
  lemma EndOf(x: Plan, k: nat, d: nat)
    requires PlanOk(x) && k < |x.ls| && x.ls[k] <= d <= MAXBITS
    ensures d == x.ls[k] ==> Base(x.lens, d + 1) >= k
    ensures Scale(End(x.lens, d), MAXBITS - d)
            == if d == x.ls[k] then Start(x.lens, k, d) + Scale(Base(x.lens, d + 1) - k, MAXBITS - d)
               else Scale(End(x.lens, d - 1), MAXBITS - (d - 1)) + Scale(CountEq(x.lens, d), MAXBITS - d)
  {
    if d == x.ls[k] {
      EndStart(x.lens, k, d);
    } else {
      hide Start, CodeAt, At, Base, CountEq;
      assert Scale(End(x.lens, d - 1), 1) == 2 * End(x.lens, d - 1);
      ScaleScale(End(x.lens, d - 1), 1, MAXBITS - d);
      ScaleAdd(2 * End(x.lens, d - 1), CountEq(x.lens, d), MAXBITS - d);
    }
  }

  lemma LeftGone(left: nat, count: nat, d: nat)
    requires left <= count && d <= MAXBITS
    ensures Scale(left, MAXBITS - d) <= Scale(count, MAXBITS - d)
  {
    ScaleLess(count, left, MAXBITS - d);
  }

  lemma LeftSome(left: nat, d: nat)
    requires left > 0 && d < MAXBITS
    ensures Scale(2 * left, MAXBITS - (d + 1)) > 0
  {
    ScaleLess(0, 2 * left, MAXBITS - (d + 1));
    ScaleOne(MAXBITS - (d + 1));
  }

  lemma LeftMore(left: nat, count: nat, d: nat)
    requires d < MAXBITS
    ensures Scale(left + count, MAXBITS - d) == Scale(2 * left, MAXBITS - (d + 1)) + Scale(count, MAXBITS - d)
  {
    ScaleAdd(left, count, MAXBITS - d);
    assert Scale(left, 1) == 2 * left;
    ScaleScale(left, 1, MAXBITS - d - 1);
  }

  // ---- filling the tables ----------------------------------------------------------------------

  // How many entries the caller's table has to offer.
  ghost predicate RoomFor(kind: CodeType, length: nat, root: nat, max: nat) {
    match kind
    case CODES => max <= root && Pow2(root) <= length
    case LENS => ENOUGH_LENS <= length
    case DISTS => ENOUGH_DISTS <= length
  }

  predicate TooMany(kind: CodeType, used: nat) {
    (kind == LENS && used > ENOUGH_LENS) || (kind == DISTS && used > ENOUGH_DISTS)
  }

  // The inputs of the filling loop.
  ghost predicate Ready(x: Plan, max: nat) {
    && PlanOk(x) && |x.ls| > 0 && |x.ls| == Base(x.lens, MAXBITS + 1)
    && x.ls[0] <= x.root <= max && x.ls[|x.ls| - 1] == max
    && !Oversubscribed(x.lens) && (Incomplete(x.lens) ==> max == 1)
  }

  // Where place k is to be entered: in the root table, or in the sub-table started last.
  ghost predicate Window(x: Plan, links: seq<Link>, max: nat, k: nat, huff: nat, next: nat, curr: nat, drop: nat, low: int)
    requires k < |x.ls| && x.root <= MAXBITS
  {
    if drop == 0 then links == [] && next == 0 && curr == x.root && x.ls[k] <= x.root && low == -1
    else
      && drop == x.root && links != [] && low == Low(huff, x.root) && links[|links| - 1] == Link(Low(huff, x.root), next, curr)
      && x.root < x.ls[k] <= x.root + curr && Covers(x.lens, x.root, Prefix(huff, x.root), x.root + curr, max)
  }

  ghost predicate Code1(x: Plan, k: nat, huff: nat)
    requires PlanOk(x) && k < |x.ls|
  {
    IsHuff(huff, x.ls[k], CodeAt(x.lens, k, x.ls[k]))
  }

  // ---- the sub-tables are as large as the codes need them --------------------------------------

  lemma SymbolAt(x: Plan, max: nat, s: nat) returns (j: nat)
    requires Ready(x, max) && s < |x.lens| && x.lens[s] >= 1
    ensures j < |x.ls| && x.ls[j] == x.lens[s] <= max && CodeAt(x.lens, j, x.ls[j]) == CodeOf(x.lens, s)
  {
    hide Base, CountEq;
    j := Place(x.lens, s);
    PlaceInRange(x.lens, s);
    BaseMono(x.lens, x.lens[s], MAXBITS + 1);
    AtUnique(x.lens, j, x.lens[s], x.ls[j]);
    AtMono(x.lens, j, x.ls[j], |x.ls| - 1, max);
  }

  lemma {:induction false} FindSymbol(lens: seq<nat>, n: nat, l: nat, c: nat) returns (s: nat)
    requires n <= |lens| && c < CountEq(lens[..n], l)
    ensures s < |lens| && lens[s] == l && CountEq(lens[..s], l) == c
  {
    assert n > 0;
    CountSnoc(lens, n - 1, l);
    if lens[n - 1] == l && CountEq(lens[..n - 1], l) == c {
      s := n - 1;
    } else {
      s := FindSymbol(lens, n - 1, l, c);
    }
  }

  // The symbol at a place.
  lemma SymbolOf(x: Plan, j: nat) returns (s: nat)
    requires PlanOk(x) && j < |x.ls|
    ensures s < |x.lens| && x.lens[s] == x.ls[j] && CodeAt(x.lens, j, x.ls[j]) == CodeOf(x.lens, s)
  {
    hide CountEq, Base;
    assert x.lens[..|x.lens|] == x.lens;
    s := FindSymbol(x.lens, |x.lens|, x.ls[j], j - Base(x.lens, x.ls[j]));
  }

  lemma UnderIs(x: Plan, s: nat, j: nat, p: nat)
    requires PlanOk(x) && j < |x.ls| && s < |x.lens| && x.lens[s] == x.ls[j] > x.root
    requires CodeAt(x.lens, j, x.ls[j]) == CodeOf(x.lens, s)
    ensures Under(x.lens, x.root, s, p) <==>
            Scale(p, MAXBITS - x.root) <= Start(x.lens, j, x.ls[j]) < Scale(p + 1, MAXBITS - x.root)
  {
    hide Scale, CodeOf, At, CodeAt;
    var l, c := x.lens[s], CodeOf(x.lens, s);
    ScaleScale(p, l - x.root, MAXBITS - l);
    ScaleScale(p + 1, l - x.root, MAXBITS - l);
    ScaleLess(c, Scale(p, l - x.root), MAXBITS - l);
    ScaleLess(c, Scale(p + 1, l - x.root), MAXBITS - l);
  }

  lemma {:induction false} LongestEq(lens: seq<nat>, root: nat, p: nat, n: nat, w: nat)
    requires n <= |lens| && w < |lens| && Under(lens, root, w, p)
    requires forall s: nat {:trigger Under(lens, root, s, p)} :: Under(lens, root, s, p) ==> lens[s] <= lens[w]
    ensures LongestUnder(lens, root, p, n) <= lens[w]
    ensures w < n ==> LongestUnder(lens, root, p, n) == lens[w]
  {
    hide Under;
    if n > 0 {
      LongestEq(lens, root, p, n - 1, w);
    }
  }

  lemma {:induction false} LongestNone(lens: seq<nat>, root: nat, p: nat, n: nat)
    requires n <= |lens| && forall s: nat {:trigger Under(lens, root, s, p)} :: !Under(lens, root, s, p)
    ensures LongestUnder(lens, root, p, n) == 0
  {
    hide Under;
    if n > 0 {
      LongestNone(lens, root, p, n - 1);
    }
  }

  // Where the codes of length d and more begin.
  lemma FirstOf(x: Plan, max: nat, d: nat) returns (j: nat)
    requires Ready(x, max) && 2 <= d <= max <= MAXBITS
    ensures j < |x.ls| && x.ls[j] >= d && Start(x.lens, j, x.ls[j]) == Scale(End(x.lens, d - 1), MAXBITS - (d - 1))
  {
    hide Base, CountEq, Scale, End;
    j := Base(x.lens, d);
    BaseMono(x.lens, d, max);
    assert At(x.lens, |x.ls| - 1, max);
    var l := x.ls[j];
    assert At(x.lens, j, l);
    if l < d {
      BaseMono(x.lens, l, d);
    }
    BaseMono(x.lens, d, l);
    EndAcross(x.lens, d - 1, l - 1);
    assert Scale(End(x.lens, l - 1), 1) == 2 * End(x.lens, l - 1) by { ScaleTwice(End(x.lens, l - 1)); }
    ScaleScale(End(x.lens, d - 1), l - d, 1);
    ScaleScale(End(x.lens, d - 1), l - d + 1, MAXBITS - l);
  }

  lemma ScaleTwice(e: nat)
    ensures Scale(e, 1) == 2 * e
  {
  }

  // The width chosen is that of the longest code with the root bits.
  lemma WidthIs(x: Plan, max: nat, k: nat, p: nat, d: nat)
    requires Ready(x, max) && k < |x.ls| && x.root < x.ls[k] <= d <= max <= MAXBITS
    requires Start(x.lens, k, x.ls[k]) == Scale(p, MAXBITS - x.root) && Covers(x.lens, x.root, p, d, max)
    requires d == x.ls[k] || !Covers(x.lens, x.root, p, d - 1, max)
    ensures SubSize(x.lens, x.root, p) == Pow2(d - x.root)
  {
    hide Base, CountEq, Scale, End, Start, Under, At, CodeAt, CodeOf, Pow2, LongestUnder;
    forall s: nat {:trigger Under(x.lens, x.root, s, p)} | Under(x.lens, x.root, s, p)
      ensures s < |x.lens| && x.lens[s] <= d
    {
      NoLonger(x, max, p, d, s);
    }
    var w := SomeThatLong(x, max, k, p, d);
    LongestEq(x.lens, x.root, p, |x.lens|, w);
  }

  lemma NoLonger(x: Plan, max: nat, p: nat, d: nat, s: nat)
    requires Ready(x, max) && x.root < d <= max <= MAXBITS && Covers(x.lens, x.root, p, d, max)
    requires Under(x.lens, x.root, s, p)
    ensures s < |x.lens| && x.lens[s] <= d
  {
    hide Base, CountEq, Scale, End, CodeAt, CodeOf;
    var j := SymbolAt(x, max, s);
    UnderIs(x, s, j, p);
    if x.lens[s] > d {
      EndBefore(x.lens, j, x.ls[j], d);
    }
  }

  lemma SomeThatLong(x: Plan, max: nat, k: nat, p: nat, d: nat) returns (w: nat)
    requires Ready(x, max) && k < |x.ls| && x.root < x.ls[k] <= d <= max <= MAXBITS
    requires Start(x.lens, k, x.ls[k]) == Scale(p, MAXBITS - x.root) && Covers(x.lens, x.root, p, d, max)
    requires d == x.ls[k] || !Covers(x.lens, x.root, p, d - 1, max)
    ensures w < |x.lens| && Under(x.lens, x.root, w, p) && x.lens[w] == d
  {
    hide Base, CountEq, Scale, End, Start, Under, CodeAt, CodeOf, Pow2;
    ScaleLess(p, p + 1, MAXBITS - x.root);
    var j := k;
    if d > x.ls[k] {
      j := FirstOf(x, max, d);
      if j <= k {
        AtMono(x.lens, j, x.ls[j], k, x.ls[k]);
      }
      StartMono(x.lens, x.ls, k, j);
    }
    w := SymbolOf(x, j);
    UnderIs(x, w, j, p);
    NoLonger(x, max, p, d, w);
  }

  // Root bits between those of a place and those of the next have no longer codes.
  lemma NoneUnder(x: Plan, max: nat, k: nat, p: nat)
    requires Ready(x, max) && k < |x.ls|
    requires x.ls[k] <= x.root || Start(x.lens, k, x.ls[k]) < Scale(p, MAXBITS - x.root)
    requires k + 1 < |x.ls| ==> Start(x.lens, k + 1, x.ls[k + 1]) >= Scale(p + 1, MAXBITS - x.root)
    ensures SubSize(x.lens, x.root, p) == 0
  {
    hide Base, CountEq, Scale, Start, Under, CodeAt, CodeOf, LongestUnder;
    forall s: nat {:trigger Under(x.lens, x.root, s, p)} ensures !Under(x.lens, x.root, s, p) {
      if Under(x.lens, x.root, s, p) {
        NotUnder(x, max, k, p, s);
      }
    }
    LongestNone(x.lens, x.root, p, |x.lens|);
  }

  lemma NotUnder(x: Plan, max: nat, k: nat, p: nat, s: nat)
    requires Ready(x, max) && k < |x.ls|
    requires x.ls[k] <= x.root || Start(x.lens, k, x.ls[k]) < Scale(p, MAXBITS - x.root)
    requires k + 1 < |x.ls| ==> Start(x.lens, k + 1, x.ls[k + 1]) >= Scale(p + 1, MAXBITS - x.root)
    ensures !Under(x.lens, x.root, s, p)
  {
    hide Base, CountEq, Scale, Start, CodeAt, CodeOf;
    if s < |x.lens| && x.lens[s] > x.root {
      var j := SymbolAt(x, max, s);
      UnderIs(x, s, j, p);
      if j <= k {
        AtMono(x.lens, j, x.ls[j], k, x.ls[k]);
        if j < k {
          StartMono(x.lens, x.ls, j, k);
        }
      } else if k + 1 < j {
        StartMono(x.lens, x.ls, k + 1, j);
      }
    }
  }

  lemma {:induction false} SumsSame(lens: seq<nat>, root: nat, a: nat, b: nat)
    requires a <= b && forall p: nat {:trigger SubSize(lens, root, p)} :: a <= p < b ==> SubSize(lens, root, p) == 0
    ensures SubSizes(lens, root, b) == SubSizes(lens, root, a)
  {
    hide SubSize;
    if a < b {
      SumsSame(lens, root, a, b - 1);
    }
  }

  lemma {:induction false} SumsGrow(lens: seq<nat>, root: nat, a: nat, b: nat)
    requires a <= b
    ensures SubSizes(lens, root, a) <= SubSizes(lens, root, b)
  {
    hide SubSize;
    if a < b {
      SumsGrow(lens, root, a, b - 1);
    }
  }

  // The entries used so far: the root table, and the sub-tables up to the one for the code at place k.
  ghost predicate UsedIs(x: Plan, used: nat, k: nat, huff: nat)
    requires k < |x.ls|
  {
    used == Pow2(x.root) + if x.ls[k] > x.root then SubSizes(x.lens, x.root, Prefix(huff, x.root) + 1) else 0
  }

  lemma UsedNew(x: Plan, max: nat, k: nat, huff: nat, huff': nat, used: nat, curr: nat)
    requires Ready(x, max) && k + 1 < |x.ls| && Code1(x, k, huff) && Code1(x, k + 1, huff') && UsedIs(x, used, k, huff)
    requires x.root < x.ls[k + 1] <= x.root + curr <= max <= MAXBITS
    requires Start(x.lens, k + 1, x.ls[k + 1]) == Scale(Prefix(huff', x.root), MAXBITS - x.root)
    requires x.ls[k] > x.root ==> Prefix(huff, x.root) != Prefix(huff', x.root)
    requires Covers(x.lens, x.root, Prefix(huff', x.root), x.root + curr, max)
    requires x.root + curr == x.ls[k + 1] || !Covers(x.lens, x.root, Prefix(huff', x.root), x.root + curr - 1, max)
    ensures UsedIs(x, used + Pow2(curr), k + 1, huff')
  {
    hide Base, CountEq, Scale, End, Start, CodeAt, Pow2, SubSize, Prefix, Covers;
    var p, q := Prefix(huff, x.root), Prefix(huff', x.root);
    WidthIs(x, max, k + 1, q, x.root + curr);
    if x.ls[k] > x.root {
      CodeSpan(x, k, huff);
      StartMono(x.lens, x.ls, k, k + 1);
      ScaleLess(q, p, MAXBITS - x.root);
    }
    var a := if x.ls[k] > x.root then p + 1 else 0;
    forall r: nat {:trigger SubSize(x.lens, x.root, r)} | a <= r < q ensures SubSize(x.lens, x.root, r) == 0 {
      ScaleLess(r, p + 1, MAXBITS - x.root);
      ScaleLess(q, r + 1, MAXBITS - x.root);
      NoneUnder(x, max, k, r);
    }
    SumsSame(x.lens, x.root, a, q);
  }

  lemma UsedFirst(x: Plan, huff: nat)
    requires |x.ls| > 0 && x.ls[0] <= x.root
    ensures UsedIs(x, Pow2(x.root), 0, huff)
    ensures TooMany(x.kind, Pow2(x.root)) ==> TooMany(x.kind, TableSize(x.lens, x.root)) && x.kind != CODES
  {
    hide SubSizes;
  }

  // A sub-table is started when the root bits change.
  lemma NewUsed(x: Plan, links: seq<Link>, max: nat, k: nat, huff: nat, huff': nat, next: nat, curr: nat, drop: nat, low: int,
                used: nat, curr': nat)
    requires Ready(x, max) && k + 1 < |x.ls| && Window(x, links, max, k, huff, next, curr, drop, low)
    requires Code1(x, k, huff) && Code1(x, k + 1, huff') && UsedIs(x, used, k, huff)
    requires x.root < x.ls[k + 1] <= x.root + curr' <= max <= MAXBITS && Low(huff', x.root) != low
    requires Start(x.lens, k + 1, x.ls[k + 1]) == Scale(Prefix(huff', x.root), MAXBITS - x.root)
    requires Covers(x.lens, x.root, Prefix(huff', x.root), x.root + curr', max)
    requires x.root + curr' == x.ls[k + 1] || !Covers(x.lens, x.root, Prefix(huff', x.root), x.root + curr' - 1, max)
    ensures UsedIs(x, used + Pow2(curr'), k + 1, huff')
    ensures TooMany(x.kind, used + Pow2(curr')) ==> TooMany(x.kind, TableSize(x.lens, x.root)) && x.kind != CODES
  {
    hide Low, Prefix, Covers, Start, Scale, Code1, UsedIs, Pow2, TableSize, Base, CountEq;
    SamePrefix(huff, huff', x.root);
    SameLow(huff, huff', x.root);
    UsedNew(x, max, k, huff, huff', used, curr');
    UsedWithin(x, k + 1, huff', used + Pow2(curr'));
  }

  lemma UsedSame(x: Plan, links: seq<Link>, max: nat, k: nat, huff: nat, huff': nat, next: nat, curr: nat, drop: nat, low: int, used: nat)
    requires Ready(x, max) && k + 1 < |x.ls| && Window(x, links, max, k, huff, next, curr, drop, low) && UsedIs(x, used, k, huff)
    requires x.ls[k + 1] <= x.root || Low(huff', x.root) == low
    ensures UsedIs(x, used, k + 1, huff')
  {
    hide Low, Prefix, Covers, SubSizes, Pow2, Base, CountEq;
    AtMono(x.lens, k, x.ls[k], k + 1, x.ls[k + 1]);
    SamePrefix(huff, huff', x.root);
    SameLow(huff, huff', x.root);
  }

  lemma UsedEnd(x: Plan, max: nat, k: nat, huff: nat, used: nat)
    requires Ready(x, max) && k + 1 == |x.ls| && Code1(x, k, huff) && UsedIs(x, used, k, huff)
    ensures used == TableSize(x.lens, x.root)
  {
    hide Base, CountEq, Scale, End, Start, CodeAt, Pow2, SubSize, Prefix;
    var p := Prefix(huff, x.root);
    PrefixBelow(huff, x.root);
    CodeSpan(x, k, huff);
    var a := if x.ls[k] > x.root then p + 1 else 0;
    forall r: nat {:trigger SubSize(x.lens, x.root, r)} | a <= r < Pow2(x.root) ensures SubSize(x.lens, x.root, r) == 0 {
      ScaleLess(r, p + 1, MAXBITS - x.root);
      NoneUnder(x, max, k, r);
    }
    SumsSame(x.lens, x.root, a, Pow2(x.root));
  }

  lemma {:induction false} PrefixBelow(v: nat, l: nat)
    ensures Prefix(v, l) < Pow2(l)
  {
    if l > 0 {
      PrefixBelow(v, l - 1);
    }
  }

  // What is used at any time is at most what the table takes in the end.
  lemma UsedWithin(x: Plan, k: nat, huff: nat, used: nat)
    requires k < |x.ls| && UsedIs(x, used, k, huff)
    ensures used <= TableSize(x.lens, x.root)
  {
    hide Pow2, SubSize, Prefix, SubSizes;
    PrefixBelow(huff, x.root);
    SumsGrow(x.lens, x.root, Prefix(huff, x.root) + 1, Pow2(x.root));
  }

  // ---- the loop --------------------------------------------------------------------------------

  // The state at the top of the loop, place k being next.
  ghost predicate State(x: Plan, t: seq<Code>, links: seq<Link>, used: nat, max: nat, k: nat, huff: nat,
                        next: nat, curr: nat, drop: nat, low: int)
    requires PlanOk(x) && k < |x.ls|
  {
    && Code1(x, k, huff) && LinksOk(t, x.root, links, used) && Filled(x, t, links, k)
    && LinksBefore(x, links, Start(x.lens, k, x.ls[k]) + 1)
    && Window(x, links, max, k, huff, next, curr, drop, low)
  }

  lemma SubFits(x: Plan, t: seq<Code>, links: seq<Link>, used: nat, max: nat, k: nat, huff: nat,
                next: nat, curr: nat, drop: nat, low: int)
    requires PlanOk(x) && k < |x.ls| && Code1(x, k, huff) && LinksOk(t, x.root, links, used)
    requires Window(x, links, max, k, huff, next, curr, drop, low)
    ensures next + Pow2(curr) <= used <= |t| && drop <= x.ls[k] <= drop + curr && x.ls[k] >= 1
    ensures Shr(huff, drop) < Pow2(x.ls[k] - drop) && huff < Pow2(x.ls[k])
    ensures next + Pow2(curr) == used && (drop == 0 || drop == x.root)
  {
    hide CodeAt, Prefix, Start, Scale, Covers, Pow2, Shr, LinksOk, LensOk, Base, CountEq, Low;
    assert x.ls[k] >= 1;
    UsedRoot(t, x.root, links, used);
    if drop == 0 {
      LinksNone(t, x.root, links, used);
      ShrNone(huff);
    } else {
      LastLink(t, x.root, links, used);
      ShrBelow(huff, drop, x.ls[k] - drop);
    }
  }

  lemma ShrNone(v: nat)
    ensures Shr(v, 0) == v
  {
  }

  lemma LastLink(t: seq<Code>, root: nat, links: seq<Link>, used: nat)
    requires LinksOk(t, root, links, used) && links != []
    ensures links[|links| - 1].at + Pow2(links[|links| - 1].curr) == used <= |t|
  {
    hide Pow2;
    assert links[|links| - 1].at == Offset(root, links, |links| - 1);
  }

  // Writing the entry of place k.
  lemma Wrote(x: Plan, t: seq<Code>, t': seq<Code>, links: seq<Link>, used: nat, max: nat, k: nat, huff: nat,
              next: nat, curr: nat, drop: nat, low: int)
    requires PlanOk(x) && k < |x.ls| && State(x, t, links, used, max, k, huff, next, curr, drop, low)
    requires next + Pow2(curr) <= |t| == |t'| && drop <= x.ls[k] && x.root <= MAXBITS
    requires Replicated(t, t', next, curr, x.ls[k] - drop, Shr(huff, drop), EntryAt(x, k, x.ls[k] - drop))
    ensures LinksOk(t', x.root, links, used) && Filled(x, t', links, k + 1)
  {
    hide CodeAt, Prefix, Start, Scale, Covers, LinksBefore, LinksOk, Filled, PlanOk, Replicated, EntryAt, Low, Pow2, IsHuff;
    if drop == 0 {
      ShrNone(huff);
      WroteRoot(x, t, t', k, huff);
      NoLinks(t, t', x.root, links, used);
    } else {
      WroteSub(x, t, t', links, used, k, huff);
    }
  }

  lemma NoLinks(t: seq<Code>, t': seq<Code>, root: nat, links: seq<Link>, used: nat)
    requires LinksOk(t, root, links, used) && links == [] && |t'| == |t|
    ensures LinksOk(t', root, links, used)
  {
  }

  // The codes do not run out before the last place.
  lemma MoreCodes(x: Plan, k: nat, max: nat)
    requires Ready(x, max) && k < |x.ls|
    ensures var c := CodeAt(x.lens, k, x.ls[k]);
      && c + 1 <= Pow2(x.ls[k])
      && (k + 1 < |x.ls| ==> c + 1 < Pow2(x.ls[k]))
      && (k + 1 == |x.ls| ==> (c + 1 < Pow2(x.ls[k]) <==> Incomplete(x.lens)))
  {
    hide Pow2, Scale;
    var l := x.ls[k];
    assert !OverAt(x.lens, l);
    CodeEnds(x, k);
    if k + 1 < |x.ls| {
      var l' := x.ls[k + 1];
      assert !OverAt(x.lens, l');
      CodeEnds(x, k + 1);
      NextStart(x.lens, k, l, l');
      CountedIn(x, k + 1);
      ScaleAdd(CodeAt(x.lens, k, l), 1, MAXBITS - l);
      ScaleLess(CodeAt(x.lens, k, l) + 1, Pow2(l), MAXBITS - l);
      Full(l);
      ScaleOne(MAXBITS - l');
      Positive(MAXBITS - l');
    } else {
      LastCode(x, k, max);
    }
  }

  lemma Positive(l: nat)
    ensures Pow2(l) > 0
  {
  }

  lemma CodeEnds(x: Plan, k: nat)
    requires PlanOk(x) && k < |x.ls|
    ensures CodeAt(x.lens, k, x.ls[k]) + 1 <= End(x.lens, x.ls[k])
  {
  }

  // Where a code that fits its length ends.
  lemma CountedIn(x: Plan, k: nat)
    requires PlanOk(x) && k < |x.ls| && CodeAt(x.lens, k, x.ls[k]) + 1 <= Pow2(x.ls[k])
    ensures Start(x.lens, k, x.ls[k]) + Scale(1, MAXBITS - x.ls[k]) <= Pow2(MAXBITS)
  {
    hide Pow2, Scale, CodeAt;
    var l := x.ls[k];
    ScaleAdd(CodeAt(x.lens, k, l), 1, MAXBITS - l);
    ScaleLess(Pow2(l), CodeAt(x.lens, k, l) + 1, MAXBITS - l);
    Full(l);
  }

  lemma Full(l: nat)
    requires l <= MAXBITS
    ensures Scale(Pow2(l), MAXBITS - l) == Pow2(MAXBITS)
  {
    hide Pow2, Scale;
    ScaleOne(l);
    ScaleScale(1, l, MAXBITS - l);
    ScaleOne(MAXBITS);
  }

  // The last code ends where all codes end.
  lemma LastCode(x: Plan, k: nat, max: nat)
    requires Ready(x, max) && k + 1 == |x.ls|
    ensures CodeAt(x.lens, k, max) + 1 < Pow2(max) <==> Incomplete(x.lens)
  {
    hide Pow2, Scale, CountEq;
    BaseMono(x.lens, max + 1, MAXBITS + 1);
    EndAcross(x.lens, max, MAXBITS);
    Full(max);
    ScaleLess(End(x.lens, max), Pow2(max), MAXBITS - max);
    assert CodeAt(x.lens, k, max) + 1 == End(x.lens, max);
  }

  // The counts after place k is done.
  lemma RemainingNext(x: Plan, count: seq<nat>, k: nat, max: nat)
    requires Ready(x, max) && k < |x.ls| && Remaining(x, count, k)
    ensures count[x.ls[k]] >= 1
    ensures var count' := count[x.ls[k] := count[x.ls[k]] - 1];
      && (count'[x.ls[k]] == 0 && x.ls[k] == max ==> k + 1 == |x.ls|)
      && (count'[x.ls[k]] == 0 && x.ls[k] != max ==> k + 1 < |x.ls|)
      && (count'[x.ls[k]] != 0 ==> k + 1 < |x.ls| && x.ls[k + 1] == x.ls[k])
      && (k + 1 < |x.ls| ==> x.ls[k] <= x.ls[k + 1] && Remaining(x, count', k + 1))
  {
    hide CountEq;
    var l := x.ls[k];
    BaseMono(x.lens, l + 1, MAXBITS + 1);
    if l == max {
      AtMono(x.lens, k, l, |x.ls| - 1, max);
    }
    if k + 1 < |x.ls| {
      var l' := x.ls[k + 1];
      AtMono(x.lens, k, l, k + 1, l');
      if l < l' {
        BaseMono(x.lens, l + 1, l');
      }
      if k + 1 < Base(x.lens, l + 1) {
        SameLength(x, k);
      }
    }
  }

  lemma SameLength(x: Plan, k: nat)
    requires PlanOk(x) && k + 1 < |x.ls| && k + 1 < Base(x.lens, x.ls[k] + 1)
    ensures x.ls[k + 1] == x.ls[k]
  {
    AtUnique(x.lens, k + 1, x.ls[k], x.ls[k + 1]);
  }

  // Going on in the same table, or starting a new sub-table.
  lemma SameTable(x: Plan, t: seq<Code>, links: seq<Link>, used: nat, max: nat, k: nat, huff: nat, huff': nat,
                  next: nat, curr: nat, drop: nat, low: int)
    requires Ready(x, max) && k + 1 < |x.ls| && Window(x, links, max, k, huff, next, curr, drop, low)
    requires Code1(x, k + 1, huff') && x.ls[k] <= x.ls[k + 1]
    requires LinksOk(t, x.root, links, used) && Filled(x, t, links, k + 1)
    requires LinksBefore(x, links, Start(x.lens, k, x.ls[k]) + 1)
    requires x.ls[k + 1] <= x.root || Low(huff', x.root) == low
    ensures State(x, t, links, used, max, k + 1, huff', next, curr, drop, low)
  {
    hide CodeAt, Prefix, Scale, LinksOk, Filled, Low, Pow2, IsHuff, Start;
    LaterStart(x, k);
    if drop == 0 {
      assert x.ls[k + 1] <= x.root;
    } else {
      SamePrefix(huff', huff, x.root);
      SameLow(huff', huff, x.root);
      AtMono(x.lens, k + 1, x.ls[k + 1], |x.ls| - 1, max);
      Fits(x, k + 1, huff', x.root + curr, max);
    }
  }

  lemma LaterStart(x: Plan, k: nat)
    requires PlanOk(x) && k + 1 < |x.ls|
    ensures Start(x.lens, k, x.ls[k]) < Start(x.lens, k + 1, x.ls[k + 1])
  {
    hide Start, Scale;
    NextStart(x.lens, k, x.ls[k], x.ls[k + 1]);
    ScaleOne(MAXBITS - x.ls[k]);
    Positive(MAXBITS - x.ls[k]);
  }

  // The new code's root entry is one no earlier code uses.
  lemma NewTable(x: Plan, t: seq<Code>, links: seq<Link>, used: nat, max: nat, k: nat, huff: nat, huff': nat,
                 next: nat, curr: nat, drop: nat, low: int, curr': nat)
    requires Ready(x, max) && k + 1 < |x.ls| && Window(x, links, max, k, huff, next, curr, drop, low)
    requires Code1(x, k, huff) && Code1(x, k + 1, huff')
    requires LinksOk(t, x.root, links, used) && Filled(x, t, links, k + 1)
    requires LinksBefore(x, links, Start(x.lens, k, x.ls[k]) + 1)
    requires x.ls[k + 1] > x.root && Low(huff', x.root) != low
    requires 1 <= curr' && x.ls[k + 1] <= x.root + curr' <= MAXBITS && used + Pow2(curr') <= |t|
    requires Covers(x.lens, x.root, Prefix(huff', x.root), x.root + curr', max)
    ensures Low(huff', x.root) < |t|
    ensures var t' := t[Low(huff', x.root) := Code(curr', x.root, used)];
            var links' := links + [Link(Low(huff', x.root), used, curr')];
            State(x, t', links', used + Pow2(curr'), max, k + 1, huff', used, curr', x.root, Low(huff', x.root))
  {
    hide CodeAt, Prefix, Scale, LinksOk, Filled, Low, Pow2, Covers, Start, IsHuff;
    LaterStart(x, k);
    Boundary(x, k, huff, huff');
    NewLink(x, t, links, used, k + 1, huff', curr');
    LinkPrefix(x, huff');
  }

  lemma LinkPrefix(x: Plan, huff: nat)
    ensures Prefix(Low(huff, x.root), x.root) == Prefix(huff, x.root)
  {
    LowLow(huff, x.root, x.root);
    SamePrefix(Low(huff, x.root), huff, x.root);
    SameLow(Low(huff, x.root), huff, x.root);
  }

  lemma StartIs(x: Plan, k: nat, huff: nat, huff': nat, max: nat, links: seq<Link>, next: nat, curr: nat, drop: nat, low: int)
    requires Ready(x, max) && k + 1 < |x.ls| && Window(x, links, max, k, huff, next, curr, drop, low)
    requires Code1(x, k, huff) && Code1(x, k + 1, huff')
    requires x.ls[k + 1] > x.root && Low(huff', x.root) != low
    ensures Start(x.lens, k + 1, x.ls[k + 1]) == Scale(Prefix(huff', x.root), MAXBITS - x.root)
  {
    hide CodeAt, Prefix, Scale, Low, Start, IsHuff, Covers;
    Boundary(x, k, huff, huff');
  }

  // The next code, whether or not it is longer.
  lemma NextCode1(x: Plan, k: nat, huff: nat, huff': nat, max: nat)
    requires Ready(x, max) && k + 1 < |x.ls| && Code1(x, k, huff) && x.ls[k] <= x.ls[k + 1]
    requires IsHuff(huff', x.ls[k], Prefix(huff, x.ls[k]) + 1)
    ensures Code1(x, k + 1, huff')
  {
    hide Prefix, Scale, IsHuff, Pow2;
    var l, l' := x.ls[k], x.ls[k + 1];
    assert Prefix(huff, l) == CodeAt(x.lens, k, l) by { HuffPrefix(huff, l, CodeAt(x.lens, k, l)); }
    HuffLonger(huff', l, CodeAt(x.lens, k, l) + 1, l');
    if l < l' {
      FirstLonger(x.lens, k, l, l');
    } else {
      ScaleNone(CodeAt(x.lens, k, l) + 1);
    }
  }

  lemma HuffPrefix(huff: nat, l: nat, c: nat)
    requires IsHuff(huff, l, c)
    ensures Prefix(huff, l) == c && huff < Pow2(l)
  {
  }

  lemma ScaleNone(c: nat)
    ensures Scale(c, 0) == c
  {
  }

  lemma FirstState(x: Plan, t: seq<Code>, max: nat)
    requires Ready(x, max) && Pow2(x.root) <= |t|
    ensures PlanOk(x) && State(x, t, [], Pow2(x.root), max, 0, 0, 0, x.root, 0, -1)
  {
    FirstCode(x);
  }

  lemma FirstCode(x: Plan)
    requires PlanOk(x) && |x.ls| > 0
    ensures Code1(x, 0, 0)
  {
    var l := x.ls[0];
    assert Base(x.lens, l) == 0;
    NothingShorter(x.lens, l);
    HuffZero(l);
  }

  lemma {:induction false} NothingShorter(lens: seq<nat>, l: nat)
    requires l >= 1 && Base(lens, l) == 0
    ensures End(lens, l - 1) == 0
  {
    if l > 1 {
      BaseMono(lens, 1, l - 1);
      NothingShorter(lens, l - 1);
    }
  }

  lemma {:induction false} HuffZero(l: nat)
    ensures IsHuff(0, l, 0)
  {
    if l > 0 {
      ZeroBits(l - 1);
      HuffZero(l - 1);
    }
  }

  lemma PlanFacts(x: Plan, k: nat, max: nat)
    requires Ready(x, max) && k < |x.ls|
    ensures PlanOk(x) && k < |x.work| && x.work[k] < |x.lens| <= MaxSymbols(x.kind) && x.lens[x.work[k]] == x.ls[k]
    ensures 1 <= x.ls[k] <= max <= MAXBITS && 1 <= x.root <= MAXBITS
    ensures forall b: nat {:trigger EntryAt(x, k, b)} :: EntryAt(x, k, b) == EntryFor(x.kind, x.work[k], b)
  {
    hide Base, CountEq, EntryFor;
    AtMono(x.lens, k, x.ls[k], |x.ls| - 1, max);
  }

  // There is room for the sub-table: only codes longer than the root get one.
  lemma RoomSub(kind: CodeType, length: nat, root: nat, max: nat, used: nat)
    requires RoomFor(kind, length, root, max) && !TooMany(kind, used)
    ensures root < max ==> kind != CODES
    ensures kind != CODES || used == Pow2(root) ==> used <= length
  {
  }

  // A code of one symbol of length one: the other root entry is marked invalid.
  lemma OneCode(x: Plan, max: nat)
    requires Ready(x, max) && Incomplete(x.lens)
    ensures x.root == 1 && max == 1 && |x.ls| == 1 && x.ls[0] == 1
  {
    PlanFacts(x, 0, max);
    MoreCodes(x, |x.ls| - 1, max);
    CodeEnds(x, 0);
    assert x.ls[|x.ls| - 1] == 1;
    assert Pow2(1) == 2;
    LastPlace(x, max);
  }

  lemma LastPlace(x: Plan, max: nat)
    requires Ready(x, max) && max == 1 && x.ls[|x.ls| - 1] == 1 && CodeAt(x.lens, |x.ls| - 1, 1) + 1 < 2
    ensures |x.ls| == 1
  {
    assert Base(x.lens, 1) == 0;
  }

  lemma MarkInvalid(x: Plan, t: seq<Code>, max: nat, c: Code)
    requires Ready(x, max) && Incomplete(x.lens) && |t| >= 2
    requires PlanOk(x) && |x.ls| >= 1 && Filled(x, t, [], 1) && LinksOk(t, x.root, [], Pow2(x.root))
    ensures Filled(x, t[1 := c], [], 1) && LinksOk(t[1 := c], x.root, [], Pow2(x.root))
  {
    OneCode(x, max);
    FirstCode(x);
    forall k: nat, v: nat | k < 1 && Hits(x, k, v) ensures Right(x, t[1 := c], [], k, v) {
      HuffMeans(0, 1, CodeAt(x.lens, 0, 1), v);
      assert Right(x, t, [], 0, v);
    }
  }

  lemma NotAbove(h: nat, len: nat, root: nat)
    requires len == 1 && root == 1 && 0 < h < Pow2(len)
    ensures h == 1 && Pow2(root) == 2
  {
  }

  lemma ReadyPlaces(x: Plan, max: nat)
    requires Ready(x, max)
    ensures PlanOk(x) && |x.ls| > 0 && x.ls[0] <= x.root <= max && 1 <= x.root <= MAXBITS
    ensures |x.ls| == Base(x.lens, MAXBITS + 1)
  {
  }

  lemma StateParts(x: Plan, t: seq<Code>, links: seq<Link>, used: nat, max: nat, k: nat, huff: nat,
                   next: nat, curr: nat, drop: nat, low: int)
    requires PlanOk(x) && k < |x.ls| && State(x, t, links, used, max, k, huff, next, curr, drop, low)
    ensures Code1(x, k, huff) && LinksOk(t, x.root, links, used) && Filled(x, t, links, k)
    ensures LinksBefore(x, links, Start(x.lens, k, x.ls[k]) + 1)
    ensures Window(x, links, max, k, huff, next, curr, drop, low)
  {
    hide PlanOk;
  }

  lemma Outside(t: seq<Code>, t': seq<Code>, at: nat, curr: nat, m: nat, h: nat, here: Code)
    requires at + Pow2(curr) <= |t| == |t'| && Replicated(t, t', at, curr, m, h, here)
    ensures forall i {:trigger t'[i]} :: at + Pow2(curr) <= i < |t| ==> t'[i] == t[i]
  {
  }

  lemma Code1Is(x: Plan, k: nat, huff: nat)
    requires PlanOk(x) && k < |x.ls| && Code1(x, k, huff)
    ensures Prefix(huff, x.ls[k]) == CodeAt(x.lens, k, x.ls[k]) && huff < Pow2(x.ls[k])
  {
  }

  lemma RemainingSize(x: Plan, count: seq<nat>, k: nat)
    requires k < |x.ls| && Remaining(x, count, k)
    ensures |count| == MAXBITS + 1
  {
  }

  lemma RoomKind(kind: CodeType, length: nat, root: nat, max: nat)
    requires RoomFor(kind, length, root, max) && root < max
    ensures kind != CODES
  {
  }

  // With an incomplete code the one symbol is in the root table.
  lemma AtEnd(x: Plan, links: seq<Link>, max: nat, k: nat, huff: nat, next: nat, curr: nat, drop: nat, low: int)
    requires Ready(x, max) && k + 1 == |x.ls| && Window(x, links, max, k, huff, next, curr, drop, low)
    ensures Incomplete(x.lens) ==> drop == 0 && next == 0 && links == [] && x.ls[k] == 1 && |x.ls| == 1 && x.root == 1
  {
    hide Covers, Low, Prefix;
    if Incomplete(x.lens) {
      OneCode(x, max);
    }
  }

  // The entries of the code at place k.
  method Enter(ghost x: Plan, table: array<Code>, ghost links: seq<Link>, ghost used: nat, ghost max: nat, ghost k: nat, huff: nat,
               next: nat, curr: nat, drop: nat, ghost low: int, here: Code, len: nat)
    requires PlanOk(x) && k < |x.ls| && len == x.ls[k] && used <= table.Length && x.root <= MAXBITS
    requires State(x, table[..], links, used, max, k, huff, next, curr, drop, low)
    requires next + Pow2(curr) == used && drop <= len <= drop + curr && here == EntryAt(x, k, len - drop)
    requires Shr(huff, drop) < Pow2(len - drop)
    modifies table
    ensures LinksOk(table[..], x.root, links, used) && Filled(x, table[..], links, k + 1)
    ensures forall i {:trigger table[i]} :: used <= i < table.Length ==> table[i] == old(table[i])
  {
    hide PlanOk, State, LinksOk, Filled, Replicated, Pow2, Shr, EntryAt;
    ghost var t := table[..];
    Replicate(table, next, curr, len - drop, Shr(huff, drop), here);
    Wrote(x, t, table[..], links, used, max, k, huff, next, curr, drop, low);
    Outside(t, table[..], next, curr, len - drop, Shr(huff, drop), here);
  }

  // Process all codes and make table entries.
  method FillTable(ghost x: Plan, kind: CodeType, lens: seq<nat>, work: array<nat>, count: array<nat>, root: nat,
                   max: nat, min: nat, table: array<Code>)
      returns (ok: bool, used: nat, ghost links: seq<Link>)
    requires Ready(x, max) && x.kind == kind && x.lens == lens && x.work == work[..] && x.root == root && min == x.ls[0]
    requires count.Length == MAXBITS + 1 && Remaining(x, count[..], 0) && work != count
    requires table.Length >= 2 && RoomFor(kind, table.Length, root, max)
    modifies table, count
    ensures !ok ==> kind != CODES
    ensures PlanOk(x)
    ensures ok ==> LinksOk(table[..], root, links, used) && Filled(x, table[..], links, |x.ls|)
    ensures ok ==> forall i {:trigger table[i]} :: used <= i < table.Length ==> table[i] == old(table[i])
    ensures ok <==> !TooMany(kind, TableSize(lens, root))
    ensures ok ==> used == TableSize(lens, root)
    ensures ok && Incomplete(lens) ==>
      root == 1 && used == Pow2(1) && |x.ls| == 1 && x.ls[0] == 1 && links == [] && table[1] == Code(64, 1, 0)
  {
    hide Ready, PlanOk, State, Window, Code1, LinksOk, Filled, LinksBefore, Remaining, Replicated, RoomFor, Pow2,
         UsedIs, TableSize, Prefix, TooMany,
         Covers, IsHuff, Start, CodeAt, Low, Shr, EntryAt, Incomplete, EntryFor, Hits;
    ReadyPlaces(x, max);
    PlanFacts(x, 0, max);
    var huff: nat, sym: nat, len: nat := 0, 0, min;
    var next: nat, curr: nat, drop: nat, low: int := 0, root, 0, -1;
    used := Pow2(root);
    links := [];
    UsedFirst(x, huff);
    if TooMany(kind, used) {
      return false, used, links;
    }
    RoomSub(kind, table.Length, root, max, used);
    FirstState(x, table[..], max);
    while true
      invariant 0 <= sym < |x.ls| && len == x.ls[sym] && used <= table.Length && x.work == work[..]
      invariant State(x, table[..], links, used, max, sym, huff, next, curr, drop, low)
      invariant Remaining(x, count[..], sym)
      invariant UsedIs(x, used, sym, huff) && !TooMany(kind, used)
      invariant forall i {:trigger table[i]} :: used <= i < table.Length ==> table[i] == old(table[i])
      decreases |x.ls| - sym
    {
      ghost var k, h := sym, huff;
      PlanFacts(x, k, max);
      StateParts(x, table[..], links, used, max, k, h, next, curr, drop, low);
      SubFits(x, table[..], links, used, max, k, h, next, curr, drop, low);
      Enter(x, table, links, used, max, k, huff, next, curr, drop, low, EntryFor(kind, work[sym], len - drop), len);
      huff := BackwardIncrement(huff, len);
      MoreCodes(x, k, max);
      Code1Is(x, k, h);
      RemainingNext(x, count[..], k, max);
      sym := sym + 1;
      ghost var before := count[..];
      RemainingSize(x, before, k);
      count[len] := count[len] - 1;
      assert count[..] == before[len := before[len] - 1];
      if count[len] == 0 {
        if len == max {
          AtEnd(x, links, max, k, h, next, curr, drop, low);
          UsedEnd(x, max, k, h, used);
          if huff != 0 {
            HuffPrefix(huff, len, Prefix(h, len) + 1);
            LinksNone(table[..], root, links, used);
          }
          break;
        }
        PlanFacts(x, sym, max);
        len := lens[work[sym]];
      }
      PlanFacts(x, sym, max);
      NextCode1(x, k, h, huff, max);
      if len > root && Low(huff, root) != low {
        StartIs(x, k, h, huff, max, links, next, curr, drop, low);
        ghost var next0, curr0, drop0, low0 := next, curr, drop, low;
        if drop == 0 {
          drop := root;
        }
        next := next + Pow2(curr);
        var curr' := SubTableBits(x, count, sym, huff, len, root, max);
        ghost var used0, t1 := used, table[..];
        used := used + Pow2(curr');
        NewUsed(x, links, max, k, h, huff, next0, curr0, drop0, low0, used0, curr');
        RoomKind(kind, table.Length, root, max);
        if TooMany(kind, used) {
          return false, used, links;
        }
        RoomSub(kind, table.Length, root, max, used);
        NewTable(x, t1, links, used0, max, k, h, huff, next0, curr0, drop0, low0, curr');
        LowInRoot(x, t1, links, used0, huff);
        low := Low(huff, root);
        table[low] := Code(curr', root, next);
        assert table[..] == t1[Low(huff, root) := Code(curr', root, next)];
        links := links + [Link(low, next, curr')];
        curr := curr';
      } else {
        SameTable(x, table[..], links, used, max, k, h, huff, next, curr, drop, low);
        UsedSame(x, links, max, k, h, huff, next, curr, drop, low, used);
      }
    }
    if huff != 0 {
      NotAbove(huff, len, root);
      MarkInvalid(x, table[..], max, Code(64, 1, 0));
      ghost var t1 := table[..];
      table[next + huff] := Code(64, len - drop, 0);
      assert table[..] == t1[1 := Code(64, 1, 0)];
    }
    ok := true;
  }

  lemma LinksNone(t: seq<Code>, root: nat, links: seq<Link>, used: nat)
    requires LinksOk(t, root, links, used) && links == []
    ensures used == Pow2(root)
  {
  }

  lemma LowInRoot(x: Plan, t: seq<Code>, links: seq<Link>, used: nat, huff: nat)
    requires LinksOk(t, x.root, links, used)
    ensures Low(huff, x.root) < used <= |t|
  {
    hide Low;
    LowBelow(huff, x.root);
    UsedRoot(t, x.root, links, used);
  }

  // ---- what inflate_table promises -------------------------------------------------------------

  // The outcome for lengths that code no symbol: a two-entry table that makes decoding fail.
  ghost predicate NoCodes(lens: seq<nat>) { forall s {:trigger lens[s]} :: 0 <= s < |lens| ==> lens[s] == 0 }

  ghost predicate LongestIs(lens: seq<nat>, max: nat) {
    && (exists s {:trigger lens[s]} :: 0 <= s < |lens| && lens[s] == max)
    && forall s {:trigger lens[s]} :: 0 <= s < |lens| ==> lens[s] <= max
  }

  ghost predicate ShortestIs(lens: seq<nat>, min: nat) {
    && min >= 1 && (exists s {:trigger lens[s]} :: 0 <= s < |lens| && lens[s] == min)
    && forall s {:trigger lens[s]} :: 0 <= s < |lens| && lens[s] >= 1 ==> lens[s] >= min
  }

  // The root table is indexed by the bits asked for, but no more than the longest and no fewer than the shortest code has.
  ghost predicate RootIs(lens: seq<nat>, bits: nat, root: nat) {
    forall max: nat, min: nat {:trigger LongestIs(lens, max), ShortestIs(lens, min)} ::
      LongestIs(lens, max) && ShortestIs(lens, min) ==> root == if bits > max then max else if bits < min then min else bits
  }

  lemma RootChosen(lens: seq<nat>, bits: nat, root: nat, min: nat, max: nat)
    requires LongestIs(lens, max) && min >= 1 && CountEq(lens, min) > 0 && Base(lens, min) == 0 && min <= max
    requires root == if bits >= max then max else if bits < min then min else bits
    ensures RootIs(lens, bits, root)
  {
    hide Base, CountEq;
    CountZero(lens, min);
    forall s {:trigger lens[s]} | 0 <= s < |lens| && lens[s] >= 1 ensures lens[s] >= min {
      CountZero(lens, lens[s]);
      if lens[s] < min {
        BaseMono(lens, lens[s], min);
      }
    }
    assert ShortestIs(lens, min);
  }

  // Every stream that starts with a symbol's code is decoded to that symbol, consuming exactly its
  // code length.
  ghost predicate DecodesAll(kind: CodeType, lens: seq<nat>, t: seq<Code>, root: nat) {
    |lens| <= MaxSymbols(kind) &&
    forall sym: nat, v: nat {:trigger StartsWith(lens, sym, v)} ::
      sym < |lens| && lens[sym] >= 1 && StartsWith(lens, sym, v) ==>
        Decodes(t, root, v, EntryFor(kind, sym, 0), lens[sym])
  }

  // Only an incomplete code, of one symbol, leaves streams undecoded: they find the invalid marker.
  ghost predicate InvalidRest(lens: seq<nat>, t: seq<Code>, root: nat) {
    forall v: nat {:trigger Low(v, root)} ::
      (forall sym: nat {:trigger StartsWith(lens, sym, v)} :: sym < |lens| && lens[sym] >= 1 ==> !StartsWith(lens, sym, v))
      ==> Decodes(t, root, v, Code(64, 0, 0), 1)
  }

  // Every stream starts with a code.
  ghost predicate Coded(lens: seq<nat>, v: nat) {
    exists sym: nat {:trigger StartsWith(lens, sym, v)} :: sym < |lens| && lens[sym] >= 1 && StartsWith(lens, sym, v)
  }

  ghost predicate AllCoded(lens: seq<nat>) { forall v: nat {:trigger Coded(lens, v)} :: Coded(lens, v) }

  // Every one of the used slots is read for some stream.
  ghost predicate NoUnusedSlot(t: seq<Code>, root: nat, used: nat) {
    used <= |t| && forall i: nat {:trigger IsTouched(t, root, i)} :: i < used ==> IsTouched(t, root, i)
  }

  ghost predicate IsTouched(t: seq<Code>, root: nat, i: nat) { exists v: nat {:trigger Low(v, root)} :: Touches(t, root, v, i) }

  // A symbol's place in sorted order holds it.
  lemma PlaceOfSymbol(x: Plan, sym: nat)
    requires PlanOk(x) && Sorted(x.lens, x.work) && |x.ls| == Base(x.lens, MAXBITS + 1)
    requires sym < |x.lens| && x.lens[sym] >= 1
    ensures var k := Place(x.lens, sym);
      k < |x.ls| && x.work[k] == sym && x.ls[k] == x.lens[sym] && CodeAt(x.lens, k, x.ls[k]) == CodeOf(x.lens, sym)
  {
    var l := x.lens[sym];
    var k := Place(x.lens, sym);
    PlaceInRange(x.lens, sym);
    BaseMono(x.lens, l, MAXBITS + 1);
    assert Placed(x.lens, x.work, k, l);
    SamePlace(x.lens, sym, x.work[k]);
  }

  // Two symbols of one length do not share a place.
  lemma SamePlace(lens: seq<nat>, a: nat, b: nat)
    requires a < |lens| && b < |lens| && lens[a] == lens[b] && Place(lens, a) == Place(lens, b)
    ensures a == b
  {
    var l := lens[a];
    if a < b {
      CountSnoc(lens, a, l);
      CountGrows(lens, a + 1, b, l);
    } else if b < a {
      CountSnoc(lens, b, l);
      CountGrows(lens, b + 1, a, l);
    }
  }

  lemma {:induction false} CountGrows(lens: seq<nat>, a: nat, b: nat, l: nat)
    requires a <= b <= |lens|
    ensures CountEq(lens[..a], l) <= CountEq(lens[..b], l)
    decreases b - a
  {
    if a < b {
      CountSnoc(lens, b - 1, l);
      CountGrows(lens, a, b - 1, l);
    }
  }

  lemma RightDecodes(x: Plan, t: seq<Code>, links: seq<Link>, used: nat, k: nat, v: nat)
    requires PlanOk(x) && k < |x.ls| && LinksOk(t, x.root, links, used) && Right(x, t, links, k, v)
    ensures Decodes(t, x.root, v, EntryAt(x, k, 0), x.ls[k])
  {
    hide Low, Shr, Pow2, Offset, LinksOk, EntryAt, Lengths, LensOk;
    EntryBits(x, k, x.ls[k]);
    if x.ls[k] > x.root {
      var i: nat :| RightIn(x, t, links, k, v, i);
      EntryBits(x, k, x.ls[k] - x.root);
      LinkEntry(t, x.root, links, used, i);
    }
  }

  lemma LinkEntry(t: seq<Code>, root: nat, links: seq<Link>, used: nat, i: nat)
    requires LinksOk(t, root, links, used) && i < |links|
    ensures links[i].low < |t| && t[links[i].low] == Code(links[i].curr, root, links[i].at)
    ensures root + links[i].curr <= MAXBITS && (root >= 1 ==> IsLink(t[links[i].low]))
  {
    hide Offset;
  }

  lemma EntryBits(x: Plan, k: nat, bits: nat)
    requires PlanOk(x) && k < |x.ls|
    ensures EntryAt(x, k, 0).(bits := bits) == EntryAt(x, k, bits) && !IsLink(EntryAt(x, k, bits))
  {
  }

  lemma AllDecode(x: Plan, t: seq<Code>, links: seq<Link>, used: nat)
    requires PlanOk(x) && Sorted(x.lens, x.work) && |x.ls| == Base(x.lens, MAXBITS + 1)
    requires LinksOk(t, x.root, links, used) && Filled(x, t, links, |x.ls|)
    ensures DecodesAll(x.kind, x.lens, t, x.root)
  {
    hide Low, Shr, Pow2, Prefix, CodeAt, CodeOf, Decodes, EntryFor, Base, Place, LinksOk, Sorted;
    forall sym: nat, v: nat | sym < |x.lens| && x.lens[sym] >= 1 && StartsWith(x.lens, sym, v)
      ensures Decodes(t, x.root, v, EntryFor(x.kind, sym, 0), x.lens[sym])
    {
      var k := Place(x.lens, sym);
      PlaceOfSymbol(x, sym);
      assert Hits(x, k, v);
      assert Right(x, t, links, k, v);
      RightDecodes(x, t, links, used, k, v);
    }
  }

  // A stream before the end of the code at place k starts with one of the codes up to there.
  lemma {:induction false} Covered(x: Plan, k: nat, v: nat) returns (j: nat)
    requires PlanOk(x) && k < |x.ls| && X(v) < Start(x.lens, k, x.ls[k]) + Scale(1, MAXBITS - x.ls[k])
    ensures j <= k && Hits(x, j, v)
  {
    hide Start, Scale, CodeAt, Prefix;
    InRange(x.lens, k, x.ls[k], v);
    if X(v) >= Start(x.lens, k, x.ls[k]) {
      j := k;
    } else if k == 0 {
      StartsAtZero(x);
      assert false;
    } else {
      NextStart(x.lens, k - 1, x.ls[k - 1], x.ls[k]);
      j := Covered(x, k - 1, v);
    }
  }

  lemma StartsAtZero(x: Plan)
    requires PlanOk(x) && |x.ls| > 0
    ensures Start(x.lens, 0, x.ls[0]) == 0
  {
    FirstCode(x);
    HuffZero(x.ls[0]);
    ScaleOne(MAXBITS - x.ls[0]);
  }

  // A complete code leaves no stream out.
  lemma Complete(x: Plan, max: nat, v: nat) returns (j: nat)
    requires Ready(x, max) && !Incomplete(x.lens)
    ensures PlanOk(x) && j < |x.ls| && Hits(x, j, v)
  {
    hide Start, Scale, Pow2;
    var k := |x.ls| - 1;
    PlanFacts(x, k, max);
    MoreCodes(x, k, max);
    var l := x.ls[k];
    assert CodeAt(x.lens, k, l) + 1 == Pow2(l);
    ScaleAdd(CodeAt(x.lens, k, l), 1, MAXBITS - l);
    Full(l);
    PrefixRange(v, 0, MAXBITS);
    ScaleOne(MAXBITS);
    StartDef(x, k);
    j := Covered(x, k, v);
  }

  lemma StartDef(x: Plan, k: nat)
    requires PlanOk(x) && k < |x.ls|
    ensures Start(x.lens, k, x.ls[k]) == Scale(CodeAt(x.lens, k, x.ls[k]), MAXBITS - x.ls[k])
  {
  }

  // The symbol at a place has the code of the place.
  lemma SymbolAtPlace(x: Plan, k: nat, v: nat)
    requires PlanOk(x) && Sorted(x.lens, x.work) && k < |x.ls| && Hits(x, k, v)
    ensures x.work[k] < |x.lens| && x.lens[x.work[k]] >= 1 && StartsWith(x.lens, x.work[k], v)
  {
    assert Placed(x.lens, x.work, k, x.ls[k]);
  }

  lemma AllStreams(x: Plan, max: nat)
    requires Ready(x, max) && Sorted(x.lens, x.work) && !Incomplete(x.lens)
    ensures AllCoded(x.lens)
  {
    hide Sorted, Incomplete, StartsWith, Hits;
    ReadyPlaces(x, max);
    forall v: nat ensures Coded(x.lens, v) {
      var j := Complete(x, max, v);
      SymbolAtPlace(x, j, v);
    }
  }

  lemma RestInvalid(x: Plan, max: nat, t: seq<Code>)
    requires Ready(x, max) && Sorted(x.lens, x.work) && |t| >= 2
    requires Incomplete(x.lens) ==> t[1] == Code(64, 1, 0)
    ensures InvalidRest(x.lens, t, x.root)
  {
    hide Low, Prefix, CodeAt, CodeOf, Base, Place, Sorted, End, Incomplete;
    ReadyPlaces(x, max);
    forall v: nat | forall sym: nat {:trigger StartsWith(x.lens, sym, v)} ::
        sym < |x.lens| && x.lens[sym] >= 1 ==> !StartsWith(x.lens, sym, v)
      ensures Decodes(t, x.root, v, Code(64, 0, 0), 1)
    {
      if Incomplete(x.lens) {
        OneCode(x, max);
        if Hits(x, 0, v) {
          SymbolAtPlace(x, 0, v);
        }
        OtherHalf(x, v);
      } else {
        var j := Complete(x, max, v);
        SymbolAtPlace(x, j, v);
        assert false;
      }
    }
  }

  lemma OtherHalf(x: Plan, v: nat)
    requires PlanOk(x) && |x.ls| > 0 && x.ls[0] == 1 && !Hits(x, 0, v)
    ensures Low(v, 1) == 1
  {
    FirstCode(x);
    HuffMeans(0, 1, CodeAt(x.lens, 0, 1), v);
    assert Low(v / 2, 0) == 0;
  }

  lemma {:induction false} FindLink(root: nat, links: seq<Link>, n: nat, i: nat) returns (j: nat)
    requires n <= |links| && Pow2(root) <= i < Offset(root, links, n)
    ensures j < n && Offset(root, links, j) <= i < Offset(root, links, j) + Pow2(links[j].curr)
  {
    if i >= Offset(root, links, n - 1) {
      j := n - 1;
    } else {
      j := FindLink(root, links, n - 1, i);
    }
  }

  lemma AllTouched(t: seq<Code>, root: nat, links: seq<Link>, used: nat)
    requires LinksOk(t, root, links, used)
    ensures NoUnusedSlot(t, root, used)
  {
    hide Low, Shr, Pow2, Offset, Scale;
    UsedRoot(t, root, links, used);
    forall i: nat | i < used ensures IsTouched(t, root, i) {
      if i < Pow2(root) {
        LowSmall(i, root);
        assert Touches(t, root, i, i);
      } else {
        var j := FindLink(root, links, |links|, i);
        var v := links[j].low + Scale(i - links[j].at, root);
        JoinNum(links[j].low, i - links[j].at, root);
        LowSmall(i - links[j].at, links[j].curr);
        assert t[links[j].low] == Code(links[j].curr, root, links[j].at);
        assert Touches(t, root, v, i);
      }
    }
  }

  lemma {:induction false} CountZero(lens: seq<nat>, l: nat)
    ensures CountEq(lens, l) == 0 <==> forall s {:trigger lens[s]} :: 0 <= s < |lens| ==> lens[s] != l
  {
    if lens != [] {
      var n := |lens| - 1;
      CountZero(lens[..n], l);
      forall s | 0 <= s < n ensures lens[..n][s] == lens[s] {
      }
    }
  }

  // The longest code length in use, counting down; 0 when there is none.
  method Bounds(lens: seq<nat>, count: array<nat>) returns (min: nat, max: nat)
    requires LensOk(lens) && count.Length == MAXBITS + 1
    requires forall l {:trigger count[l]} :: 0 <= l <= MAXBITS ==> count[l] == CountEq(lens, l)
    ensures max <= MAXBITS && (max == 0 <==> NoCodes(lens)) && LongestOf(lens, max)
    ensures max > 0 ==> 1 <= min <= max && CountEq(lens, min) > 0 && Base(lens, min) == 0
    ensures max > 0 ==> CountEq(lens, max) > 0 && Base(lens, max + 1) == Base(lens, MAXBITS + 1)
  {
    hide CountEq;
    max := MAXBITS;
    while max >= 1 && count[max] == 0
      invariant max <= MAXBITS && Base(lens, max + 1) == Base(lens, MAXBITS + 1)
      invariant forall l :: max < l <= MAXBITS ==> count[l] == 0
    {
      max := max - 1;
    }
    forall l: nat ensures CountEq(lens, l) == 0 <==> forall s {:trigger lens[s]} :: 0 <= s < |lens| ==> lens[s] != l {
      CountZero(lens, l);
    }
    forall l: nat | max < l <= MAXBITS ensures CountEq(lens, l) == 0 {
      assert count[l] == 0;
    }
    MaxIs(lens, max);
    min := 1;
    while min < max && count[min] == 0
      invariant 1 <= min && (max > 0 ==> min <= max) && Base(lens, min) == 0
    {
      min := min + 1;
    }
  }

  ghost predicate LongestOf(lens: seq<nat>, max: nat) {
    forall m: nat {:trigger LongestIs(lens, m)} :: m >= 1 ==> (LongestIs(lens, m) <==> m == max)
  }

  lemma MaxIs(lens: seq<nat>, max: nat)
    requires LensOk(lens) && max <= MAXBITS && (max >= 1 ==> CountEq(lens, max) > 0)
    requires forall l: nat {:trigger CountEq(lens, l)} :: max < l <= MAXBITS ==> CountEq(lens, l) == 0
    ensures (max == 0 <==> NoCodes(lens)) && LongestOf(lens, max)
  {
    forall s | 0 <= s < |lens| ensures lens[s] <= max {
      CountZero(lens, lens[s]);
    }
    if max >= 1 {
      CountZero(lens, max);
      assert LongestIs(lens, max);
    }
  }

  // The table the caller offers.
  ghost predicate Offers(kind: CodeType, lens: seq<nat>, bits: nat, length: nat) {
    length >= 2 &&
    match kind
    case CODES => Pow2(bits) <= length && forall s {:trigger lens[s]} :: 0 <= s < |lens| ==> lens[s] <= bits
    case LENS => ENOUGH_LENS <= length
    case DISTS => ENOUGH_DISTS <= length
  }

  // The lengths in sorted order satisfy what the filling loop needs.
  lemma MakePlan(kind: CodeType, lens: seq<nat>, work: seq<nat>, root: nat, min: nat, max: nat) returns (x: Plan)
    requires LensOk(lens) && |lens| <= MaxSymbols(kind) && Sorted(lens, work) && |work| == |lens|
    requires 1 <= min <= root <= max <= MAXBITS
    requires CountEq(lens, min) > 0 && Base(lens, min) == 0
    requires CountEq(lens, max) > 0 && Base(lens, max + 1) == Base(lens, MAXBITS + 1)
    requires !Oversubscribed(lens) && (Incomplete(lens) ==> max == 1)
    ensures Ready(x, max) && x.kind == kind && x.lens == lens && x.work == work && x.root == root && x.ls[0] == min
  {
    hide CountEq, End, Incomplete, Oversubscribed, Place;
    var n := Base(lens, MAXBITS + 1);
    BaseBelow(lens, MAXBITS + 1);
    forall k: nat | k < n ensures work[k] < |lens| && At(lens, k, lens[work[k]]) {
      PlaceLength(lens, work, k);
    }
    var ls := seq(n, k requires 0 <= k < n => lens[work[k]]);
    x := Plan(kind, lens, work, ls, root);
    BaseMono(lens, min + 1, MAXBITS + 1);
    BaseMono(lens, 1, max);
    assert At(lens, 0, min) && At(lens, n - 1, max);
    AtUnique(lens, 0, min, ls[0]);
    AtUnique(lens, n - 1, max, ls[n - 1]);
  }

  lemma PlaceLength(lens: seq<nat>, work: seq<nat>, k: nat)
    requires Sorted(lens, work) && k < Base(lens, MAXBITS + 1) && k < |work|
    ensures work[k] < |lens| && At(lens, k, lens[work[k]])
  {
    var l := FindLength(lens, k, MAXBITS);
    assert Placed(lens, work, k, l);
  }

  lemma {:induction false} FindLength(lens: seq<nat>, k: nat, m: nat) returns (l: nat)
    requires m <= MAXBITS && k < Base(lens, m + 1)
    ensures At(lens, k, l)
  {
    if k >= Base(lens, m) {
      l := m;
    } else {
      l := FindLength(lens, k, m - 1);
    }
  }

  lemma RoomThere(kind: CodeType, lens: seq<nat>, bits: nat, length: nat, root: nat, min: nat, max: nat)
    requires Offers(kind, lens, bits, length) && 1 <= min <= max && LongestIs(lens, max)
    requires root == if bits >= max then max else if bits < min then min else bits
    ensures RoomFor(kind, length, root, max)
  {
    if kind == CODES {
      assert max <= bits;
      Pow2Mono(root, bits);
    }
  }

  lemma CountsLeft(x: Plan, count: seq<nat>, min: nat)
    requires PlanOk(x) && |x.ls| > 0 && x.ls[0] == min && Base(x.lens, min) == 0 && |count| == MAXBITS + 1
    requires forall l {:trigger count[l]} :: 0 <= l <= MAXBITS ==> count[l] == CountEq(x.lens, l)
    ensures Remaining(x, count, 0)
  {
  }

  method InflateTable(kind: CodeType, lens: seq<nat>, bits: nat, table: array<Code>) returns (ret: int, root: nat, used: nat)
    requires LensOk(lens) && |lens| <= MaxSymbols(kind) && Offers(kind, lens, bits, table.Length)
    modifies table
    ensures ret == 0 || ret == -1 || (ret == 1 && kind != CODES)
    ensures ret == -1 <==> !NoCodes(lens) && (Oversubscribed(lens) || (Incomplete(lens) && (kind == CODES || !LongestIs(lens, 1))))
    ensures ret == 1 <==> !NoCodes(lens) && ret != -1 && TooMany(kind, TableSize(lens, root))
    ensures ret == 0 && !NoCodes(lens) ==> used == TableSize(lens, root)
    ensures ret == -1 ==> table[..] == old(table[..])
    ensures ret == 0 ==> 1 <= root <= MAXBITS
    ensures !NoCodes(lens) ==> RootIs(lens, bits, root)
    ensures ret == 0 && NoCodes(lens) ==>
      root == 1 && used == 2 && table[0] == Code(64, 1, 0) && table[1] == Code(64, 1, 0)
    ensures ret == 0 && !NoCodes(lens) ==>
      DecodesAll(kind, lens, table[..], root) && InvalidRest(lens, table[..], root) && NoUnusedSlot(table[..], root, used)
    ensures ret == 0 && !NoCodes(lens) && !Incomplete(lens) ==> AllCoded(lens)
    ensures ret == 0 ==> used <= table.Length && forall i {:trigger table[i]} :: used <= i < table.Length ==> table[i] == old(table[i])
  {
    hide Pow2, Oversubscribed, Incomplete, NoCodes, LongestIs, DecodesAll, InvalidRest, NoUnusedSlot, Base, CountEq, Sorted,
         Remaining, Ready, LinksOk, Filled, RoomFor, TableSize, TooMany, RootIs, AllCoded;
    var count := CountLengths(lens);
    var min, max := Bounds(lens, count);
    root := bits;
    if root > max {
      root := max;
    }
    if max == 0 {
      table[0] := Code(64, 1, 0);
      table[1] := Code(64, 1, 0);
      return 0, 1, 2;
    }
    if root < min {
      root := min;
    }
    assert LongestIs(lens, max);
    RootChosen(lens, bits, root, min, max);
    var over, left := CheckLeft(lens, count);
    assert LongestIs(lens, 1) <==> max == 1;
    if over || (left > 0 && (kind == CODES || max != 1)) {
      return -1, root, 0;
    }
    var work := SortSymbols(lens, count);
    ghost var x := MakePlan(kind, lens, work[..], root, min, max);
    RoomThere(kind, lens, bits, table.Length, root, min, max);
    ReadyPlaces(x, max);
    CountsLeft(x, count[..], min);
    var ok, u, links := FillTable(x, kind, lens, work, count, root, max, min, table);
    used := u;
    if !ok {
      return 1, root, used;
    }
    AllDecode(x, table[..], links, used);
    RestInvalid(x, max, table[..]);
    if !Incomplete(lens) {
      AllStreams(x, max);
    }
    AllTouched(table[..], root, links, used);
    UsedRoot(table[..], root, links, used);
    ret := 0;
  }
}
