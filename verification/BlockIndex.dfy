/**
 * The block index of ConcurrentQueue's implicit producer.  The producer enters blocks, takes entries back
 * and doubles the index; dequeuers look up the blocks of the elements they have claimed, with atomic
 * steps in between, on whatever version of the index they loaded; the last dequeuer of a block clears its entry.
 * Blocks are numbered in the order of their base indices, which wrap at 2^64.
 */
module BlockIndex {
  import opened Bits
  import opened Wrappers

  const TWO64: nat := 0x1_0000_0000_0000_0000
  const INVALID: nat := 1

  // key and value of a BlockIndexEntry; a block is known by its number.
  datatype Entry = Entry(key: nat, value: Option<nat>)

  // index is the array of pointers to entries; block q has the slot (q + off) modulo the capacity.
  datatype Header = Header(index: seq<nat>, tail: nat, off: int)

  datatype Producer = Idle | Keyed | Tailed | Full | Grown | Undo | Reverting | Cleared

  // next to last are the blocks whose elements a dequeuer has claimed and not yet taken.
  datatype Reader =
    | Claimed(next: nat, last: nat)
    | HasHeader(next: nat, last: nat, h: nat)
    | HasTail(next: nat, last: nat, h: nat, tail: nat)
    | HasBase(next: nat, last: nat, h: nat, tail: nat, base: nat)
    | AtSlot(next: nat, last: nat, h: nat, slot: nat)

  // top is the block of the tail, high the last one entered, peak the last one ever entered, published the
  // last one whose elements can be claimed; blocks from `from` on have been in the newest index.
  datatype State = State(block: nat, entries: seq<Entry>, headers: seq<Header>, top: int, high: int, peak: int, published: int,
                         from: int, pc: Producer, readers: map<nat, Reader>)

  // ---- arithmetic ------------------------------------------------------------------------------

  function U64(x: int): (r: nat)
    ensures r < TWO64
  {
    x % TWO64
  }

  // The base index of a block, as a key.
  function Base(q: int, block: nat): nat { U64(q * block) }

  // index & ~(BLOCK_SIZE - 1)
  function Masked(index: nat, block: nat): nat
    requires block >= 1
  {
    index - index % block
  }

  function Signed(x: nat): int { if x < 0x8000_0000_0000_0000 then x else x - TWO64 }

  // Division as in C.
  function Quotient(x: int, y: nat): int
    requires y >= 1
  {
    if x >= 0 then x / y else -((-x) / y)
  }

  // get_block_index_index_for_index
  function FindSlot(tail: nat, tailBase: nat, index: nat, capacity: nat, block: nat): nat
    requires block >= 1 && capacity >= 1
  {
    var offset := U64(Quotient(Signed(U64(Masked(index, block) - tailBase)), block));
    And(U64(tail + offset), capacity - 1)
  }

  ghost predicate SizesOk(block: nat, capacity: nat) {
    block >= 2 && capacity >= 1 && IsPow2(block) && IsPow2(capacity) && block * capacity <= TWO64
  }

  lemma {:induction false} PowProduct(a: nat, b: nat)
    ensures Pow2(a) * Pow2(b) == Pow2(a + b)
  {
    if a > 0 {
      PowProduct(a - 1, b);
      assert Pow2(a) == 2 * Pow2(a - 1);
      assert (2 * Pow2(a - 1)) * Pow2(b) == 2 * (Pow2(a - 1) * Pow2(b));
    }
  }

  lemma Two64Is()
    ensures Pow2(64) == TWO64
  {
    assert Pow2(4) == 16;
    hide Pow2;
    PowProduct(4, 4);
    assert Pow2(8) == 0x100;
    PowProduct(8, 8);
    assert Pow2(16) == 0x1_0000;
    PowProduct(16, 16);
    assert Pow2(32) == 0x1_0000_0000;
    PowProduct(32, 32);
  }

  // 2^64 is a multiple of the number of elements the index covers.
  lemma Divides(block: nat, capacity: nat) returns (m: nat)
    requires SizesOk(block, capacity)
    ensures m >= 1 && TWO64 == block * (capacity * m)
  {
    var a: nat :| block == Pow2(a);
    var b: nat :| capacity == Pow2(b);
    PowProduct(a, b);
    Two64Is();
    if a + b > 64 {
      Pow2Mono(64, a + b);
    }
    m := Pow2(64 - a - b);
    PowProduct(b, 64 - a - b);
    PowProduct(a, 64 - a);
  }

  // x modulo 2^64 differs from x by a multiple of it.
  lemma WrapBy(x: int) returns (k: int)
    ensures U64(x) == x + k * TWO64
  {
    k := -(x / TWO64);
  }

  lemma Gather(block: nat, c: nat, x: int, k: int)
    requires TWO64 == block * c
    ensures block * x + k * TWO64 == block * (x + k * c)
  {
    assert k * (block * c) == block * (k * c);
  }

  // A multiple of the block size, modulo 2^64, is still one.
  lemma WrapMultiple(block: nat, c: nat, x: int) returns (y: int, k: int)
    requires TWO64 == block * c
    ensures U64(block * x) == block * y && y == x + k * c
  {
    k := WrapBy(block * x);
    Gather(block, c, x, k);
    y := x + k * c;
  }

  lemma QuotientIs(block: nat, y: int)
    requires block >= 1
    ensures Quotient(block * y, block) == y
  {
    if block * y >= 0 {
      ModUnique(block * y, block, y, 0);
    } else {
      ModUnique(-(block * y), block, -y, 0);
    }
  }

  lemma MaskedIs(block: nat, c: nat, p: nat, j: nat) returns (y: int, k: int)
    requires TWO64 == block * c && j < block
    ensures Masked(U64(p * block + j), block) == block * y && y == p + k * c
  {
    k := WrapBy(p * block + j);
    Gather(block, c, p, k);
    y := p + k * c;
    ModUnique(U64(p * block + j), block, y, j);
  }

  // The offset, as a number of blocks, is right modulo c.
  lemma OffsetIs(block: nat, c: nat, x: int, z: int) returns (d: int, k: int)
    requires TWO64 == block * c && block >= 1
    ensures Quotient(Signed(U64(block * x - block * z)), block) == d && d == x - z + k * c
  {
    assert block * x - block * z == block * (x - z);
    var y, n := WrapMultiple(block, c, x - z);
    if block * y < 0x8000_0000_0000_0000 {
      d, k := y, n;
    } else {
      d, k := y - c, n - 1;
      Gather(block, c, y, -1);
      assert (n - 1) * c == n * c - c;
    }
    QuotientIs(block, d);
  }

  lemma DivMod(x: int, y: nat)
    requires y >= 1
    ensures x == (x / y) * y + x % y
  {
  }

  lemma SlotSum(tail: nat, d: int, off: int, w: int, p: int, capacity: nat, m: nat, block: nat, k: int)
    requires capacity >= 1 && IsPow2(capacity) && TWO64 == block * (capacity * m)
    requires tail == (w + off) % capacity && d == p - w + k * (capacity * m)
    ensures And(U64(tail + U64(d)), capacity - 1) == (p + off) % capacity
  {
    var n: nat :| capacity == Pow2(n);
    var sum := U64(tail + U64(d));
    AndMask(sum, n);
    var a := WrapBy(d);
    var b := WrapBy(tail + U64(d));
    var r, n1, n2 := (p + off) % capacity, (w + off) / capacity, (p + off) / capacity;
    var rest := k * m + (a + b) * (block * m);
    DivMod(w + off, capacity);
    DivMod(p + off, capacity);
    Collect(capacity, m, block, k, a + b);
    Distribute(rest, n1, n2, capacity);
    SumUp(sum, tail, d, a + b, k * (capacity * m), off, w, p, r, n1 * capacity, n2 * capacity, rest * capacity);
    ModUnique(sum, capacity, rest - n1 + n2, r);
  }

  lemma SumUp(sum: int, tail: int, d: int, e: int, kc: int, off: int, w: int, p: int, r: int, x1: int, x2: int, x3: int)
    requires sum == tail + d + e * TWO64 && d == p - w + kc && kc + e * TWO64 == x3
    requires w + off == x1 + tail && p + off == x2 + r
    ensures sum == x3 - x1 + x2 + r
  {
  }

  lemma Collect(capacity: nat, m: nat, block: nat, k: int, e: int)
    requires TWO64 == block * (capacity * m)
    ensures k * (capacity * m) + e * TWO64 == (k * m + e * (block * m)) * capacity
  {
    assert k * (capacity * m) == (k * m) * capacity;
    assert block * (capacity * m) == (block * m) * capacity;
    assert e * ((block * m) * capacity) == (e * (block * m)) * capacity;
  }

  lemma Distribute(x: int, y: int, z: int, capacity: nat)
    ensures (x - y + z) * capacity == x * capacity - y * capacity + z * capacity
  {
  }

  // Whatever block w the tail's key is of, the slot found for an element of block p is that of p.
  lemma FindIs(tail: nat, p: nat, w: nat, j: nat, off: int, capacity: nat, block: nat)
    requires SizesOk(block, capacity) && j < block && tail == (w + off) % capacity
    ensures FindSlot(tail, Base(w, block), U64(p * block + j), capacity, block) == (p + off) % capacity
  {
    var m := Divides(block, capacity);
    var c := capacity * m;
    var x, k1 := MaskedIs(block, c, p, j);
    var z, k2 := WrapMultiple(block, c, w);
    var d, k3 := OffsetIs(block, c, x, z);
    var k := k1 - k2 + k3;
    assert k * c == k1 * c - k2 * c + k3 * c by {
      Distribute(k1, k2, k3, c);
    }
    assert w * block == block * w;
    hide Masked, Signed, Quotient, U64;
    SlotSum(tail, d, off, w, p, capacity, m, block, k);
  }

  lemma NotOne(block: nat, y: int)
    requires block >= 2
    ensures block * y != 1
  {
    if y >= 1 {
      MulAtLeast(y, block);
      assert y * block == block * y;
    }
  }

  lemma BaseIsValid(q: int, block: nat, capacity: nat)
    requires SizesOk(block, capacity)
    ensures Base(q, block) != INVALID
  {
    var m := Divides(block, capacity);
    var y, _ := WrapMultiple(block, capacity * m, q);
    assert q * block == block * q;
    NotOne(block, y);
  }

  // Where the entries of the old index are in one of twice the capacity.
  lemma GrowSlot(w: int, top: int, off: int, capacity: nat)
    requires capacity >= 1
    ensures var i := (w + (capacity - 1 - top)) % (2 * capacity);
            i < capacity ==> (w + off) % capacity == ((top + off) % capacity + 1 + i) % capacity
    ensures top - capacity < w <= top ==> (w + (capacity - 1 - top)) % (2 * capacity) == w + capacity - 1 - top
    ensures (top + 1 + (capacity - 1 - top)) % (2 * capacity) == capacity
  {
    var x := w + (capacity - 1 - top);
    var i := x % (2 * capacity);
    var q := x / (2 * capacity);
    assert x == q * (2 * capacity) + i;
    var t := (top + off) % capacity;
    var n := (top + off) / capacity;
    assert top + off == n * capacity + t;
    var r := (t + 1 + i) % capacity;
    var e := (t + 1 + i) / capacity;
    assert t + 1 + i == e * capacity + r;
    assert w + off == (2 * q - 1 + n + e) * capacity + r by {
      assert q * (2 * capacity) == (2 * q) * capacity;
      Distribute(2 * q, 1, n + e, capacity);
      Distribute(n, 0, e, capacity);
    }
    ModUnique(w + off, capacity, 2 * q - 1 + n + e, r);
    if top - capacity < w <= top {
      ModUnique(x, 2 * capacity, 0, x);
    }
    ModUnique(capacity, 2 * capacity, 0, capacity);
  }

  // ---- the machine -----------------------------------------------------------------------------

  // The slot of block q.
  function Slot(h: Header, q: int): nat { if |h.index| == 0 then 0 else (q + h.off) % |h.index| }

  // The entry of block q in an index.
  function Ref(h: Header, q: int): nat { if |h.index| == 0 then 0 else h.index[(q + h.off) % |h.index|] }

  function Key(entries: seq<Entry>, e: nat): nat { if e < |entries| then entries[e].key else INVALID }

  function Value(entries: seq<Entry>, e: nat): Option<nat> { if e < |entries| then entries[e].value else None }

  // Block q is in the index.
  ghost predicate Live(h: Header, entries: seq<Entry>, q: int) { q >= 0 && Value(entries, Ref(h, q)) == Some(q) }

  ghost predicate HeaderOk(h: Header, count: nat, block: nat) {
    && SizesOk(block, |h.index|) && h.tail < |h.index|
    && forall i {:trigger h.index[i]} :: 0 <= i < |h.index| ==> h.index[i] < count
  }

  ghost predicate HeadersOk(headers: seq<Header>, count: nat, block: nat) {
    |headers| >= 1 && forall h {:trigger headers[h]} :: 0 <= h < |headers| ==> HeaderOk(headers[h], count, block)
  }

  function Newest(s: State): Header { if |s.headers| == 0 then Header([], 0, 0) else s.headers[|s.headers| - 1] }

  function Needs(r: Reader, q: nat): bool { r.next <= q <= r.last }

  datatype Step =
    | Enter | SeeFull | StoreTail | StoreBlock | Rewind | ClearEntry | Grow | Fail | EnterGrown
    | ClearNext | RewindNext | EndRevert | Publish
    | Claim(r: nat, next: nat, last: nat) | LoadHeader(r: nat) | LoadTail(r: nat) | LoadBase(r: nat) | Find(r: nat, j: nat)
    | Take(r: nat) | Release(q: nat)

  // The slots after the tail's, then the tail's: the entries in the order of their blocks.
  function Rotated(index: seq<nat>, tail: nat): (r: seq<nat>)
    requires tail < |index|
    ensures |r| == |index|
  {
    seq(|index|, i requires 0 <= i < |index| => index[(tail + 1 + i) % |index|])
  }

  function Numbers(from: nat, n: nat): (r: seq<nat>)
    ensures |r| == n && forall i :: 0 <= i < n ==> r[i] == from + i
  {
    seq(n, i => from + i)
  }

  // new_block_index
  function Doubled(h: Header, count: nat, top: int): Header
    requires h.tail < |h.index|
  {
    var n := |h.index|;
    Header(Rotated(h.index, h.tail) + Numbers(count, n), And(n - 1, 2 * n - 1), n - 1 - top)
  }

  // The block whose entry a revert clears next.
  function NextToClear(s: State): int { s.published + (s.high - s.top) + 1 }

  function LastCleared(s: State): int { if s.pc == Cleared then NextToClear(s) else NextToClear(s) - 1 }

  // The types and sizes that the code relies on.
  ghost predicate Sound(s: State) {
    && HeadersOk(s.headers, |s.entries|, s.block)
    && -1 <= s.published <= s.top <= s.high <= s.peak <= s.published + |Newest(s).index| && 0 <= s.from <= s.published + 1
  }

  ghost predicate Enabled(s: State, step: Step) {
    var e := Ref(Newest(s), s.top + 1);
    match step
    case Enter => s.pc == Idle && (Key(s.entries, e) == INVALID || Value(s.entries, e) == None)
    case SeeFull => s.pc == Idle && Key(s.entries, e) != INVALID && Value(s.entries, e) != None
    case StoreTail => s.pc == Keyed
    case StoreBlock => s.pc == Tailed
    case Rewind => s.pc == Tailed
    case ClearEntry => s.pc == Undo
    case Grow => s.pc == Full && s.block * (2 * |Newest(s).index|) <= TWO64
    case Fail => s.pc == Full || s.pc == Idle
    case EnterGrown => s.pc == Grown
    case ClearNext => s.pc == Reverting && s.top > s.published
    case RewindNext => s.pc == Cleared
    case EndRevert => s.pc == Reverting && s.top == s.published
    case Publish => s.pc == Idle
    case Claim(r, next, last) =>
      r !in s.readers && next <= last && last <= s.published && forall q :: next <= q <= last ==> Live(Newest(s), s.entries, q)
    case LoadHeader(r) => r in s.readers && s.readers[r].Claimed?
    case LoadTail(r) => r in s.readers && s.readers[r].HasHeader? && s.readers[r].h < |s.headers|
    case LoadBase(r) => r in s.readers && s.readers[r].HasTail? && s.readers[r].h < |s.headers|
                        && s.readers[r].tail < |s.headers[s.readers[r].h].index|
    case Find(r, j) => r in s.readers && s.readers[r].HasBase? && s.readers[r].h < |s.headers| && j < s.block
    case Take(r) => r in s.readers && s.readers[r].AtSlot? && s.readers[r].h < |s.headers|
    case Release(q) => Live(Newest(s), s.entries, q) && q <= s.published && forall r | r in s.readers :: !Needs(s.readers[r], q)
  }

  function SetTail(headers: seq<Header>, tail: nat): seq<Header>
    requires |headers| >= 1
  {
    headers[|headers| - 1 := headers[|headers| - 1].(tail := tail)]
  }

  function SetKey(entries: seq<Entry>, e: nat, key: nat): seq<Entry> {
    if e < |entries| then entries[e := entries[e].(key := key)] else entries
  }

  function SetValue(entries: seq<Entry>, e: nat, value: Option<nat>): seq<Entry> {
    if e < |entries| then entries[e := entries[e].(value := value)] else entries
  }

  function Do(s: State, step: Step): State
    requires Sound(s) && Enabled(s, step)
  {
    var n := Newest(s);
    var capacity := |n.index|;
    assert HeaderOk(s.headers[|s.headers| - 1], |s.entries|, s.block);
    match step
    case Enter | EnterGrown =>
      s.(entries := SetKey(s.entries, Ref(n, s.top + 1), Base(s.top + 1, s.block)),
         peak := if s.peak <= s.top then s.top + 1 else s.peak, pc := Keyed)
    case SeeFull => s.(pc := Full)
    case StoreTail =>
      s.(headers := SetTail(s.headers, And(n.tail + 1, capacity - 1)), top := s.top + 1, high := s.high + 1, pc := Tailed)
    case StoreBlock => s.(entries := SetValue(s.entries, Ref(n, s.top), Some(if s.top >= 0 then s.top else 0)), pc := Idle)
    case Rewind =>
      s.(headers := SetTail(s.headers, And(U64(n.tail - 1), capacity - 1)), top := s.top - 1, high := s.high - 1, pc := Undo)
    case ClearEntry => s.(entries := SetValue(s.entries, Ref(n, s.top + 1), None), pc := Reverting)
    case Grow =>
      s.(headers := s.headers + [Doubled(n, |s.entries|, s.top)],
         entries := s.entries + seq(capacity, _ => Entry(INVALID, None)),
         from := s.top - capacity + 1, pc := Grown)
    case Fail => s.(pc := Reverting)
    case ClearNext =>
      var q := NextToClear(s);
      var i := FindSlot(n.tail, Key(s.entries, n.index[n.tail]), Base(q, s.block), capacity, s.block);
      s.(entries := SetValue(s.entries, if i < capacity then n.index[i] else 0, None), pc := Cleared)
    case RewindNext => s.(headers := SetTail(s.headers, And(U64(n.tail - 1), capacity - 1)), top := s.top - 1, pc := Reverting)
    case EndRevert => s.(high := s.top, pc := Idle)
    case Publish => s.(published := s.top)
    case Claim(r, next, last) => s.(readers := s.readers[r := Claimed(next, last)])
    case LoadHeader(r) =>
      var x := s.readers[r];
      s.(readers := s.readers[r := HasHeader(x.next, x.last, |s.headers| - 1)])
    case LoadTail(r) =>
      var x := s.readers[r];
      s.(readers := s.readers[r := HasTail(x.next, x.last, x.h, s.headers[x.h].tail)])
    case LoadBase(r) =>
      var x := s.readers[r];
      s.(readers := s.readers[r := HasBase(x.next, x.last, x.h, x.tail, Key(s.entries, s.headers[x.h].index[x.tail]))])
    case Find(r, j) =>
      var x := s.readers[r];
      assert HeaderOk(s.headers[x.h], |s.entries|, s.block);
      var slot := FindSlot(x.tail, x.base, U64(x.next * s.block + j), |s.headers[x.h].index|, s.block);
      s.(readers := s.readers[r := AtSlot(x.next, x.last, x.h, slot)])
    case Take(r) =>
      var x := s.readers[r];
      assert HeaderOk(s.headers[x.h], |s.entries|, s.block);
      if x.next == x.last then s.(readers := s.readers - {r})
      else s.(readers := s.readers[r := AtSlot(x.next + 1, x.last, x.h, And(x.slot + 1, |s.headers[x.h].index| - 1))])
    case Release(q) => s.(entries := SetValue(s.entries, Ref(n, q), None))
  }

  // ---- the invariant ---------------------------------------------------------------------------

  // A key in slot i is of a block whose slot is i.
  ghost predicate Fits(h: Header, i: nat, key: nat, block: nat) {
    key == INVALID || exists w: nat :: key == Base(w, block) && Slot(h, w) == i
  }

  ghost predicate KeysFit(headers: seq<Header>, entries: seq<Entry>, block: nat) {
    forall h, i {:trigger headers[h].index[i]} :: 0 <= h < |headers| && 0 <= i < |headers[h].index| ==>
      Fits(headers[h], i, Key(entries, headers[h].index[i]), block)
  }

  // An entry that is in an older index too has the same blocks there.
  ghost predicate Aligned(headers: seq<Header>, newest: Header) {
    forall h, i, w {:trigger headers[h].index[i], Ref(newest, w)} :: 0 <= h < |headers| && 0 <= i < |headers[h].index| ==>
      (Ref(newest, w) == headers[h].index[i] ==> Slot(headers[h], w) == i)
  }

  // A block in the index is where the newest index has it, with its key, among the last ones entered.
  ghost predicate ValueOk(newest: Header, e: nat, entry: Entry, block: nat, from: int, high: int, peak: int) {
    entry.value.Some? ==>
      && entry.key == Base(entry.value.value, block) && Ref(newest, entry.value.value) == e
      && from <= entry.value.value <= high && peak - |newest.index| < entry.value.value
  }

  ghost predicate ValuesOk(newest: Header, entries: seq<Entry>, block: nat, from: int, high: int, peak: int) {
    forall e {:trigger entries[e]} :: 0 <= e < |entries| ==> ValueOk(newest, e, entries[e], block, from, high, peak)
  }

  // No lookup meets an invalid key at the tail.
  ghost predicate TailKeys(headers: seq<Header>, newest: Header, entries: seq<Entry>, from: int, high: int) {
    && (forall q {:trigger Ref(newest, q)} :: from <= q <= high ==> Key(entries, Ref(newest, q)) != INVALID)
    && (forall h {:trigger headers[h]} | 0 <= h < |headers| - 1 ::
          headers[h].tail < |headers[h].index| && Key(entries, headers[h].index[headers[h].tail]) != INVALID)
  }

  // The last blocks ever entered have their keys, as far as the newest index has had them.
  ghost predicate KeysExact(newest: Header, entries: seq<Entry>, block: nat, from: int, peak: int) {
    forall q {:trigger Ref(newest, q)} :: from <= q <= peak && peak - |newest.index| < q ==> Key(entries, Ref(newest, q)) == Base(q, block)
  }

  ghost predicate AllLive(h: Header, entries: seq<Entry>, lo: int, hi: int) {
    forall q {:trigger Live(h, entries, q)} :: lo < q <= hi ==> Live(h, entries, q)
  }

  ghost predicate NoneLive(h: Header, entries: seq<Entry>, lo: int, hi: int) {
    forall q {:trigger Live(h, entries, q)} :: lo < q <= hi ==> !Live(h, entries, q)
  }

  // What a dequeuer needs stays in the index, wherever the version it loaded has it.
  ghost predicate ReaderOk(r: Reader, headers: seq<Header>, newest: Header, entries: seq<Entry>, published: int, block: nat) {
    && r.next <= r.last <= published && AllLive(newest, entries, r.next - 1, r.last)
    && (!r.Claimed? ==> r.h < |headers| && AllLive(headers[r.h], entries, r.next - 1, r.last))
    && (r.HasTail? ==> r.tail < |headers[r.h].index| && Key(entries, headers[r.h].index[r.tail]) != INVALID)
    && (r.HasBase? ==> r.base != INVALID && Fits(headers[r.h], r.tail, r.base, block))
    && (r.AtSlot? ==> r.slot == Slot(headers[r.h], r.next))
  }

  ghost predicate ReadersOk(s: State) {
    forall r {:trigger s.readers[r]} | r in s.readers :: ReaderOk(s.readers[r], s.headers, Newest(s), s.entries, s.published, s.block)
  }

  ghost predicate ProducerOk(s: State) {
    var n := Newest(s);
    var next := Ref(n, s.top + 1);
    && (s.pc != Reverting && s.pc != Cleared ==> s.high == s.top)
    && (s.pc == Cleared ==> s.top > s.published)
    && (s.pc == Keyed ==> s.peak > s.top && Key(s.entries, next) == Base(s.top + 1, s.block) && Value(s.entries, next) == None)
    && (s.pc == Tailed ==> s.top > s.published && Key(s.entries, Ref(n, s.top)) == Base(s.top, s.block) && Value(s.entries, Ref(n, s.top)) == None)
    && (s.pc == Full ==> s.peak == s.top && s.from <= s.top + 1 - |n.index| <= s.published + 1)
    && (s.pc == Grown ==> Key(s.entries, next) == INVALID && Value(s.entries, next) == None)
    && (s.pc == Undo ==> Value(s.entries, next) == None)
    // of the blocks entered and not yet published, a revert has cleared the first ones
    && AllLive(n, s.entries, LastCleared(s), if s.pc == Tailed then s.high - 1 else s.high)
    && NoneLive(n, s.entries, s.published, LastCleared(s))
  }

  ghost predicate Inv(s: State) {
    && Sound(s) && Newest(s).tail == Slot(Newest(s), s.top)
    && KeysFit(s.headers, s.entries, s.block) && Aligned(s.headers, Newest(s))
    && ValuesOk(Newest(s), s.entries, s.block, s.from, s.high, s.peak)
    && TailKeys(s.headers, Newest(s), s.entries, s.from, s.high)
    && KeysExact(Newest(s), s.entries, s.block, s.from, s.peak)
    && ProducerOk(s) && ReadersOk(s)
  }

  // ---- what a store does -----------------------------------------------------------------------

  lemma KeyStays(h: Header, entries: seq<Entry>, e: nat, key: nat, lo: int, hi: int)
    requires AllLive(h, entries, lo, hi)
    ensures AllLive(h, SetKey(entries, e, key), lo, hi)
  {
    forall q | lo < q <= hi ensures Live(h, SetKey(entries, e, key), q) {
      assert Live(h, entries, q);
    }
  }

  lemma KeyFits(headers: seq<Header>, newest: Header, entries: seq<Entry>, block: nat, w: nat)
    requires KeysFit(headers, entries, block) && Aligned(headers, newest)
    ensures KeysFit(headers, SetKey(entries, Ref(newest, w), Base(w, block)), block)
  {
    var e := Ref(newest, w);
    var entries' := SetKey(entries, e, Base(w, block));
    forall h, i | 0 <= h < |headers| && 0 <= i < |headers[h].index|
      ensures Fits(headers[h], i, Key(entries', headers[h].index[i]), block)
    {
      assert Fits(headers[h], i, Key(entries, headers[h].index[i]), block);
      if headers[h].index[i] == e {
        assert Slot(headers[h], w) == i;
      }
    }
  }

  // No entry that a live block has is free for another.
  lemma ValueStored(h: Header, entries: seq<Entry>, e: nat, w: nat, lo: int, hi: int)
    requires AllLive(h, entries, lo, hi) && Value(entries, e) == None
    ensures AllLive(h, SetValue(entries, e, Some(w)), lo, hi)
  {
    forall q | lo < q <= hi ensures Live(h, SetValue(entries, e, Some(w)), q) {
      assert Live(h, entries, q);
    }
  }

  lemma ValueCleared(h: Header, entries: seq<Entry>, e: nat, q: nat, lo: int, hi: int)
    requires AllLive(h, entries, lo, hi) && Value(entries, e) in {None, Some(q)} && !(lo < q <= hi)
    ensures AllLive(h, SetValue(entries, e, None), lo, hi)
  {
    forall p | lo < p <= hi ensures Live(h, SetValue(entries, e, None), p) {
      assert Live(h, entries, p);
    }
  }

  lemma ReaderKey(r: Reader, headers: seq<Header>, newest: Header, entries: seq<Entry>, published: int, block: nat, e: nat, key: nat)
    requires ReaderOk(r, headers, newest, entries, published, block) && key != INVALID
    ensures ReaderOk(r, headers, newest, SetKey(entries, e, key), published, block)
  {
    KeyStays(newest, entries, e, key, r.next - 1, r.last);
    if !r.Claimed? {
      KeyStays(headers[r.h], entries, e, key, r.next - 1, r.last);
    }
  }

  lemma ReaderStored(r: Reader, headers: seq<Header>, newest: Header, entries: seq<Entry>, published: int, block: nat, e: nat, w: nat)
    requires ReaderOk(r, headers, newest, entries, published, block) && Value(entries, e) == None
    ensures ReaderOk(r, headers, newest, SetValue(entries, e, Some(w)), published, block)
  {
    ValueStored(newest, entries, e, w, r.next - 1, r.last);
    if !r.Claimed? {
      ValueStored(headers[r.h], entries, e, w, r.next - 1, r.last);
    }
  }

  lemma ReaderCleared(r: Reader, headers: seq<Header>, newest: Header, entries: seq<Entry>, published: int, block: nat, e: nat, q: nat)
    requires ReaderOk(r, headers, newest, entries, published, block) && Value(entries, e) in {None, Some(q)} && !Needs(r, q)
    ensures ReaderOk(r, headers, newest, SetValue(entries, e, None), published, block)
  {
    ValueCleared(newest, entries, e, q, r.next - 1, r.last);
    if !r.Claimed? {
      ValueCleared(headers[r.h], entries, e, q, r.next - 1, r.last);
    }
  }

  lemma ValuesKey(newest: Header, entries: seq<Entry>, block: nat, from: int, high: int, peak: int, e: nat, key: nat)
    requires ValuesOk(newest, entries, block, from, high, peak) && Value(entries, e) == None
    ensures ValuesOk(newest, SetKey(entries, e, key), block, from, high, peak)
  {
    forall k | 0 <= k < |entries| ensures ValueOk(newest, k, SetKey(entries, e, key)[k], block, from, high, peak) {
      assert ValueOk(newest, k, entries[k], block, from, high, peak);
    }
  }

  lemma ValuesCleared(newest: Header, entries: seq<Entry>, block: nat, from: int, high: int, peak: int, e: nat)
    requires ValuesOk(newest, entries, block, from, high, peak)
    ensures ValuesOk(newest, SetValue(entries, e, None), block, from, high, peak)
  {
    forall k | 0 <= k < |entries| ensures ValueOk(newest, k, SetValue(entries, e, None)[k], block, from, high, peak) {
      assert ValueOk(newest, k, entries[k], block, from, high, peak);
    }
  }

  lemma ValuesStored(newest: Header, entries: seq<Entry>, block: nat, from: int, high: int, peak: int, e: nat, w: nat)
    requires ValuesOk(newest, entries, block, from, high, peak) && e == Ref(newest, w) && Key(entries, e) == Base(w, block)
    requires from <= w <= high && peak - |newest.index| < w
    ensures ValuesOk(newest, SetValue(entries, e, Some(w)), block, from, high, peak)
  {
    forall k | 0 <= k < |entries| ensures ValueOk(newest, k, SetValue(entries, e, Some(w))[k], block, from, high, peak) {
      assert ValueOk(newest, k, entries[k], block, from, high, peak);
    }
  }

  lemma TailKeysKey(headers: seq<Header>, newest: Header, entries: seq<Entry>, from: int, high: int, e: nat, key: nat)
    requires TailKeys(headers, newest, entries, from, high) && key != INVALID
    ensures TailKeys(headers, newest, SetKey(entries, e, key), from, high)
  {
  }

  lemma NewestOk(s: State)
    requires Sound(s)
    ensures HeaderOk(Newest(s), |s.entries|, s.block)
  {
    assert HeaderOk(s.headers[|s.headers| - 1], |s.entries|, s.block);
  }

  lemma SlotFree(s: State)
    requires Inv(s) && (Enabled(s, Enter) || Enabled(s, EnterGrown))
    ensures Value(s.entries, Ref(Newest(s), s.top + 1)) == None
  {
    var e := Ref(Newest(s), s.top + 1);
    NewestOk(s);
    if e < |s.entries| && s.entries[e].value.Some? {
      assert ValueOk(Newest(s), e, s.entries[e], s.block, s.from, s.high, s.peak);
      BaseIsValid(s.entries[e].value.value, s.block, |Newest(s).index|);
    }
  }

  lemma RefIn(h: Header, count: nat, block: nat, q: int)
    requires HeaderOk(h, count, block)
    ensures Slot(h, q) < |h.index| && Ref(h, q) == h.index[Slot(h, q)] < count
  {
  }

  // Blocks at most the capacity apart with the same slot.
  lemma SlotUnique(h: Header, v: int, q: int)
    requires |h.index| >= 1 && Slot(h, v) == Slot(h, q) && v < q <= v + |h.index|
    ensures q == v + |h.index|
  {
    var n := |h.index|;
    DivMod(v + h.off, n);
    DivMod(q + h.off, n);
    var d := (q + h.off) / n - (v + h.off) / n;
    Distribute((q + h.off) / n, (v + h.off) / n, 0, n);
    assert d * n == q - v;
    if d >= 2 {
      MulAtLeast(d - 1, n);
      Distribute(d, 1, 0, n);
    }
  }

  // Different entries, for blocks less than the capacity apart.
  lemma RefUnique(headers: seq<Header>, newest: Header, count: nat, block: nat, v: int, q: int)
    requires |headers| >= 1 && newest == headers[|headers| - 1] && Aligned(headers, newest) && HeaderOk(newest, count, block)
    requires Ref(newest, v) == Ref(newest, q) && v <= q < v + |newest.index|
    ensures v == q
  {
    RefIn(newest, count, block, q);
    RefIn(newest, count, block, v);
    assert Slot(headers[|headers| - 1], v) == Slot(newest, q);
    if v < q {
      SlotUnique(newest, v, q);
    }
  }

  lemma ExactNext(headers: seq<Header>, newest: Header, entries: seq<Entry>, block: nat, from: int, peak: int, w: int, now: int)
    requires |headers| >= 1 && newest == headers[|headers| - 1] && Aligned(headers, newest) && HeaderOk(newest, |entries|, block)
    requires KeysExact(newest, entries, block, from, peak) && peak - |newest.index| < w <= peak + 1
    requires now == if w == peak + 1 then w else peak
    ensures KeysExact(newest, SetKey(entries, Ref(newest, w), Base(w, block)), block, from, now)
  {
    var e := Ref(newest, w);
    RefIn(newest, |entries|, block, w);
    forall q | from <= q <= now && now - |newest.index| < q
      ensures Key(SetKey(entries, e, Base(w, block)), Ref(newest, q)) == Base(q, block)
    {
      if Ref(newest, q) == e {
        if q <= w {
          RefUnique(headers, newest, |entries|, block, q, w);
        } else {
          RefUnique(headers, newest, |entries|, block, w, q);
        }
      }
    }
  }

  // The block whose slot a new one takes is not in the index any more.
  lemma ValuesPeak(newest: Header, entries: seq<Entry>, block: nat, from: int, high: int, peak: int, now: int)
    requires ValuesOk(newest, entries, block, from, high, peak) && |newest.index| >= 1
    requires now == peak || (now == peak + 1 && Value(entries, Ref(newest, now)) == None)
    ensures ValuesOk(newest, entries, block, from, high, now)
  {
    SlotPeriod(newest, peak + 1);
    forall e | 0 <= e < |entries| ensures ValueOk(newest, e, entries[e], block, from, high, now) {
      assert ValueOk(newest, e, entries[e], block, from, high, peak);
    }
  }

  // A free slot is not that of an unpublished block.
  lemma FreeIsPublished(s: State)
    requires Inv(s) && (s.pc == Idle || s.pc == Grown) && Value(s.entries, Ref(Newest(s), s.top + 1)) == None
    ensures s.top + 1 <= s.published + |Newest(s).index|
  {
    var q := s.top + 1 - |Newest(s).index|;
    NewestOk(s);
    SlotPeriod(Newest(s), s.top + 1);
    assert !Live(Newest(s), s.entries, q);
  }

  lemma EnteredProducer(s: State, t: State, e: nat)
    requires ProducerOk(s) && (s.pc == Idle || s.pc == Grown) && s.published <= s.top <= s.peak && e < |s.entries|
    requires e == Ref(Newest(s), s.top + 1) && Value(s.entries, e) == None
    requires t == s.(entries := SetKey(s.entries, e, Base(s.top + 1, s.block)), peak := t.peak, pc := Keyed) && t.peak > s.top
    ensures ProducerOk(t) && s.high == s.top
  {
    KeyStays(Newest(s), s.entries, e, Base(s.top + 1, s.block), s.published, s.high);
    NoneStays(Newest(s), s.entries, e, Base(s.top + 1, s.block), s.published, s.published);
    hide AllLive, NoneLive, Base, Ref;
  }

  lemma EnteredTables(s: State, w: nat, now: int)
    requires Inv(s) && w == s.top + 1 && now == (if s.peak <= s.top then w else s.peak)
    requires Value(s.entries, Ref(Newest(s), w)) == None && Base(w, s.block) != INVALID
    ensures KeysFit(s.headers, SetKey(s.entries, Ref(Newest(s), w), Base(w, s.block)), s.block)
    ensures ValuesOk(Newest(s), SetKey(s.entries, Ref(Newest(s), w), Base(w, s.block)), s.block, s.from, s.high, now)
    ensures TailKeys(s.headers, Newest(s), SetKey(s.entries, Ref(Newest(s), w), Base(w, s.block)), s.from, s.high)
    ensures KeysExact(Newest(s), SetKey(s.entries, Ref(Newest(s), w), Base(w, s.block)), s.block, s.from, now)
  {
    var n := Newest(s);
    NewestOk(s);
    hide HeaderOk, HeadersOk, KeysFit, Aligned, ValuesOk, TailKeys, KeysExact, ProducerOk, ReadersOk, Base, Slot, Ref, SetKey;
    ValuesPeak(n, s.entries, s.block, s.from, s.high, s.peak, now);
    ExactNext(s.headers, n, s.entries, s.block, s.from, s.peak, w, now);
    KeyFits(s.headers, n, s.entries, s.block, w);
    ValuesKey(n, s.entries, s.block, s.from, s.high, now, Ref(n, w), Base(w, s.block));
    TailKeysKey(s.headers, n, s.entries, s.from, s.high, Ref(n, w), Base(w, s.block));
  }

  lemma ReadersKey(s: State, t: State, e: nat, key: nat)
    requires ReadersOk(s) && key != INVALID
    requires t == s.(entries := SetKey(s.entries, e, key), peak := t.peak, pc := t.pc)
    ensures ReadersOk(t)
  {
    forall r | r in t.readers ensures ReaderOk(t.readers[r], t.headers, Newest(t), t.entries, t.published, t.block) {
      ReaderKey(s.readers[r], s.headers, Newest(s), s.entries, s.published, s.block, e, key);
    }
  }

  lemma EnterIs(s: State, step: Step, now: int)
    requires Sound(s) && Enabled(s, step) && (step == Enter || step == EnterGrown) && now == (if s.peak <= s.top then s.top + 1 else s.peak)
    ensures Do(s, step) == s.(entries := SetKey(s.entries, Ref(Newest(s), s.top + 1), Base(s.top + 1, s.block)), peak := now, pc := Keyed)
    ensures s.pc == Idle || s.pc == Grown
  {
  }

  lemma EnteredSound(s: State, t: State)
    requires Sound(s) && s.top + 1 <= s.published + |Newest(s).index| && s.high == s.top
    requires t.entries == s.entries || |t.entries| == |s.entries|
    requires t == s.(entries := t.entries, peak := (if s.peak <= s.top then s.top + 1 else s.peak), pc := Keyed)
    ensures Sound(t) && Newest(t) == Newest(s)
  {
  }

  lemma KeySetLength(entries: seq<Entry>, e: nat, key: nat)
    ensures |SetKey(entries, e, key)| == |entries|
  {
  }

  // The key of the next block, in a free entry.
  lemma Entered(s: State, step: Step)
    requires Inv(s) && Enabled(s, step) && (step == Enter || step == EnterGrown)
    ensures Inv(Do(s, step))
  {
    hide HeadersOk, HeaderOk, KeysFit, Aligned, ValuesOk, TailKeys, KeysExact, ProducerOk, ReadersOk, Base, Slot, Ref, Do, Enabled, Value,
      SizesOk, SetKey, Sound, Newest;
    Parts(s);
    var w := s.top + 1;
    var e := Ref(Newest(s), w);
    var now := if s.peak <= s.top then w else s.peak;
    EnterIs(s, step, now);
    var t := s.(entries := SetKey(s.entries, e, Base(w, s.block)), peak := now, pc := Keyed);
    SlotFree(s);
    FreeIsPublished(s);
    BaseIsValid(w, s.block, |Newest(s).index|);
    RefIn(Newest(s), |s.entries|, s.block, w);
    EnteredTables(s, w, now);
    EnteredProducer(s, t, e);
    KeySetLength(s.entries, e, Base(w, s.block));
    EnteredSound(s, t);
    ReadersKey(s, t, e, Base(w, s.block));
  }

  lemma NoneStays(h: Header, entries: seq<Entry>, e: nat, key: nat, lo: int, hi: int)
    requires NoneLive(h, entries, lo, hi)
    ensures NoneLive(h, SetKey(entries, e, key), lo, hi)
  {
    forall q | lo < q <= hi ensures !Live(h, SetKey(entries, e, key), q) {
      assert !Live(h, entries, q);
    }
  }

  lemma Stored(s: State)
    requires Inv(s) && Enabled(s, StoreBlock)
    ensures Inv(Do(s, StoreBlock))
  {
    var n := Newest(s);
    var e := Ref(n, s.top);
    var t := Do(s, StoreBlock);
    NewestOk(s);
    RefIn(n, |s.entries|, s.block, s.top);
    assert AllLive(n, t.entries, s.high - 1, s.high) by {
      assert Live(n, t.entries, s.high);
    }
    assert |n.index| >= 1;
    hide HeaderOk, HeadersOk, KeysFit, Aligned, ValuesOk, TailKeys, ReaderOk, Base, Slot, Ref, Live;
    ValueStored(n, s.entries, e, s.top, s.published, s.high - 1);
    ValuesStored(n, s.entries, s.block, s.from, s.high, s.peak, e, s.top);
    KeysUnchanged(s.headers, n, s.entries, t.entries, s.block, s.from, s.high);
    forall r | r in t.readers ensures ReaderOk(t.readers[r], t.headers, n, t.entries, t.published, t.block) {
      ReaderStored(s.readers[r], s.headers, n, s.entries, s.published, s.block, e, s.top);
    }
  }

  lemma KeysUnchanged(headers: seq<Header>, newest: Header, entries: seq<Entry>, now: seq<Entry>, block: nat, from: int, high: int)
    requires KeysFit(headers, entries, block) && TailKeys(headers, newest, entries, from, high)
    requires |now| == |entries| && forall e :: 0 <= e < |entries| ==> now[e].key == entries[e].key
    ensures KeysFit(headers, now, block) && TailKeys(headers, newest, now, from, high)
    ensures forall peak: int :: KeysExact(newest, entries, block, from, peak) ==> KeysExact(newest, now, block, from, peak)
  {
    forall h, i | 0 <= h < |headers| && 0 <= i < |headers[h].index|
      ensures Fits(headers[h], i, Key(now, headers[h].index[i]), block)
    {
      assert Fits(headers[h], i, Key(entries, headers[h].index[i]), block);
    }
  }

  // An entry loses its block q.
  lemma Removed(s: State, t: State, e: nat, q: nat)
    requires Inv(s) && Value(s.entries, e) in {None, Some(q)} && forall r | r in s.readers :: !Needs(s.readers[r], q)
    requires t == s.(entries := SetValue(s.entries, e, None), pc := t.pc) && ProducerOk(t)
    ensures Inv(t)
  {
    var n := Newest(s);
    hide HeaderOk, HeadersOk, KeysFit, Aligned, ValuesOk, TailKeys, ReaderOk, Base, Slot, Ref, AllLive, ProducerOk;
    ValuesCleared(n, s.entries, s.block, s.from, s.high, s.peak, e);
    KeysUnchanged(s.headers, n, s.entries, t.entries, s.block, s.from, s.high);
    forall r | r in t.readers ensures ReaderOk(t.readers[r], t.headers, n, t.entries, t.published, t.block) {
      ReaderCleared(s.readers[r], s.headers, n, s.entries, s.published, s.block, e, q);
    }
  }

  lemma NoneCleared(h: Header, entries: seq<Entry>, e: nat, lo: int, hi: int)
    requires NoneLive(h, entries, lo, hi)
    ensures NoneLive(h, SetValue(entries, e, None), lo, hi)
  {
    forall q | lo < q <= hi ensures !Live(h, SetValue(entries, e, None), q) {
      assert !Live(h, entries, q);
    }
  }

  lemma ProducerCleared(s: State, t: State, e: nat, q: nat)
    requires ProducerOk(s) && Value(s.entries, e) in {None, Some(q)} && t == s.(entries := SetValue(s.entries, e, None))
    requires q <= s.published <= s.top <= s.high
    ensures ProducerOk(t)
  {
    ValueCleared(Newest(s), s.entries, e, q, LastCleared(s), if s.pc == Tailed then s.high - 1 else s.high);
    NoneCleared(Newest(s), s.entries, e, s.published, LastCleared(s));
    hide AllLive, NoneLive, Base, Ref;
    assert forall x: nat :: Key(t.entries, x) == Key(s.entries, x);
    assert forall x: nat :: Value(t.entries, x) == None || Value(t.entries, x) == Value(s.entries, x);
  }

  // The last dequeuer of a published block clears its entry, at any time.
  lemma Released(s: State, q: nat)
    requires Inv(s) && Enabled(s, Release(q))
    ensures Inv(Do(s, Release(q)))
  {
    hide HeaderOk, KeysFit, Aligned, ValuesOk, TailKeys, ReaderOk, ProducerOk, Base, Slot, Ref;
    ProducerCleared(s, Do(s, Release(q)), Ref(Newest(s), q), q);
    Removed(s, Do(s, Release(q)), Ref(Newest(s), q), q);
  }

  // ---- the tail moves --------------------------------------------------------------------------

  lemma StepBy(tail: nat, d: int)
    requires tail < TWO64 && (d == 1 || d == -1) && tail + d < TWO64
    ensures U64(tail + U64(d)) == U64(tail + d) && (d == 1 ==> U64(tail + d) == tail + 1)
  {
  }

  lemma SlotMoves(h: Header, top: int, block: nat, d: int)
    requires SizesOk(block, |h.index|) && h.tail == Slot(h, top) && (d == 1 || d == -1)
    ensures And(U64(h.tail + d), |h.index| - 1) == Slot(h, top + d)
    ensures d == 1 ==> And(h.tail + 1, |h.index| - 1) == Slot(h, top + 1)
  {
    var m := Divides(block, |h.index|);
    assert h.tail < |h.index| && 2 * |h.index| <= TWO64 by {
      assert 2 * |h.index| <= block * |h.index|;
    }
    StepBy(h.tail, d);
    hide And, U64;
    SlotSum(h.tail, d, h.off, top, top + d, |h.index|, m, block, 0);
  }

  lemma SlotPeriod(h: Header, q: int)
    requires |h.index| >= 1
    ensures Ref(h, q - |h.index|) == Ref(h, q)
  {
    var n := |h.index|;
    DivMod(q + h.off, n);
    Distribute((q + h.off) / n, 1, 0, n);
    ModUnique(q - n + h.off, n, (q + h.off) / n - 1, (q + h.off) % n);
  }

  // The same indices, but for the tails.
  ghost predicate SameIndices(headers: seq<Header>, now: seq<Header>) {
    |now| == |headers| && forall h {:trigger now[h]} {:trigger headers[h]} :: 0 <= h < |headers| ==>
      now[h].index == headers[h].index && now[h].off == headers[h].off
  }

  lemma SameFits(headers: seq<Header>, now: seq<Header>, newest: Header, newestNow: Header, entries: seq<Entry>, block: nat)
    requires SameIndices(headers, now) && newestNow.index == newest.index && newestNow.off == newest.off
    requires KeysFit(headers, entries, block) && Aligned(headers, newest)
    ensures KeysFit(now, entries, block) && Aligned(now, newestNow)
  {
    forall h, i | 0 <= h < |now| && 0 <= i < |now[h].index|
      ensures Fits(now[h], i, Key(entries, now[h].index[i]), block)
    {
      assert Fits(headers[h], i, Key(entries, headers[h].index[i]), block);
      var key := Key(entries, headers[h].index[i]);
      if key != INVALID {
        var w: nat :| key == Base(w, block) && Slot(headers[h], w) == i;
        assert Slot(now[h], w) == i;
      }
    }
    forall h, i, w | 0 <= h < |now| && 0 <= i < |now[h].index| && Ref(newestNow, w) == now[h].index[i]
      ensures Slot(now[h], w) == i
    {
      assert Ref(newest, w) == headers[h].index[i];
    }
  }

  lemma SameLive(h: Header, now: Header, entries: seq<Entry>, lo: int, hi: int)
    requires now.index == h.index && now.off == h.off
    ensures AllLive(h, entries, lo, hi) ==> AllLive(now, entries, lo, hi)
    ensures NoneLive(h, entries, lo, hi) ==> NoneLive(now, entries, lo, hi)
  {
    assert forall q :: Ref(now, q) == Ref(h, q);
    assert forall q {:trigger Live(h, entries, q)} {:trigger Live(now, entries, q)} :: Live(now, entries, q) == Live(h, entries, q);
  }

  lemma SameReader(r: Reader, headers: seq<Header>, now: seq<Header>, newest: Header, newestNow: Header, entries: seq<Entry>, published: int, block: nat)
    requires SameIndices(headers, now) && newestNow.index == newest.index && newestNow.off == newest.off
    requires ReaderOk(r, headers, newest, entries, published, block)
    ensures ReaderOk(r, now, newestNow, entries, published, block)
  {
    SameLive(newest, newestNow, entries, r.next - 1, r.last);
    if !r.Claimed? {
      SameLive(headers[r.h], now[r.h], entries, r.next - 1, r.last);
      if r.HasBase? {
        var w: nat :| r.base == Base(w, block) && Slot(headers[r.h], w) == r.tail;
        assert Slot(now[r.h], w) == r.tail;
      }
    }
  }

  lemma SameTables(headers: seq<Header>, now: seq<Header>, newest: Header, newestNow: Header, entries: seq<Entry>, block: nat,
                   from: int, high: int, later: int, peak: int)
    requires SameIndices(headers, now) && newestNow.index == newest.index && newestNow.off == newest.off
    requires forall h :: 0 <= h < |headers| - 1 ==> now[h] == headers[h]
    requires ValuesOk(newest, entries, block, from, later, peak) && KeysExact(newest, entries, block, from, peak)
    requires TailKeys(headers, newest, entries, from, high)
    requires forall q :: high < q <= later ==> Key(entries, Ref(newest, q)) != INVALID
    ensures ValuesOk(newestNow, entries, block, from, later, peak) && KeysExact(newestNow, entries, block, from, peak)
    ensures TailKeys(now, newestNow, entries, from, later)
  {
    assert forall q {:trigger Ref(newestNow, q)} {:trigger Ref(newest, q)} :: Ref(newestNow, q) == Ref(newest, q);
    forall e | 0 <= e < |entries| ensures ValueOk(newestNow, e, entries[e], block, from, later, peak) {
      assert ValueOk(newest, e, entries[e], block, from, later, peak);
    }
  }

  lemma SameShape(headers: seq<Header>, tail: nat, count: nat, block: nat)
    requires HeadersOk(headers, count, block) && tail < |headers[|headers| - 1].index|
    ensures HeadersOk(SetTail(headers, tail), count, block) && SameIndices(headers, SetTail(headers, tail))
  {
    var now := SetTail(headers, tail);
    forall h | 0 <= h < |now| ensures HeaderOk(now[h], count, block) {
      assert HeaderOk(headers[h], count, block);
    }
  }

  // Setting the tail, and with it the numbers of the last blocks.
  lemma TailMoved(s: State, t: State, tail: nat)
    requires Inv(s) && tail < |Newest(s).index|
    requires t == s.(headers := SetTail(s.headers, tail), top := t.top, high := t.high, pc := t.pc)
    requires -1 <= s.published <= t.top <= t.high <= s.peak && tail == Slot(Newest(s), t.top)
    requires ValuesOk(Newest(s), s.entries, s.block, s.from, t.high, s.peak)
    requires forall q :: s.high < q <= t.high ==> Key(s.entries, Ref(Newest(s), q)) != INVALID
    requires ProducerOk(t)
    ensures Inv(t)
  {
    var n, m := Newest(s), Newest(t);
    assert m == n.(tail := tail);
    assert Slot(m, t.top) == Slot(n, t.top);
    SameShape(s.headers, tail, |s.entries|, s.block);
    hide HeadersOk, HeaderOk, KeysFit, Aligned, TailKeys, ValuesOk, KeysExact, ProducerOk, ReaderOk, Ref, Slot, Key, SameIndices;
    SameTables(s.headers, t.headers, n, m, s.entries, s.block, s.from, s.high, t.high, s.peak);
    SameFits(s.headers, t.headers, n, m, s.entries, s.block);
    forall r | r in t.readers ensures ReaderOk(t.readers[r], t.headers, m, t.entries, t.published, t.block) {
      SameReader(s.readers[r], s.headers, t.headers, n, m, s.entries, s.published, s.block);
    }
  }

  lemma ValuesHigher(newest: Header, entries: seq<Entry>, block: nat, from: int, high: int, peak: int)
    requires ValuesOk(newest, entries, block, from, high, peak)
    ensures ValuesOk(newest, entries, block, from, high + 1, peak)
  {
    forall e | 0 <= e < |entries| ensures ValueOk(newest, e, entries[e], block, from, high + 1, peak) {
      assert ValueOk(newest, e, entries[e], block, from, high, peak);
    }
  }

  lemma ValuesLower(newest: Header, entries: seq<Entry>, block: nat, from: int, high: int, peak: int, low: int)
    requires ValuesOk(newest, entries, block, from, high, peak) && low <= high && NoneLive(newest, entries, low, high)
    ensures ValuesOk(newest, entries, block, from, low, peak)
  {
    forall e | 0 <= e < |entries| ensures ValueOk(newest, e, entries[e], block, from, low, peak) {
      assert ValueOk(newest, e, entries[e], block, from, high, peak);
      if entries[e].value.Some? {
        assert Live(newest, entries, entries[e].value.value);
      }
    }
  }

  lemma NewestTail(s: State, t: State, tail: nat)
    requires |s.headers| >= 1 && t.headers == SetTail(s.headers, tail) && t.entries == s.entries
    ensures Newest(t) == Newest(s).(tail := tail) && forall q :: Ref(Newest(t), q) == Ref(Newest(s), q)
  {
  }

  lemma StoredProducer(s: State, t: State, tail: nat)
    requires ProducerOk(s) && s.pc == Keyed && |s.headers| >= 1 && s.published <= s.top
    requires t == s.(headers := SetTail(s.headers, tail), top := s.top + 1, high := s.high + 1, pc := Tailed)
    ensures ProducerOk(t) && s.high == s.top < s.peak
    ensures Key(s.entries, Ref(Newest(s), s.top + 1)) == Base(s.top + 1, s.block)
  {
    NewestTail(s, t, tail);
    SameLive(Newest(s), Newest(t), s.entries, s.published, s.high);
    SameLive(Newest(s), Newest(t), s.entries, s.published, s.published);
    hide AllLive, NoneLive, Ref, Base, Key, Value;
  }

  lemma StoreTailIs(s: State, tail: nat)
    requires Sound(s) && Enabled(s, StoreTail) && tail == And(Newest(s).tail + 1, |Newest(s).index| - 1)
    ensures Do(s, StoreTail) == s.(headers := SetTail(s.headers, tail), top := s.top + 1, high := s.high + 1, pc := Tailed)
    ensures s.pc == Keyed
  {
  }

  // The invariant without its quantifiers.
  lemma Parts(s: State)
    requires Inv(s)
    ensures Sound(s) && |s.headers| >= 1 && -1 <= s.published <= s.top <= s.high <= s.peak && s.from <= s.published + 1
    ensures HeaderOk(Newest(s), |s.entries|, s.block) && SizesOk(s.block, |Newest(s).index|)
    ensures Newest(s).tail == Slot(Newest(s), s.top) < |Newest(s).index|
    ensures ProducerOk(s) && ValuesOk(Newest(s), s.entries, s.block, s.from, s.high, s.peak)
    ensures Aligned(s.headers, Newest(s)) && Newest(s) == s.headers[|s.headers| - 1]
  {
    NewestOk(s);
  }

  // The tail goes to the block entered.
  lemma TailStored(s: State)
    requires Inv(s) && Enabled(s, StoreTail)
    ensures Inv(Do(s, StoreTail))
  {
    hide *;
    Parts(s);
    var n := Newest(s);
    SlotMoves(n, s.top, s.block, 1);
    var tail := And(n.tail + 1, |n.index| - 1);
    StoreTailIs(s, tail);
    var t := s.(headers := SetTail(s.headers, tail), top := s.top + 1, high := s.high + 1, pc := Tailed);
    RefIn(n, |s.entries|, s.block, s.top + 1);
    BaseIsValid(s.top + 1, s.block, |n.index|);
    ValuesHigher(n, s.entries, s.block, s.from, s.high, s.peak);
    StoredProducer(s, t, tail);
    assert |n.index| >= 1;
    TailMoved(s, t, tail);
  }

  lemma RewoundProducer(s: State, t: State, tail: nat)
    requires ProducerOk(s) && s.pc == Tailed && |s.headers| >= 1
    requires t == s.(headers := SetTail(s.headers, tail), top := s.top - 1, high := s.high - 1, pc := Undo)
    ensures ProducerOk(t) && s.high == s.top > s.published && NoneLive(Newest(s), s.entries, s.high - 1, s.high)
  {
    NewestTail(s, t, tail);
    SameLive(Newest(s), Newest(t), s.entries, s.published, s.high - 1);
    SameLive(Newest(s), Newest(t), s.entries, s.published, s.published);
    assert NoneLive(Newest(s), s.entries, s.high - 1, s.high);
    hide AllLive, NoneLive, Ref, Base, Key, Value;
  }

  // No block could be had: the tail goes back.
  lemma Rewound(s: State)
    requires Inv(s) && Enabled(s, Rewind)
    ensures Inv(Do(s, Rewind))
  {
    var n := Newest(s);
    var tail := And(U64(n.tail - 1), |n.index| - 1);
    var t := Do(s, Rewind);
    assert t == s.(headers := SetTail(s.headers, tail), top := s.top - 1, high := s.high - 1, pc := Undo);
    NewestOk(s);
    SlotMoves(n, s.top, s.block, -1);
    hide Do, Enabled, ProducerOk, SetTail, Key, KeysFit, Aligned, TailKeys, ValuesOk, KeysExact, ReadersOk, Ref, Base, HeadersOk, NoneLive, And, U64, Slot;
    RewoundProducer(s, t, tail);
    ValuesLower(n, s.entries, s.block, s.from, s.high, s.peak, s.high - 1);
    TailMoved(s, t, tail);
  }

  lemma RewoundNext(s: State)
    requires Inv(s) && Enabled(s, RewindNext)
    ensures Inv(Do(s, RewindNext))
  {
    var n := Newest(s);
    var t := Do(s, RewindNext);
    NewestOk(s);
    SlotMoves(n, s.top, s.block, -1);
    assert ProducerOk(t) by {
      SameLive(n, Newest(t), s.entries, LastCleared(s), s.high);
      SameLive(n, Newest(t), s.entries, s.published, LastCleared(s));
    }
    TailMoved(s, t, And(U64(n.tail - 1), |n.index| - 1));
  }

  // ---- other steps of the producer -------------------------------------------------------------

  lemma ReadersNoted(s: State, t: State)
    requires ReadersOk(s) && s.published <= t.published
    requires t == s.(published := t.published, high := t.high, pc := t.pc)
    ensures ReadersOk(t)
  {
    forall r | r in t.readers ensures ReaderOk(t.readers[r], t.headers, Newest(t), t.entries, t.published, t.block) {
      assert ReaderOk(s.readers[r], s.headers, Newest(s), s.entries, s.published, s.block);
    }
  }

  // Only the producer's own state changes.
  lemma Noted(s: State, step: Step)
    requires Inv(s) && Enabled(s, step) && step in {SeeFull, Fail, Publish}
    ensures Inv(Do(s, step))
  {
    if step == SeeFull {
      FullIs(s);
    }
    hide HeaderOk, HeadersOk, KeysFit, Aligned, ValuesOk, TailKeys, KeysExact, ReadersOk, Base, Slot, Ref, Key, Value;
    ReadersNoted(s, Do(s, step));
  }

  lemma UnpublishedIs(s: State, q: int)
    requires Inv(s) && s.pc == Idle && s.published < q <= s.high
    ensures s.peak - |Newest(s).index| < q
  {
    assert Live(Newest(s), s.entries, q);
    var e := Ref(Newest(s), q);
    assert ValueOk(Newest(s), e, s.entries[e], s.block, s.from, s.high, s.peak);
  }

  // If there is no room, the block whose slot would be taken is in the index.
  lemma FullIs(s: State)
    requires Inv(s) && Enabled(s, SeeFull)
    ensures s.from <= s.top + 1 - |Newest(s).index| <= s.published + 1 && s.peak == s.top
  {
    var n := Newest(s);
    var e := Ref(n, s.top + 1);
    NewestOk(s);
    assert ValueOk(n, e, s.entries[e], s.block, s.from, s.high, s.peak);
    var v := s.entries[e].value.value;
    RefIn(n, |s.entries|, s.block, v);
    RefIn(n, |s.entries|, s.block, s.top + 1);
    assert Slot(s.headers[|s.headers| - 1], v) == Slot(n, s.top + 1);
    SlotUnique(n, v, s.top + 1);
    if s.published + 1 < v {
      UnpublishedIs(s, s.published + 1);
    }
  }

  lemma EntryCleared(s: State)
    requires Inv(s) && Enabled(s, ClearEntry)
    ensures Inv(Do(s, ClearEntry))
  {
    var e := Ref(Newest(s), s.top + 1);
    var t := Do(s, ClearEntry);
    assert SetValue(s.entries, e, None) == s.entries;
    assert t == s.(pc := Reverting);
    hide Do, HeaderOk, HeadersOk, KeysFit, Aligned, ValuesOk, TailKeys, KeysExact, ReadersOk, Base, Slot, Ref, Key, Value, AllLive, NoneLive;
    ReadersNoted(s, t);
  }

  // Where the producer finds the entry of a block it has entered.
  lemma OwnLookup(s: State, q: nat)
    requires Inv(s) && s.top > s.published
    ensures HeaderOk(Newest(s), |s.entries|, s.block) && Key(s.entries, Newest(s).index[Newest(s).tail]) != INVALID
    ensures FindSlot(Newest(s).tail, Key(s.entries, Newest(s).index[Newest(s).tail]), Base(q, s.block), |Newest(s).index|, s.block)
         == Slot(Newest(s), q)
  {
    var n := Newest(s);
    NewestOk(s);
    RefIn(n, |s.entries|, s.block, s.top);
    var key := Key(s.entries, n.index[n.tail]);
    assert Fits(s.headers[|s.headers| - 1], n.tail, key, s.block);
    var w: nat :| key == Base(w, s.block) && Slot(n, w) == n.tail;
    FindIs(n.tail, q, w, 0, n.off, |n.index|, s.block);
  }

  lemma ClearedProducer(s: State, t: State, e: nat, q: nat)
    requires ProducerOk(s) && s.pc == Reverting && q == NextToClear(s) && s.published < s.top && Value(s.entries, e) == Some(q)
    requires e == Ref(Newest(s), q) && t == s.(entries := SetValue(s.entries, e, None), pc := Cleared)
    ensures ProducerOk(t)
  {
    var n := Newest(s);
    assert AllLive(n, s.entries, q, s.high);
    ValueCleared(n, s.entries, e, q, q, s.high);
    NoneCleared(n, s.entries, e, s.published, q - 1);
    assert !Live(n, t.entries, q);
  }

  lemma ClearNextIs(s: State, q: nat)
    requires Inv(s) && Enabled(s, ClearNext) && q == NextToClear(s)
    ensures s.pc == Reverting && s.published < s.top && s.published < q && Live(Newest(s), s.entries, q)
    ensures Do(s, ClearNext) == s.(entries := SetValue(s.entries, Ref(Newest(s), q), None), pc := Cleared)
  {
    assert Live(Newest(s), s.entries, q);
    OwnLookup(s, q);
    RefIn(Newest(s), |s.entries|, s.block, q);
  }

  lemma Unneeded(s: State, q: nat)
    requires Inv(s) && s.published < q
    ensures forall r | r in s.readers :: !Needs(s.readers[r], q)
  {
    forall r | r in s.readers ensures !Needs(s.readers[r], q) {
      assert ReaderOk(s.readers[r], s.headers, Newest(s), s.entries, s.published, s.block);
    }
  }

  // A failed bulk enqueue clears the blocks it had entered, first to last, while the tail goes back.
  lemma NextCleared(s: State)
    requires Inv(s) && Enabled(s, ClearNext)
    ensures Inv(Do(s, ClearNext))
  {
    var q := NextToClear(s);
    assert q >= 0;
    ClearNextIs(s, q);
    Unneeded(s, q);
    hide Do, Enabled, HeadersOk, KeysFit, Aligned, ValuesOk, TailKeys, KeysExact, ReadersOk, ProducerOk, Ref;
    ClearedProducer(s, Do(s, ClearNext), Ref(Newest(s), q), q);
    Removed(s, Do(s, ClearNext), Ref(Newest(s), q), q);
  }

  lemma RevertEnded(s: State)
    requires Inv(s) && Enabled(s, EndRevert)
    ensures Inv(Do(s, EndRevert))
  {
    var n := Newest(s);
    ValuesLower(n, s.entries, s.block, s.from, s.high, s.peak, s.top);
    hide HeaderOk, HeadersOk, KeysFit, Aligned, ValuesOk, ReaderOk, Base, Slot, Ref;
  }

  // ---- doubling the index ----------------------------------------------------------------------

  lemma DoubledIs(h: Header, count: nat, block: nat, top: int)
    requires HeaderOk(h, count, block) && block * (2 * |h.index|) <= TWO64
    ensures HeaderOk(Doubled(h, count, top), count + |h.index|, block)
    ensures Doubled(h, count, top).tail == |h.index| - 1 == Slot(Doubled(h, count, top), top)
  {
    var n := |h.index|;
    var m := Doubled(h, count, top);
    var k: nat :| n == Pow2(k);
    assert Pow2(k + 1) == 2 * n;
    AndMask(n - 1, k + 1);
    ModUnique(n - 1, 2 * n, 0, n - 1);
    forall i | 0 <= i < |m.index| ensures m.index[i] < count + n {
      if i < n {
        assert m.index[i] == h.index[(h.tail + 1 + i) % n];
      }
    }
  }

  // The first half has the old entries, which have the same blocks as before; the second half has new ones.
  lemma DoubledRef(h: Header, count: nat, block: nat, top: int, w: int)
    requires HeaderOk(h, count, block) && h.tail == Slot(h, top)
    ensures var m := Doubled(h, count, top);
            && |m.index| == 2 * |h.index| && Slot(m, w) < |m.index| && Ref(m, w) == m.index[Slot(m, w)]
            && (Slot(m, w) < |h.index| ==> Ref(m, w) == Ref(h, w) < count)
            && (Slot(m, w) >= |h.index| ==> Ref(m, w) == count + Slot(m, w) - |h.index|)
            && (top - |h.index| < w <= top ==> Slot(m, w) == w + |h.index| - 1 - top)
            && (w == top + 1 ==> Slot(m, w) == |h.index|)
  {
    var n := |h.index|;
    var m := Doubled(h, count, top);
    GrowSlot(w, top, h.off, n);
    var i := Slot(m, w);
    if i < n {
      assert m.index[i] == h.index[(h.tail + 1 + i) % n];
      assert h.index[(w + h.off) % n] < count;
    }
  }

  // The state after new_block_index, in terms of the state before.
  ghost predicate Grew(s: State, t: State) {
    && Inv(s) && s.pc == Full && s.block * (2 * |Newest(s).index|) <= TWO64
    && Newest(s).tail < |Newest(s).index|
    && t == s.(headers := s.headers + [Doubled(Newest(s), |s.entries|, s.top)],
               entries := s.entries + seq(|Newest(s).index|, _ => Entry(INVALID, None)),
               from := s.top - |Newest(s).index| + 1, pc := Grown)
  }

  lemma GrewRef(s: State, t: State, q: int)
    requires Grew(s, t) && s.top - |Newest(s).index| < q <= s.top
    ensures Ref(Newest(t), q) == Ref(Newest(s), q) < |s.entries|
    ensures Live(Newest(s), s.entries, q) <==> Live(Newest(t), t.entries, q)
  {
    NewestOk(s);
    DoubledRef(Newest(s), |s.entries|, s.block, s.top, q);
  }

  lemma GrewShape(s: State, t: State)
    requires Grew(s, t)
    ensures Sound(t) && Newest(t).tail == Slot(Newest(t), t.top)
  {
    NewestOk(s);
    DoubledIs(Newest(s), |s.entries|, s.block, s.top);
    hide Doubled;
    forall h | 0 <= h < |t.headers| ensures HeaderOk(t.headers[h], |t.entries|, t.block) {
      if h < |s.headers| {
        assert HeaderOk(s.headers[h], |s.entries|, s.block);
      }
    }
  }

  lemma GrewKeys(s: State, t: State)
    requires Grew(s, t)
    ensures KeysFit(t.headers, t.entries, t.block)
  {
    var n, m := Newest(s), Newest(t);
    NewestOk(s);
    var c := |n.index|;
    forall h, i | 0 <= h < |t.headers| && 0 <= i < |t.headers[h].index|
      ensures Fits(t.headers[h], i, Key(t.entries, t.headers[h].index[i]), t.block)
    {
      if h < |s.headers| {
        assert HeaderOk(s.headers[h], |s.entries|, s.block);
        assert Fits(s.headers[h], i, Key(s.entries, s.headers[h].index[i]), s.block);
      } else if i < c {
        var q := s.top - c + 1 + i;
        GrewRef(s, t, q);
        DoubledRef(n, |s.entries|, s.block, s.top, q);
        assert Key(s.entries, Ref(n, q)) == Base(q, s.block);
      } else {
        assert m.index[i] == |s.entries| + (i - c);
      }
    }
  }

  lemma GrewAligned(s: State, t: State)
    requires Grew(s, t)
    ensures Aligned(t.headers, Newest(t))
  {
    var n, m := Newest(s), Newest(t);
    NewestOk(s);
    forall h, i, w | 0 <= h < |t.headers| && 0 <= i < |t.headers[h].index| && Ref(m, w) == t.headers[h].index[i]
      ensures Slot(t.headers[h], w) == i
    {
      DoubledRef(n, |s.entries|, s.block, s.top, w);
      if h < |s.headers| {
        assert HeaderOk(s.headers[h], |s.entries|, s.block);
        assert s.headers[h].index[i] < |s.entries|;
        assert Ref(n, w) == s.headers[h].index[i];
      } else {
        DoubledDistinct(s, t, Slot(m, w), i);
      }
    }
  }

  lemma DoubledEntry(s: State, t: State, i: nat)
    requires Grew(s, t) && i < |Newest(t).index|
    ensures i < |Newest(s).index| ==> Newest(t).index[i] == Ref(Newest(s), s.top - |Newest(s).index| + 1 + i) < |s.entries|
    ensures i >= |Newest(s).index| ==> Newest(t).index[i] == |s.entries| + i - |Newest(s).index|
  {
    NewestOk(s);
    if i < |Newest(s).index| {
      DoubledRef(Newest(s), |s.entries|, s.block, s.top, s.top - |Newest(s).index| + 1 + i);
    }
  }

  lemma GrewFrom(s: State, t: State)
    requires Grew(s, t)
    ensures Inv(s) && |Newest(t).index| == 2 * |Newest(s).index|
  {
    NewestOk(s);
    hide Inv;
  }

  // No entry is twice in the new index.
  lemma DoubledDistinct(s: State, t: State, i: nat, j: nat)
    requires Grew(s, t) && i < |Newest(t).index| && j < |Newest(t).index| && Newest(t).index[i] == Newest(t).index[j]
    ensures i == j
  {
    hide *;
    var n := Newest(s);
    var first := s.top - |n.index| + 1;
    GrewFrom(s, t);
    Parts(s);
    DoubledEntry(s, t, i);
    DoubledEntry(s, t, j);
    if i < |n.index| && j < |n.index| {
      if i <= j {
        RefUnique(s.headers, n, |s.entries|, s.block, first + i, first + j);
      } else {
        RefUnique(s.headers, n, |s.entries|, s.block, first + j, first + i);
      }
    }
  }

  lemma GrewValues(s: State, t: State)
    requires Grew(s, t)
    ensures ValuesOk(Newest(t), t.entries, t.block, t.from, t.high, t.peak)
    ensures KeysExact(Newest(t), t.entries, t.block, t.from, t.peak)
    ensures TailKeys(t.headers, Newest(t), t.entries, t.from, t.high)
  {
    var n, m := Newest(s), Newest(t);
    NewestOk(s);
    forall e | 0 <= e < |t.entries| ensures ValueOk(m, e, t.entries[e], t.block, t.from, t.high, t.peak) {
      if e < |s.entries| {
        assert ValueOk(n, e, s.entries[e], s.block, s.from, s.high, s.peak);
        if s.entries[e].value.Some? {
          GrewRef(s, t, s.entries[e].value.value);
        }
      }
    }
    forall q | t.from <= q <= t.peak
      ensures Key(t.entries, Ref(m, q)) == Base(q, t.block) && Key(t.entries, Ref(m, q)) != INVALID
    {
      GrewRef(s, t, q);
      BaseIsValid(q, s.block, |n.index|);
      assert Key(s.entries, Ref(n, q)) == Base(q, s.block);
    }
    forall h | 0 <= h < |t.headers| - 1
      ensures t.headers[h].tail < |t.headers[h].index| && Key(t.entries, t.headers[h].index[t.headers[h].tail]) != INVALID
    {
      assert HeaderOk(s.headers[h], |s.entries|, s.block);
      RefIn(n, |s.entries|, s.block, s.top);
    }
  }

  lemma GrewReaders(s: State, t: State)
    requires Grew(s, t)
    ensures ReadersOk(t)
  {
    var n := Newest(s);
    forall r | r in t.readers ensures ReaderOk(t.readers[r], t.headers, Newest(t), t.entries, t.published, t.block) {
      var x := s.readers[r];
      assert ReaderOk(x, s.headers, n, s.entries, s.published, s.block);
      forall q | x.next - 1 < q <= x.last ensures Live(Newest(t), t.entries, q) {
        assert Live(n, s.entries, q);
        var e := Ref(n, q);
        assert ValueOk(n, e, s.entries[e], s.block, s.from, s.high, s.peak);
        GrewRef(s, t, q);
      }
      if !x.Claimed? {
        forall q | x.next - 1 < q <= x.last ensures Live(t.headers[x.h], t.entries, q) {
          assert Live(s.headers[x.h], s.entries, q);
        }
      }
    }
  }

  lemma GrewProducer(s: State, t: State)
    requires Grew(s, t)
    ensures ProducerOk(t)
  {
    NewestOk(s);
    DoubledRef(Newest(s), |s.entries|, s.block, s.top, s.top + 1);
    forall q | s.published < q <= s.high ensures Live(Newest(t), t.entries, q) {
      assert Live(Newest(s), s.entries, q);
      var e := Ref(Newest(s), q);
      assert ValueOk(Newest(s), e, s.entries[e], s.block, s.from, s.high, s.peak);
      GrewRef(s, t, q);
    }
  }

  // new_block_index publishes an index of twice the size.
  lemma Grows(s: State)
    requires Inv(s) && Enabled(s, Step.Grow)
    ensures Inv(Do(s, Step.Grow))
  {
    var t := Do(s, Step.Grow);
    NewestOk(s);
    assert Grew(s, t);
    hide Do, Enabled, Grew, Sound, KeysFit, Aligned, ValuesOk, TailKeys, KeysExact, ProducerOk, ReadersOk;
    GrewShape(s, t);
    GrewKeys(s, t);
    GrewAligned(s, t);
    GrewValues(s, t);
    GrewReaders(s, t);
    GrewProducer(s, t);
  }

  // ---- dequeuers -------------------------------------------------------------------------------

  lemma ReaderSet(s: State, t: State, r: nat, x: Reader)
    requires Inv(s) && ReaderOk(x, s.headers, Newest(s), s.entries, s.published, s.block)
    requires t == s.(readers := s.readers[r := x])
    ensures Inv(t)
  {
    hide HeadersOk, KeysFit, Aligned, ValuesOk, TailKeys, KeysExact, AllLive, NoneLive, ReaderOk, Base, Slot, Ref;
    assert ProducerOk(t);
    forall k | k in t.readers ensures ReaderOk(t.readers[k], t.headers, Newest(t), t.entries, t.published, t.block) {
      if k != r {
        assert ReaderOk(s.readers[k], s.headers, Newest(s), s.entries, s.published, s.block);
      }
    }
  }

  lemma ReaderGone(s: State, t: State, r: nat)
    requires Inv(s) && t == s.(readers := s.readers - {r})
    ensures Inv(t)
  {
    hide HeadersOk, KeysFit, Aligned, ValuesOk, TailKeys, KeysExact, AllLive, NoneLive, ReaderOk, Base, Slot, Ref;
    assert ProducerOk(t);
    forall k | k in t.readers ensures ReaderOk(t.readers[k], t.headers, Newest(t), t.entries, t.published, t.block) {
      assert ReaderOk(s.readers[k], s.headers, Newest(s), s.entries, s.published, s.block);
    }
  }

  lemma Claims(s: State, r: nat, next: nat, last: nat)
    requires Inv(s) && Enabled(s, Claim(r, next, last))
    ensures Inv(Do(s, Claim(r, next, last)))
  {
    ReaderSet(s, Do(s, Claim(r, next, last)), r, Claimed(next, last));
  }

  lemma LoadsHeader(s: State, r: nat)
    requires Inv(s) && Enabled(s, LoadHeader(r))
    ensures Inv(Do(s, LoadHeader(r)))
  {
    var x := s.readers[r];
    assert ReaderOk(x, s.headers, Newest(s), s.entries, s.published, s.block);
    ReaderSet(s, Do(s, LoadHeader(r)), r, HasHeader(x.next, x.last, |s.headers| - 1));
  }

  // The tail of any index that a dequeuer has loaded is an entry with a valid key.
  lemma TailIsValid(s: State, r: nat)
    requires Inv(s) && r in s.readers && s.readers[r].HasHeader?
    ensures s.readers[r].h < |s.headers|
    ensures s.headers[s.readers[r].h].tail < |s.headers[s.readers[r].h].index|
    ensures Key(s.entries, s.headers[s.readers[r].h].index[s.headers[s.readers[r].h].tail]) != INVALID
  {
    var x := s.readers[r];
    var n := Newest(s);
    assert ReaderOk(x, s.headers, n, s.entries, s.published, s.block);
    assert HeaderOk(s.headers[x.h], |s.entries|, s.block);
    if x.h == |s.headers| - 1 {
      assert Live(n, s.entries, x.next);
      var e := Ref(n, x.next);
      assert ValueOk(n, e, s.entries[e], s.block, s.from, s.high, s.peak);
      RefIn(n, |s.entries|, s.block, s.top);
    }
  }

  lemma LoadsTail(s: State, r: nat)
    requires Inv(s) && Enabled(s, LoadTail(r))
    ensures Inv(Do(s, LoadTail(r)))
  {
    var x := s.readers[r];
    assert ReaderOk(x, s.headers, Newest(s), s.entries, s.published, s.block);
    TailIsValid(s, r);
    ReaderSet(s, Do(s, LoadTail(r)), r, HasTail(x.next, x.last, x.h, s.headers[x.h].tail));
  }

  lemma LoadsBase(s: State, r: nat)
    requires Inv(s) && Enabled(s, LoadBase(r))
    ensures Inv(Do(s, LoadBase(r)))
  {
    var x := s.readers[r];
    assert ReaderOk(x, s.headers, Newest(s), s.entries, s.published, s.block);
    var base := Key(s.entries, s.headers[x.h].index[x.tail]);
    assert Fits(s.headers[x.h], x.tail, base, s.block);
    ReaderSet(s, Do(s, LoadBase(r)), r, HasBase(x.next, x.last, x.h, x.tail, base));
  }

  lemma ReaderIs(s: State, r: nat)
    requires Inv(s) && r in s.readers
    ensures ReaderOk(s.readers[r], s.headers, Newest(s), s.entries, s.published, s.block) && s.readers[r].next <= s.readers[r].last
    ensures !s.readers[r].Claimed? ==> s.readers[r].h < |s.headers| && HeaderOk(s.headers[s.readers[r].h], |s.entries|, s.block)
  {
    assert ReaderOk(s.readers[r], s.headers, Newest(s), s.entries, s.published, s.block);
    if !s.readers[r].Claimed? {
      assert HeaderOk(s.headers[s.readers[r].h], |s.entries|, s.block);
    }
  }

  // Whenever the tail and its key were read, the computed slot is that of the element's block.
  lemma FindOk(x: Reader, headers: seq<Header>, newest: Header, entries: seq<Entry>, published: int, block: nat, j: nat)
    requires ReaderOk(x, headers, newest, entries, published, block) && x.HasBase? && j < block
    requires HeaderOk(headers[x.h], |entries|, block)
    ensures ReaderOk(AtSlot(x.next, x.last, x.h, FindSlot(x.tail, x.base, U64(x.next * block + j), |headers[x.h].index|, block)),
                     headers, newest, entries, published, block)
  {
    var h := headers[x.h];
    var w: nat :| x.base == Base(w, block) && Slot(h, w) == x.tail;
    FindIs(x.tail, x.next, w, j, h.off, |h.index|, block);
    hide FindSlot, Base, Live;
  }

  lemma CanFind(s: State, r: nat, j: nat)
    requires Enabled(s, Find(r, j))
    ensures r in s.readers && s.readers[r].HasBase? && j < s.block
  {
  }

  lemma FindStepIs(s: State, r: nat, j: nat)
    requires Sound(s) && Enabled(s, Find(r, j)) && |s.headers[s.readers[r].h].index| >= 1 && s.block >= 1
    ensures var x := s.readers[r];
            var slot := FindSlot(x.tail, x.base, U64(x.next * s.block + j), |s.headers[x.h].index|, s.block);
            Do(s, Find(r, j)) == s.(readers := s.readers[r := AtSlot(x.next, x.last, x.h, slot)])
  {
  }

  lemma Finds(s: State, r: nat, j: nat)
    requires Inv(s) && Enabled(s, Find(r, j))
    ensures Inv(Do(s, Find(r, j)))
  {
    hide *;
    CanFind(s, r, j);
    Parts(s);
    ReaderIs(s, r);
    var x := s.readers[r];
    RefIn(s.headers[x.h], |s.entries|, s.block, 0);
    FindStepIs(s, r, j);
    FindOk(x, s.headers, Newest(s), s.entries, s.published, s.block, j);
    ReaderSet(s, Do(s, Find(r, j)), r, AtSlot(x.next, x.last, x.h, FindSlot(x.tail, x.base, U64(x.next * s.block + j), |s.headers[x.h].index|, s.block)));
  }

  // indexIndex = (indexIndex + 1) & (capacity - 1)
  lemma NextSlot(h: Header, q: nat, slot: nat, count: nat, block: nat)
    requires HeaderOk(h, count, block) && slot == Slot(h, q)
    ensures And(slot + 1, |h.index| - 1) == Slot(h, q + 1)
  {
    var moved := h.(tail := slot);
    assert Slot(moved, q) == Slot(h, q) && Slot(moved, q + 1) == Slot(h, q + 1);
    hide Slot, And;
    SlotMoves(moved, q, block, 1);
  }

  lemma TakeNext(x: Reader, headers: seq<Header>, newest: Header, entries: seq<Entry>, published: int, block: nat)
    requires ReaderOk(x, headers, newest, entries, published, block) && x.AtSlot? && x.next < x.last
    requires HeaderOk(headers[x.h], |entries|, block)
    ensures ReaderOk(AtSlot(x.next + 1, x.last, x.h, And(x.slot + 1, |headers[x.h].index| - 1)), headers, newest, entries, published, block)
  {
    NextSlot(headers[x.h], x.next, x.slot, |entries|, block);
    hide And, Slot, Live;
  }

  lemma CanTake(s: State, r: nat)
    requires Enabled(s, Take(r))
    ensures r in s.readers && s.readers[r].AtSlot?
  {
  }

  lemma TakeLast(s: State, r: nat)
    requires Sound(s) && Enabled(s, Take(r)) && s.readers[r].next == s.readers[r].last
    ensures Do(s, Take(r)) == s.(readers := s.readers - {r})
  {
  }

  lemma TakeMore(s: State, r: nat, x: Reader)
    requires Sound(s) && Enabled(s, Take(r)) && x == s.readers[r] && x.next != x.last
    ensures Do(s, Take(r)) == s.(readers := s.readers[r := AtSlot(x.next + 1, x.last, x.h, And(x.slot + 1, |s.headers[x.h].index| - 1))])
  {
  }

  lemma TakesMore(s: State, r: nat, x: Reader)
    requires Inv(s) && Enabled(s, Take(r)) && r in s.readers && x == s.readers[r] && x.AtSlot? && x.next != x.last
    ensures Inv(Do(s, Take(r)))
  {
    hide *;
    Parts(s);
    ReaderIs(s, r);
    TakeMore(s, r, x);
    TakeNext(x, s.headers, Newest(s), s.entries, s.published, s.block);
    RefIn(s.headers[x.h], |s.entries|, s.block, 0);
    ReaderSet(s, Do(s, Take(r)), r, AtSlot(x.next + 1, x.last, x.h, And(x.slot + 1, |s.headers[x.h].index| - 1)));
  }

  // The next block of a claim is in the next slot.
  lemma Takes(s: State, r: nat)
    requires Inv(s) && Enabled(s, Take(r))
    ensures Inv(Do(s, Take(r)))
  {
    hide *;
    CanTake(s, r);
    if s.readers[r].next == s.readers[r].last {
      Parts(s);
      TakeLast(s, r);
      ReaderGone(s, Do(s, Take(r)), r);
    } else {
      TakesMore(s, r, s.readers[r]);
    }
  }

  // ---- all runs --------------------------------------------------------------------------------

  // One index, of the initial capacity, with no block.
  function Start(block: nat, capacity: nat): State
    requires SizesOk(block, capacity)
  {
    State(block, seq(capacity, _ => Entry(INVALID, None)), [Header(Numbers(0, capacity), capacity - 1, 0)], -1, -1, -1, -1, 0, Idle, map[])
  }

  lemma Starts(block: nat, capacity: nat)
    requires SizesOk(block, capacity)
    ensures Inv(Start(block, capacity))
  {
    var s := Start(block, capacity);
    ModUnique(-1, capacity, -1, capacity - 1);
    forall h, i, w | 0 <= h < |s.headers| && 0 <= i < |s.headers[h].index| && Ref(Newest(s), w) == s.headers[h].index[i]
      ensures Slot(s.headers[h], w) == i
    {
    }
  }

  lemma Steps(s: State, step: Step)
    requires Inv(s) && Enabled(s, step)
    ensures Inv(Do(s, step))
  {
    hide Inv, Do, Enabled;
    match step
    case Enter => Entered(s, step);
    case SeeFull => Noted(s, step);
    case StoreTail => TailStored(s);
    case StoreBlock => Stored(s);
    case Rewind => Rewound(s);
    case ClearEntry => EntryCleared(s);
    case Grow => Grows(s);
    case Fail => Noted(s, step);
    case EnterGrown => Entered(s, step);
    case ClearNext => NextCleared(s);
    case RewindNext => RewoundNext(s);
    case EndRevert => RevertEnded(s);
    case Publish => Noted(s, step);
    case Claim(r, next, last) => Claims(s, r, next, last);
    case LoadHeader(r) => LoadsHeader(s, r);
    case LoadTail(r) => LoadsTail(s, r);
    case LoadBase(r) => LoadsBase(s, r);
    case Find(r, j) => Finds(s, r, j);
    case Take(r) => Takes(s, r);
    case Release(q) => Released(s, q);
  }

  ghost predicate Run(states: seq<State>, steps: seq<Step>, block: nat, capacity: nat) {
    && SizesOk(block, capacity) && |states| == |steps| + 1 && states[0] == Start(block, capacity)
    && forall i {:trigger steps[i]} :: 0 <= i < |steps| ==>
         Sound(states[i]) && Enabled(states[i], steps[i]) && states[i + 1] == Do(states[i], steps[i])
  }

  lemma {:induction false} Always(states: seq<State>, steps: seq<Step>, block: nat, capacity: nat, i: nat)
    requires Run(states, steps, block, capacity) && i < |states|
    ensures Inv(states[i])
  {
    if i == 0 {
      Starts(block, capacity);
    } else {
      Always(states, steps, block, capacity, i - 1);
      assert states[i] == Do(states[i - 1], steps[i - 1]);
      Steps(states[i - 1], steps[i - 1]);
    }
  }

  // In every run, a dequeuer that has looked up a block has the entry whose key is the base of that block and
  // whose value is that block, although the producer may have entered, taken back, or doubled in between.
  lemma LookupIsRight(states: seq<State>, steps: seq<Step>, block: nat, capacity: nat, i: nat, r: nat)
    requires Run(states, steps, block, capacity) && i < |states| && r in states[i].readers && states[i].readers[r].AtSlot?
    ensures var s := states[i]; var x := s.readers[r];
            x.h < |s.headers| && x.slot < |s.headers[x.h].index| && s.headers[x.h].index[x.slot] < |s.entries|
            && s.entries[s.headers[x.h].index[x.slot]] == Entry(Base(x.next, s.block), Some(x.next))
  {
    Always(states, steps, block, capacity, i);
    var s := states[i];
    var x := s.readers[r];
    assert ReaderOk(x, s.headers, Newest(s), s.entries, s.published, s.block);
    assert HeaderOk(s.headers[x.h], |s.entries|, s.block);
    assert Live(s.headers[x.h], s.entries, x.next);
    RefIn(s.headers[x.h], |s.entries|, s.block, x.next);
    var e := Ref(s.headers[x.h], x.next);
    assert ValueOk(Newest(s), e, s.entries[e], s.block, s.from, s.high, s.peak);
  }

  // The tail's key that a dequeuer reads is valid.
  lemma TailBaseIsValid(states: seq<State>, steps: seq<Step>, block: nat, capacity: nat, i: nat, r: nat)
    requires Run(states, steps, block, capacity) && i < |states| && r in states[i].readers && states[i].readers[r].HasBase?
    ensures states[i].readers[r].base != INVALID
  {
    Always(states, steps, block, capacity, i);
    var s := states[i];
    assert ReaderOk(s.readers[r], s.headers, Newest(s), s.entries, s.published, s.block);
  }

  // The entry that follows the tail of a doubled index is new.
  lemma GrownIsFresh(states: seq<State>, steps: seq<Step>, block: nat, capacity: nat, i: nat)
    requires Run(states, steps, block, capacity) && i < |states| && states[i].pc == Grown
    ensures Key(states[i].entries, Ref(Newest(states[i]), states[i].top + 1)) == INVALID
  {
    Always(states, steps, block, capacity, i);
  }

  // A failed bulk enqueue finds the entry of each block it has entered, wherever the tail has gone back to.
  lemma RevertFinds(states: seq<State>, steps: seq<Step>, block: nat, capacity: nat, i: nat)
    requires Run(states, steps, block, capacity) && i < |states| && Enabled(states[i], ClearNext)
    ensures var s := states[i]; var n := Newest(s); var q := NextToClear(s);
            && n.tail < |n.index| && |n.index| >= 1 && s.block >= 1
            && var slot := FindSlot(n.tail, Key(s.entries, n.index[n.tail]), Base(q, s.block), |n.index|, s.block);
            slot < |n.index| && Value(s.entries, n.index[slot]) == Some(q)
  {
    Always(states, steps, block, capacity, i);
    var s := states[i];
    var q := NextToClear(s);
    assert Live(Newest(s), s.entries, q);
    OwnLookup(s, q);
    RefIn(Newest(s), |s.entries|, s.block, q);
  }
}
