/**
 * What zlib's deflate_slow keeps true of its window, its hash chains and its symbol buffer.
 * Every byte has an absolute position: data is everything read so far, base is the position of
 * window[0], and keys has the positions whose strings were entered in the hash table, with their hashes.
 */
module DeflateState {
  import opened DeflateHash
  import opened HashTable
  import opened Lz77
  import opened Wrappers

  // ---- the window ------------------------------------------------------------------------------

  // From base on, the window has the data.
  ghost predicate WindowHas(window: seq<bv8>, data: seq<bv8>, base: nat) {
    && base <= |data| <= base + |window|
    && forall i {:trigger window[i]} :: 0 <= i < |data| - base ==> window[i] == data[base + i]
  }

  lemma WindowSlice(window: seq<bv8>, data: seq<bv8>, base: nat, i: nat, j: nat)
    requires WindowHas(window, data, base) && i <= j <= |data| - base
    ensures window[i..j] == data[base + i..base + j]
  {
    forall k | i <= k < j ensures window[k] == data[base + k] {
    }
  }

  // ---- the hash chains -------------------------------------------------------------------------

  // The hash of the string at a.
  ghost function Key(bits: nat, data: seq<bv8>, a: nat): nat
    requires BitsOk(bits) && a + 2 < |data|
  {
    Hash3(bits, 0, data[a], data[a + 1], data[a + 2]) as nat
  }

  // The strings entered begin before end.
  ghost predicate KeysOk(keys: map<nat, nat>, bits: nat, data: seq<bv8>, end: int) {
    && BitsOk(bits)
    && forall a {:trigger keys[a]} | a in keys :: a < end && a + 2 < |data| && keys[a] == Key(bits, data, a)
  }

  ghost predicate Below(keys: map<nat, nat>, end: int) { forall a | a in keys :: a < end }

  // All strings from first to end were entered but those in gaps.
  ghost predicate Complete(keys: map<nat, nat>, first: nat, gaps: set<nat>, end: int) {
    && first <= end && (forall g | g in gaps :: g < end)
    && forall a: nat :: a in keys <==> first <= a < end && a !in gaps
  }

  // The strings of three bytes are still complete when the end moves back.
  lemma CompleteShorter(keys: map<nat, nat>, first: nat, gaps: set<nat>, gaps': set<nat>, end: int, now: int, limit: int)
    requires Complete(keys, first, gaps, end) && 0 <= now <= end && limit <= now && forall a | a in keys :: a < limit
    requires forall g: nat :: g in gaps' <==> g in gaps && g < limit
    requires now <= limit || now <= first
    ensures Complete(keys, if first < now then first else now, gaps', now)
  {
  }

  // The last string entered with hash h is at base + q; there is none above base if q is 0.
  ghost predicate Newest(keys: map<nat, nat>, h: nat, base: nat, q: nat) {
    && (q != 0 ==> base + q in keys && keys[base + q] == h)
    && forall a {:trigger keys[a]} | a in keys && keys[a] == h :: a <= base + q
  }

  // Each head is the position of the last string with that hash; 0 ends a chain.
  ghost predicate HeadsOk(head: seq<nat>, keys: map<nat, nat>, base: nat) {
    forall h {:trigger head[h]} :: 0 <= h < |head| ==> Newest(keys, h, base, head[h])
  }

  // The link of a goes to the last string before it with the same hash, or ends the chain.
  ghost predicate LinkOk(q: nat, a: nat, keys: map<nat, nat>, base: nat) {
    && a in keys && (q != 0 ==> base + q < a && base + q in keys && keys[base + q] == keys[a])
    && forall b {:trigger keys[b]} | b in keys && b < a && keys[b] == keys[a] :: b <= base + q
  }

  // The slot of window index p, which is p modulo the size of the window's half.
  function Slot(p: nat, wsize: nat): nat
    requires p < wsize + wsize
  {
    if p < wsize then p else p - wsize
  }

  // a is in the window, and its slot has not been taken by a later string.
  ghost predicate Live(a: nat, base: nat, wsize: nat, at: nat) { base <= a < base + wsize + wsize && a + wsize > at }

  ghost predicate LinksOk(prev: seq<nat>, keys: map<nat, nat>, base: nat, at: nat) {
    forall a {:trigger Live(a, base, |prev|, at)} | a in keys && Live(a, base, |prev|, at) :: LinkOk(prev[Slot(a - base, |prev|)], a, keys, base)
  }

  // Entering the string at base + p, with hash k.
  lemma Enter(head: seq<nat>, prev: seq<nat>, keys: map<nat, nat>, base: nat, at: nat, p: nat, k: nat)
    requires HeadsOk(head, keys, base) && LinksOk(prev, keys, base, at)
    requires k < |head| && 1 <= |prev| && p < |prev| + |prev| && base + p <= at
    requires Below(keys, base + p)
    ensures HeadsOk(head[k := p], keys[base + p := k], base)
    ensures LinksOk(prev[Slot(p, |prev|) := head[k]], keys[base + p := k], base, at)
  {
    var keys' := keys[base + p := k];
    var prev' := prev[Slot(p, |prev|) := head[k]];
    assert Newest(keys, k, base, head[k]);
    var head' := head[k := p];
    forall h | 0 <= h < |head'| ensures Newest(keys', h, base, head'[h]) {
      assert Newest(keys, h, base, head[h]);
    }
    forall a | a in keys' && Live(a, base, |prev'|, at)
      ensures LinkOk(prev'[Slot(a - base, |prev'|)], a, keys', base)
    {
      if a != base + p {
        assert Live(a, base, |prev|, at);
        assert LinkOk(prev[Slot(a - base, |prev|)], a, keys, base);
        assert Slot(a - base, |prev|) != Slot(p, |prev|);
      }
    }
  }

  // What INSERT_STRING does: the new string's link is the old head of its chain.
  lemma EnterNext(head: seq<nat>, prev: seq<nat>, keys: map<nat, nat>, bits: nat, data: seq<bv8>, base: nat, at: nat, p: nat, k: nat)
    requires KeysOk(keys, bits, data, base + p) && HeadsOk(head, keys, base) && LinksOk(prev, keys, base, at)
    requires k < |head| && 1 <= |prev| && p < |prev| + |prev| && base + p <= at
    requires base + p + 2 < |data| && k == Key(bits, data, base + p)
    ensures KeysOk(keys[base + p := k], bits, data, base + p + 1)
    ensures HeadsOk(head[k := p], keys[base + p := k], base)
    ensures LinksOk(prev[Slot(p, |prev|) := head[k]], keys[base + p := k], base, at)
    ensures LinkOk(head[k], base + p, keys[base + p := k], base)
  {
    assert Below(keys, base + p);
    assert KeysOk(keys[base + p := k], bits, data, base + p + 1);
    hide Key, LinksOk, KeysOk;
    Enter(head, prev, keys, base, at, p, k);
    assert Newest(keys, k, base, head[k]);
  }

  // Entering the next string, or leaving it out.
  lemma CompleteNext(keys: map<nat, nat>, first: nat, gaps: set<nat>, end: nat, k: nat)
    requires Complete(keys, first, gaps, end)
    ensures end !in gaps && end !in keys && Complete(keys[end := k], first, gaps, end + 1)
    ensures Complete(keys, first, gaps + {end}, end + 1)
  {
  }

  lemma LinksLater(prev: seq<nat>, keys: map<nat, nat>, base: nat, at: nat, later: nat)
    requires LinksOk(prev, keys, base, at) && at <= later
    ensures LinksOk(prev, keys, base, later)
  {
    forall a | a in keys && Live(a, base, |prev|, later)
      ensures LinkOk(prev[Slot(a - base, |prev|)], a, keys, base)
    {
      assert Live(a, base, |prev|, at);
    }
  }

  // With no strings entered all chains are empty.
  lemma NoChains(head: seq<nat>, prev: seq<nat>, bits: nat, data: seq<bv8>, base: nat, at: nat, end: nat, first: nat, gaps: set<nat>)
    requires BitsOk(bits) && forall i :: 0 <= i < |head| ==> head[i] == 0
    requires first == end && forall g | g in gaps :: g < end
    ensures KeysOk(map[], bits, data, end) && HeadsOk(head, map[], base) && LinksOk(prev, map[], base, at)
    ensures Complete(map[], first, gaps, end)
  {
  }

  // Sliding the window down by wsize: every position loses wsize, and what falls below becomes 0.
  function Slid(s: seq<nat>, wsize: nat): (r: seq<nat>)
    ensures |r| == |s| && forall i :: 0 <= i < |s| ==> r[i] == if s[i] >= wsize then s[i] - wsize else 0
  {
    seq(|s|, i requires 0 <= i < |s| => if s[i] >= wsize then s[i] - wsize else 0)
  }

  lemma SlideChains(head: seq<nat>, prev: seq<nat>, keys: map<nat, nat>, base: nat, at: nat)
    requires HeadsOk(head, keys, base) && LinksOk(prev, keys, base, at) && Below(keys, base + |prev| + |prev|)
    ensures HeadsOk(Slid(head, |prev|), keys, base + |prev|)
    ensures LinksOk(Slid(prev, |prev|), keys, base + |prev|, at)
  {
    var w := |prev|;
    forall a | a in keys && Live(a, base + w, w, at)
      ensures LinkOk(Slid(prev, w)[Slot(a - (base + w), w)], a, keys, base + w)
    {
      assert Live(a, base, w, at);
      assert Slot(a - (base + w), w) == Slot(a - base, w);
      assert LinkOk(prev[Slot(a - base, w)], a, keys, base);
    }
    forall h | 0 <= h < |head| ensures Newest(keys, h, base + w, Slid(head, w)[h]) {
      assert Newest(keys, h, base, head[h]);
    }
  }

  lemma KeysBelow(keys: map<nat, nat>, bits: nat, data: seq<bv8>, end: int, limit: int)
    requires KeysOk(keys, bits, data, end) && end <= limit
    ensures Below(keys, limit)
  {
  }

  lemma KeysLater(keys: map<nat, nat>, bits: nat, data: seq<bv8>, end: int, later: int)
    requires KeysOk(keys, bits, data, end) && end <= later
    ensures KeysOk(keys, bits, data, later)
  {
  }

  // A string of three bytes begins before the last two.
  lemma KeysEnd(keys: map<nat, nat>, bits: nat, data: seq<bv8>, end: int)
    requires KeysOk(keys, bits, data, end)
    ensures KeysOk(keys, bits, data, |data| - 2)
  {
  }

  lemma KeysStay(keys: map<nat, nat>, bits: nat, data: seq<bv8>, more: seq<bv8>, end: int, later: int)
    requires KeysOk(keys, bits, data, end) && end <= later
    ensures KeysOk(keys, bits, data + more, later)
  {
    forall a | a in keys
      ensures a < later && a + 2 < |data + more| && keys[a] == Key(bits, data + more, a)
    {
      assert a + 2 < |data|;
    }
  }

  // Two strings on one chain with equal first two bytes have equal third bytes.
  lemma SameThird(keys: map<nat, nat>, bits: nat, data: seq<bv8>, end: int, a: nat, b: nat)
    requires KeysOk(keys, bits, data, end) && a in keys && b in keys && keys[a] == keys[b]
    requires a + 2 < |data| && b + 2 < |data| && data[a] == data[b] && data[a + 1] == data[b + 1]
    ensures data[a + 2] == data[b + 2]
  {
    var x := Hash3(bits, 0, data[a], data[a + 1], data[a + 2]);
    var y := Hash3(bits, 0, data[b], data[b + 1], data[b + 2]);
    assert keys[a] == Key(bits, data, a) && keys[b] == Key(bits, data, b);
    hide Hash3;
    assert x as nat == y as nat;
    assert (x as nat) as bv32 == x && (y as nat) as bv32 == y;
    ThirdByte(bits, data[a], data[a + 1], data[a + 2], data[b + 2]);
  }

  // insH is the running hash after the bytes b and c.
  ghost predicate Rolled(bits: nat, insH: bv32, b: bv8, c: bv8) {
    BitsOk(bits) && exists x: bv32 :: insH == UpdateHash(bits, UpdateHash(bits, x, b), c)
  }

  // The next update completes the hash of three bytes, and starts the next.
  lemma RollOn(bits: nat, insH: bv32, b: bv8, c: bv8, d: bv8)
    requires Rolled(bits, insH, b, c)
    ensures UpdateHash(bits, insH, d) == Hash3(bits, 0, b, c, d)
    ensures Rolled(bits, UpdateHash(bits, insH, d), c, d)
  {
    var x: bv32 :| insH == UpdateHash(bits, UpdateHash(bits, x, b), c);
    assert UpdateHash(bits, insH, d) == Hash3(bits, x, b, c, d) == UpdateHash(bits, UpdateHash(bits, UpdateHash(bits, x, b), c), d);
    HashForgets(bits, x, 0, b, c, d);
    hide UpdateHash;
  }

  lemma FirstByte(bits: nat, b: bv8)
    requires BitsOk(bits)
    ensures UpdateHash(bits, 0, b) == b as bv32
  {
    var c := b as bv32;
    assert Shifted(bits, 0) == 0;
    assert Mask(bits) & 0xFF == 0xFF;
    hide Shifted, Mask;
    XorMasked(Shifted(bits, 0), c, Mask(bits));
  }

  lemma XorMasked(z: bv32, c: bv32, m: bv32)
    requires z == 0 && c <= 0xFF && m & 0xFF == 0xFF
    ensures (z ^ c) & m == c
  {
  }

  // fill_window starts the hash with the first byte itself.
  lemma StartRolling(bits: nat, b: bv8, c: bv8)
    requires BitsOk(bits)
    ensures Rolled(bits, UpdateHash(bits, b as bv32, c), b, c)
  {
    hide UpdateHash;
    FirstByte(bits, b);
    assert UpdateHash(bits, b as bv32, c) == UpdateHash(bits, UpdateHash(bits, 0, b), c);
  }

  // ---- the symbol buffer -----------------------------------------------------------------------

  // Three bytes hold a symbol: a distance, low byte first, and a length less 3; or 0 and a literal.
  function Symbol(lo: nat, hi: nat, lc: nat): Token<bv8> {
    var dist := lo + 256 * hi;
    if dist == 0 then Literal(if lc < 256 then lc as bv8 else 0) else Match(dist, lc + 3)
  }

  function Symbols(s: seq<nat>): seq<Token<bv8>> {
    if |s| < 3 then [] else Symbols(s[..|s| - 3]) + [Symbol(s[|s| - 3], s[|s| - 2], s[|s| - 1])]
  }

  lemma SymbolsAppend(s: seq<nat>, lo: nat, hi: nat, lc: nat)
    ensures Symbols(s + [lo, hi, lc]) == Symbols(s) + [Symbol(lo, hi, lc)]
  {
    assert (s + [lo, hi, lc])[..|s|] == s;
  }

  lemma LiteralFits(c: bv8)
    ensures Symbol(0, 0, c as nat) == Literal(c)
  {
    assert (c as nat) as bv8 == c;
  }

  // A distance below 65536 and a length from 3 to 258 survive being cut into bytes.
  lemma MatchFits(dist: nat, len: nat)
    requires 1 <= dist <= 0xFFFF && 3 <= len <= 258
    ensures Symbol(dist % 256, (dist / 256) % 256, (len - 3) % 256) == Match(dist, len)
  {
  }

  // What was sent stands for the data before start, and with the symbols still held, before end.
  ghost predicate TokensOk(sent: seq<Token<bv8>>, held: seq<Token<bv8>>, data: seq<bv8>, start: int, end: int) {
    && 0 <= start <= end <= |data|
    && Output(sent) == Some(data[..start])
    && Output(sent + held) == Some(data[..end])
  }

  lemma HoldLiteral(sent: seq<Token<bv8>>, held: seq<Token<bv8>>, data: seq<bv8>, start: int, end: int)
    requires TokensOk(sent, held, data, start, end) && end < |data|
    ensures TokensOk(sent, held + [Literal(data[end])], data, start, end + 1)
  {
    assert sent + (held + [Literal(data[end])]) == (sent + held) + [Literal(data[end])];
    OutputSnoc(sent + held, Literal(data[end]), data[..end]);
    assert data[..end + 1] == data[..end] + [data[end]];
  }

  lemma HoldMatch(sent: seq<Token<bv8>>, held: seq<Token<bv8>>, data: seq<bv8>, start: int, end: int, dist: nat, len: nat)
    requires TokensOk(sent, held, data, start, end) && Repeats(data, end, end + len, dist)
    ensures TokensOk(sent, held + [Match(dist, len)], data, start, end + len)
  {
    assert sent + (held + [Match(dist, len)]) == (sent + held) + [Match(dist, len)];
    OutputSnoc(sent + held, Match(dist, len), data[..end]);
    CopyContinues(data, end, len, dist);
  }

  lemma SendHeld(sent: seq<Token<bv8>>, held: seq<Token<bv8>>, data: seq<bv8>, start: int, end: int)
    requires TokensOk(sent, held, data, start, end)
    ensures TokensOk(sent + held, [], data, end, end)
  {
    assert (sent + held) + [] == sent + held;
  }

  lemma TokensStay(sent: seq<Token<bv8>>, held: seq<Token<bv8>>, data: seq<bv8>, more: seq<bv8>, start: int, end: int)
    requires TokensOk(sent, held, data, start, end)
    ensures TokensOk(sent, held, data + more, start, end)
  {
    assert (data + more)[..start] == data[..start];
    assert (data + more)[..end] == data[..end];
  }

  // ---- a match ---------------------------------------------------------------------------------

  // The string at p has a match of the given length at m, within the distance deflate allows.
  ghost predicate Found(data: seq<bv8>, m: int, p: int, len: nat, wsize: nat) {
    && 0 <= m < p && p - m <= wsize - 262 && len <= 258
    && Repeats(data, p, p + len, p - m)
  }

  lemma FoundStays(data: seq<bv8>, more: seq<bv8>, m: int, p: int, len: nat, wsize: nat)
    requires Found(data, m, p, len, wsize)
    ensures Found(data + more, m, p, len, wsize)
  {
    forall i | p <= i < p + len ensures (data + more)[i] == (data + more)[i - (p - m)] {
      assert data[i] == data[i - (p - m)];
    }
  }

  // The len bytes at start are those at cur.
  ghost predicate Alike(window: seq<bv8>, cur: nat, start: nat, len: nat) {
    cur < start && start + len <= |window| && forall j {:trigger window[j]} :: start <= j < start + len ==> window[j] == window[j - (start - cur)]
  }

  // They differ within the first n + 1 bytes.
  ghost predicate Differs(window: seq<bv8>, cur: nat, start: nat, n: nat) {
    cur < start && exists j {:trigger window[j]} :: start <= j <= start + n && j < |window| && window[j] != window[j - (start - cur)]
  }

  lemma DiffersAt(window: seq<bv8>, cur: nat, start: nat, n: nat, i: nat)
    requires cur < start && i <= n && start + i < |window| && window[cur + i] != window[start + i]
    ensures Differs(window, cur, start, n)
  {
    var j := start + i;
    assert window[j] != window[j - (start - cur)];
  }

  lemma DiffersMore(window: seq<bv8>, cur: nat, start: nat, n: nat, m: nat)
    requires Differs(window, cur, start, n) && n <= m
    ensures Differs(window, cur, start, m)
  {
  }

  // cur is a window index on the chain of the string at index start, near enough for a match.
  ghost predicate OnChain(cur: nat, start: nat, keys: map<nat, nat>, base: nat, wsize: nat) {
    && 0 < cur < start && start - cur <= wsize - 262
    && base + cur in keys && base + start in keys && keys[base + cur] == keys[base + start]
  }

  // The link of a string near enough for a match is right.
  lemma LinkOnChain(prev: seq<nat>, cur: nat, start: nat, keys: map<nat, nat>, base: nat)
    requires LinksOk(prev, keys, base, base + start + 1) && OnChain(cur, start, keys, base, |prev|) && 262 <= |prev|
    requires start < |prev| + |prev|
    ensures LinkOk(prev[Slot(cur, |prev|)], base + cur, keys, base)
  {
    assert Live(base + cur, base, |prev|, base + start + 1);
    hide LinkOk;
    assert LinkOk(prev[Slot(base + cur - base, |prev|)], base + cur, keys, base);
  }

  // Following a link, unless it ends the chain or leads below limit.
  lemma NextOnChain(prev: seq<nat>, cur: nat, start: nat, keys: map<nat, nat>, base: nat, limit: nat)
    requires LinksOk(prev, keys, base, base + start + 1) && OnChain(cur, start, keys, base, |prev|) && 262 <= |prev|
    requires start < |prev| + |prev|
    requires limit == if start > |prev| - 262 then start - (|prev| - 262) else 0
    ensures prev[Slot(cur, |prev|)] > limit ==> prev[Slot(cur, |prev|)] < cur && OnChain(prev[Slot(cur, |prev|)], start, keys, base, |prev|)
  {
    LinkOnChain(prev, cur, start, keys, base);
  }

  // What longest_match need not compare.
  lemma ThirdAlike(window: seq<bv8>, data: seq<bv8>, base: nat, keys: map<nat, nat>, bits: nat, end: int, cur: nat, start: nat, wsize: nat)
    requires WindowHas(window, data, base) && KeysOk(keys, bits, data, end) && OnChain(cur, start, keys, base, wsize)
    requires base + start + 2 < |data| && window[cur] == window[start] && window[cur + 1] == window[start + 1]
    ensures Alike(window, cur, start, 3)
  {
    hide Key;
    SameThird(keys, bits, data, end, base + cur, base + start);
    assert window[cur + 2] == data[base + (cur + 2)] && window[start + 2] == data[base + (start + 2)];
    assert window[cur + 1] == data[base + (cur + 1)] && window[start + 1] == data[base + (start + 1)];
  }

  lemma FoundFromWindow(window: seq<bv8>, data: seq<bv8>, base: nat, cur: nat, strstart: nat, len: nat, wsize: nat)
    requires WindowHas(window, data, base) && Alike(window, cur, strstart, len)
    requires strstart + len <= |data| - base && len <= 258 && strstart - cur <= wsize - 262
    ensures Found(data, base + cur, base + strstart, len, wsize)
  {
    var p := base + strstart;
    forall i | p <= i < p + len ensures data[i] == data[i - (strstart - cur)] {
      var j := i - base;
      assert window[j] == window[j - (strstart - cur)];
    }
  }
}
