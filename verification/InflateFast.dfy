/**
 * zlib's inflate_fast: decoding literals and matches without checking every input and output byte,
 * copying matches from the output so far and from a circular window.  The input, with the bits left
 * over from before, is a bit stream; Next and Decode say what the tables give at a position of that
 * stream, and CanonicalDecoder that this is what the code lengths mean.
 */
module InflateFast {
  import opened Bits
  import opened HuffmanCode
  import opened Lz77
  import Table = InflateTable

  // ---- the window ------------------------------------------------------------------------------

  // The window holds the last whave bytes, ending at wnext; it wraps only when it is full.
  predicate WindowOk(window: seq<nat>, wsize: nat, whave: nat, wnext: nat) {
    && |window| == wsize && whave <= wsize && (wsize > 0 ==> wnext < wsize) && (wsize == 0 ==> wnext == 0)
    && (whave < wsize ==> wnext == whave)
  }

  // Where the byte `back` bytes before the end of the history is.
  function Index(wsize: nat, wnext: nat, back: nat): int { if back <= wnext then wnext - back else wsize + wnext - back }

  // The history in the window, oldest byte first.
  function History(window: seq<nat>, wsize: nat, whave: nat, wnext: nat): (w: seq<nat>)
    requires WindowOk(window, wsize, whave, wnext)
    ensures |w| == whave
  {
    seq(whave, i requires 0 <= i < whave => window[Index(wsize, wnext, whave - i)])
  }

  // n bytes of the window from index f on are the bytes from `back` before the end of the history.
  lemma Stretch(window: seq<nat>, wsize: nat, whave: nat, wnext: nat, back: nat, n: nat)
    requires WindowOk(window, wsize, whave, wnext) && n <= back <= whave
    requires back <= wnext || n <= back - wnext
    ensures var f := Index(wsize, wnext, back);
      0 <= f && f + n <= wsize
      && window[f..f + n] == History(window, wsize, whave, wnext)[whave - back..whave - back + n]
  {
    var f, w := Index(wsize, wnext, back), History(window, wsize, whave, wnext);
    var a, b := window[f..f + n], w[whave - back..whave - back + n];
    forall i | 0 <= i < n ensures a[i] == b[i] {
      assert Index(wsize, wnext, whave - (whave - back + i)) == f + i;
    }
  }

  // The bytes up to cur are the history with k bytes of the match appended, less the window's part.
  ghost predicate Copied(w: seq<nat>, out: seq<nat>, cur: nat, hist: seq<nat>, dist: nat, k: nat) {
    1 <= dist <= |hist| && cur <= |out| && w + out[..cur] == Copy(hist, dist, k)
  }

  // Only the bytes from lo up to hi have been written.
  ghost predicate Wrote(a: seq<nat>, b: seq<nat>, lo: nat, hi: nat) {
    |a| == |b| && forall i {:trigger b[i]} :: 0 <= i < |a| && !(lo <= i < hi) ==> b[i] == a[i]
  }

  lemma WroteOne(a: seq<nat>, b: seq<nat>, lo: nat, cur: nat, x: nat)
    requires Wrote(a, b, lo, cur) && lo <= cur < |b|
    ensures Wrote(a, b[cur := x], lo, cur + 1)
  {
  }

  lemma WroteMore(a: seq<nat>, b: seq<nat>, c: seq<nat>, lo: nat, mid: nat, hi: nat)
    requires Wrote(a, b, lo, mid) && Wrote(b, c, mid, hi) && lo <= mid <= hi
    ensures Wrote(a, c, lo, hi)
  {
  }

  // One byte of the match.
  lemma CopyOne(w: seq<nat>, before: seq<nat>, cur: nat, hist: seq<nat>, dist: nat, k: nat, b: nat)
    requires cur < |before| && Copied(w, before, cur, hist, dist, k)
    requires b == (w + before[..cur])[|w| + cur - dist]
    ensures Copied(w, before[cur := b], cur + 1, hist, dist, k + 1)
  {
    var after := before[cur := b];
    assert after[..cur + 1] == before[..cur] + [b];
    assert w + (before[..cur] + [b]) == (w + before[..cur]) + [b];
  }

  // n bytes of the match from the window, starting at index f.
  method FromWindow(out: array<nat>, cur0: nat, window: seq<nat>, f0: nat, n: nat, ghost w: seq<nat>, ghost hist: seq<nat>,
                    ghost dist: nat, ghost k: nat)
      returns (cur: nat)
    requires cur0 + n <= out.Length && f0 + n <= |window| && cur0 + n <= dist <= |w| + cur0
    requires window[f0..f0 + n] == w[|w| + cur0 - dist..|w| + cur0 - dist + n]
    requires Copied(w, out[..], cur0, hist, dist, k)
    modifies out
    ensures cur == cur0 + n && Copied(w, out[..], cur, hist, dist, k + n)
    ensures Wrote(old(out[..]), out[..], cur0, cur)
  {
    hide Copied, Wrote;
    WroteNone(out[..], cur0);
    cur := cur0;
    var f: nat, op: nat := f0, n;
    while op > 0
      invariant op <= n && cur == cur0 + (n - op) && f == f0 + (n - op)
      invariant Copied(w, out[..], cur, hist, dist, k + (n - op)) && Wrote(old(out[..]), out[..], cur0, cur)
    {
      ghost var before := out[..];
      assert window[f] == window[f0..f0 + n][n - op] == w[|w| + cur - dist];
      CopyOne(w, before, cur, hist, dist, k + (n - op), window[f]);
      WroteOne(old(out[..]), before, cur0, cur, window[f]);
      out[cur] := window[f];
      assert out[..] == before[cur := window[f]];
      cur, f, op := cur + 1, f + 1, op - 1;
    }
  }

  lemma WroteNone(a: seq<nat>, lo: nat)
    ensures Wrote(a, a, lo, lo)
  {
  }

  // *out++ = *from++ with from == out - dist
  method OutputByte(out: array<nat>, cur: nat, ghost w: seq<nat>, ghost hist: seq<nat>, dist: nat, ghost k: nat,
                    ghost first: seq<nat>, ghost lo: nat)
    requires cur < out.Length && 1 <= dist <= cur && Copied(w, out[..], cur, hist, dist, k)
    requires Wrote(first, out[..], lo, cur) && lo <= cur
    modifies out
    ensures Copied(w, out[..], cur + 1, hist, dist, k + 1) && Wrote(first, out[..], lo, cur + 1)
  {
    hide Copied, Wrote;
    ghost var before := out[..];
    CopyOne(w, before, cur, hist, dist, k, before[cur - dist]);
    WroteOne(first, before, lo, cur, before[cur - dist]);
    out[cur] := out[cur - dist];
    assert out[..] == before[cur := before[cur - dist]];
  }

  // n bytes of the match from the output, dist bytes back.
  method FromOutput(out: array<nat>, cur0: nat, n: nat, ghost w: seq<nat>, ghost hist: seq<nat>, dist: nat, ghost k: nat)
      returns (cur: nat)
    requires cur0 + n <= out.Length && 1 <= dist <= cur0
    requires Copied(w, out[..], cur0, hist, dist, k)
    modifies out
    ensures cur == cur0 + n && Copied(w, out[..], cur, hist, dist, k + n)
    ensures Wrote(old(out[..]), out[..], cur0, cur)
  {
    hide Copied, Wrote;
    ghost var first := out[..];
    WroteNone(first, cur0);
    cur := cur0;
    var len: nat := n;
    while len > 2
      invariant len <= n && cur == cur0 + (n - len)
      invariant Copied(w, out[..], cur, hist, dist, k + (n - len)) && Wrote(first, out[..], cur0, cur)
    {
      OutputByte(out, cur, w, hist, dist, k + (n - len), first, cur0);
      OutputByte(out, cur + 1, w, hist, dist, k + (n - len) + 1, first, cur0);
      OutputByte(out, cur + 2, w, hist, dist, k + (n - len) + 2, first, cur0);
      cur := cur + 3;
      len := len - 3;
    }
    if len != 0 {
      OutputByte(out, cur, w, hist, dist, k + (n - len), first, cur0);
      cur := cur + 1;
      if len > 1 {
        OutputByte(out, cur, w, hist, dist, k + (n - len) + 1, first, cur0);
        cur := cur + 1;
      }
    }
  }

  // n bytes from the window, and the other bytes of the match from the output.
  method WindowThenOutput(out: array<nat>, cur0: nat, window: seq<nat>, from: nat, op: nat, len: nat, ghost w: seq<nat>,
                          ghost hist: seq<nat>, dist: nat, ghost k: nat)
      returns (cur: nat)
    requires cur0 + len <= out.Length && 1 <= op && cur0 + op == dist <= |w| + cur0
    requires from + Min(op, len) <= |window|
    requires window[from..from + Min(op, len)] == w[|w| - op..|w| - op + Min(op, len)]
    requires Copied(w, out[..], cur0, hist, dist, k)
    modifies out
    ensures cur == cur0 + len && Copied(w, out[..], cur, hist, dist, k + len)
    ensures Wrote(old(out[..]), out[..], cur0, cur)
  {
    hide Copied, Wrote;
    if op < len {
      cur := FromWindow(out, cur0, window, from, op, w, hist, dist, k);
      ghost var mid := out[..];
      cur := FromOutput(out, cur, len - op, w, hist, dist, k + op);
      WroteMore(old(out[..]), mid, out[..], cur0, cur0 + op, cur);
    } else {
      cur := FromWindow(out, cur0, window, from, len, w, hist, dist, k);
    }
  }

  function Min(a: nat, b: nat): nat { if a < b then a else b }

  // The match starts behind wnext: some bytes from the end of the window, some from its start.
  method WrapAround(out: array<nat>, cur0: nat, window: seq<nat>, wsize: nat, whave: nat, wnext: nat, op0: nat, len: nat,
                    ghost hist: seq<nat>, dist: nat)
      returns (cur: nat)
    requires WindowOk(window, wsize, whave, wnext) && 0 < wnext < op0 <= whave && op0 + cur0 == dist && cur0 + len <= out.Length
    requires Copied(History(window, wsize, whave, wnext), out[..], cur0, hist, dist, 0)
    modifies out
    ensures cur == cur0 + len && Copied(History(window, wsize, whave, wnext), out[..], cur, hist, dist, len)
    ensures Wrote(old(out[..]), out[..], cur0, cur)
  {
    hide Copied, Wrote, History;
    ghost var w := History(window, wsize, whave, wnext);
    var from := wsize + wnext - op0;
    Stretch(window, wsize, whave, wnext, op0, Min(op0 - wnext, len));
    var op := op0 - wnext;
    if op < len {
      cur := FromWindow(out, cur0, window, from, op, w, hist, dist, 0);
      ghost var mid := out[..];
      Stretch(window, wsize, whave, wnext, wnext, Min(wnext, len - op));
      cur := WindowThenOutput(out, cur, window, 0, wnext, len - op, w, hist, dist, op);
      WroteMore(old(out[..]), mid, out[..], cur0, cur0 + op, cur);
    } else {
      cur := FromWindow(out, cur0, window, from, len, w, hist, dist, 0);
    }
  }

  // The whole copy, the output buffer starting at index 0: contiguous in the window, wrapped around
  // its end, with wnext == 0, or direct from the output; overlapping itself or not.
  method CopyMatch(out: array<nat>, cur0: nat, window: seq<nat>, wsize: nat, whave: nat, wnext: nat, dist: nat, len: nat)
      returns (cur: nat)
    requires WindowOk(window, wsize, whave, wnext)
    requires 1 <= dist <= whave + cur0 && 3 <= len && cur0 + len <= out.Length
    modifies out
    ensures cur == cur0 + len && Wrote(old(out[..]), out[..], cur0, cur)
    ensures History(window, wsize, whave, wnext) + out[..cur]
            == Copy(History(window, wsize, whave, wnext) + old(out[..cur0]), dist, len)
  {
    hide Copied, Wrote, History;
    ghost var w := History(window, wsize, whave, wnext);
    ghost var hist := w + out[..cur0];
    StartCopy(w, out[..], cur0, hist, dist);
    if dist > cur0 {
      var op := dist - cur0;
      if wnext == 0 {
        Stretch(window, wsize, whave, wnext, op, Min(op, len));
        cur := WindowThenOutput(out, cur0, window, wsize - op, op, len, w, hist, dist, 0);
      } else if wnext < op {
        cur := WrapAround(out, cur0, window, wsize, whave, wnext, op, len, hist, dist);
      } else {
        Stretch(window, wsize, whave, wnext, op, Min(op, len));
        cur := WindowThenOutput(out, cur0, window, wnext - op, op, len, w, hist, dist, 0);
      }
    } else {
      cur := FromOutput(out, cur0, len, w, hist, dist, 0);
    }
    EndCopy(w, out[..], cur, hist, dist, len);
    assert out[..][..cur] == out[..cur];
  }

  lemma EndCopy(w: seq<nat>, out: seq<nat>, cur: nat, hist: seq<nat>, dist: nat, len: nat)
    requires Copied(w, out, cur, hist, dist, len)
    ensures 1 <= dist <= |hist| && cur <= |out| && w + out[..cur] == Copy(hist, dist, len)
  {
  }

  lemma StartCopy(w: seq<nat>, out: seq<nat>, cur: nat, hist: seq<nat>, dist: nat)
    requires cur <= |out| && hist == w + out[..cur] && 1 <= dist <= |hist|
    ensures Copied(w, out, cur, hist, dist, 0)
  {
  }

  // ---- the bit reservoir -----------------------------------------------------------------------

  predicate BytesOk(bytes: seq<nat>) { forall i {:trigger bytes[i]} :: 0 <= i < |bytes| ==> bytes[i] < 256 }

  // The bytes as a bit stream.
  function Num(bytes: seq<nat>): nat { if bytes == [] then 0 else bytes[0] + Scale(Num(bytes[1..]), 8) }

  // hold, bits, and the index of the next input byte
  datatype Reg = Reg(hold: nat, bits: nat, next: nat)

  // hold += (unsigned long)(*in++) << bits; bits += 8
  function Pull(r: Reg, input: seq<nat>): Reg
    requires r.next < |input|
  {
    Reg(r.hold + Scale(input[r.next], r.bits), r.bits + 8, r.next + 1)
  }

  // hold >>= n; bits -= n
  function Drop(r: Reg, n: nat): Reg
    requires n <= r.bits
  {
    Reg(Shr(r.hold, n), r.bits - n, r.next)
  }

  // The input preceded by the bits left from before.
  datatype Source = Source(input: seq<nat>, hold0: nat, bits0: nat)

  function Stream(s: Source): nat { s.hold0 + Scale(Num(s.input), s.bits0) }

  ghost predicate SourceOk(s: Source) { BytesOk(s.input) && s.bits0 < 8 && s.hold0 < Pow2(s.bits0) }

  // The reservoir holds the next bits of the stream, p bits having been consumed.
  ghost predicate Synced(s: Source, r: Reg, p: nat) {
    && r.next <= |s.input| && p + r.bits == s.bits0 + 8 * r.next
    && r.hold == Low(Shr(Stream(s), p), r.bits)
  }

  lemma {:induction false} ShrShr(v: nat, a: nat, b: nat)
    ensures Shr(Shr(v, a), b) == Shr(v, a + b)
    decreases a
  {
    if a > 0 {
      ShrShr(v / 2, a - 1, b);
    }
  }

  lemma {:induction false} LowSplit(x: nat, a: nat, b: nat)
    ensures Low(x, a + b) == Low(x, a) + Scale(Low(Shr(x, a), b), a)
    decreases a
  {
    if a > 0 {
      LowSplit(x / 2, a - 1, b);
    }
  }

  lemma {:induction false} ShrLow(x: nat, a: nat, b: nat)
    ensures Shr(Low(x, a + b), a) == Low(Shr(x, a), b)
    decreases a
  {
    if a > 0 {
      assert Low(x, a + b) / 2 == Low(x / 2, a - 1 + b);
      ShrLow(x / 2, a - 1, b);
    }
  }

  lemma {:induction false} ByteAt(bytes: seq<nat>, i: nat)
    requires BytesOk(bytes) && i < |bytes|
    ensures Low(Shr(Num(bytes), 8 * i), 8) == bytes[i]
    decreases i
  {
    hide Scale, Low, Pow2;
    var rest := Num(bytes[1..]);
    Pow8();
    Table.JoinNum(bytes[0], rest, 8);
    if i == 0 {
      assert Shr(Num(bytes), 0) == Num(bytes);
    } else {
      hide Shr;
      ShrShr(Num(bytes), 8, 8 * (i - 1));
      ByteAt(bytes[1..], i - 1);
    }
  }

  lemma Pow8()
    ensures Pow2(8) == 256
  {
    assert Pow2(4) == 16;
    assert Pow2(6) == 64;
  }

  lemma PullSynced(s: Source, r: Reg, p: nat)
    requires SourceOk(s) && Synced(s, r, p) && r.next < |s.input|
    ensures Synced(s, Pull(r, s.input), p)
  {
    hide Low, Shr, Scale, Num, Pow2, BytesOk;
    var v := Stream(s);
    LowSplit(Shr(v, p), r.bits, 8);
    ShrShr(v, p, r.bits);
    Table.JoinNum(s.hold0, Num(s.input), s.bits0);
    ShrShr(v, s.bits0, 8 * r.next);
    ByteAt(s.input, r.next);
  }

  lemma DropSynced(s: Source, r: Reg, p: nat, n: nat)
    requires Synced(s, r, p) && n <= r.bits
    ensures Synced(s, Drop(r, n), p + n)
  {
    hide Low, Shr, Stream;
    ShrLow(Shr(Stream(s), p), n, r.bits - n);
    ShrShr(Stream(s), p, n);
  }

  lemma PeekSynced(s: Source, r: Reg, p: nat, n: nat)
    requires Synced(s, r, p) && n <= r.bits
    ensures Low(r.hold, n) == Low(Shr(Stream(s), p), n)
  {
    hide Low, Shr, Stream;
    Table.LowLow(Shr(Stream(s), p), r.bits, n);
  }

  // The reservoir fits a 32-bit word while it has at most 32 bits.
  lemma HoldFits(s: Source, r: Reg, p: nat)
    requires Synced(s, r, p) && r.bits <= 32
    ensures r.hold < Pow2(32)
  {
    hide Low, Shr, Stream, Pow2;
    LowBelow(Shr(Stream(s), p), r.bits);
    Pow2Mono(r.bits, 32);
  }

  // ---- the tables, and what they give at a stream ----------------------------------------------

  datatype Tables = Tables(l: seq<Table.Code>, lroot: nat, d: seq<Table.Code>, droot: nat)

  predicate LengthOk(e: Table.Code) {
    || (e.op == 0 && e.val < 256)
    || (16 <= e.op <= 21 && 3 <= e.val && e.val + Pow2(e.op - 16) <= 259)
    || e.op == 96 || e.op == 64 || e.op == 198 || e.op == 203
  }

  predicate DistanceOk(e: Table.Code) { (16 <= e.op <= 29 && e.val >= 1) || e.op == 64 }

  // Stream v finds an entry through at most one link, within 15 bits.
  ghost predicate Finds(t: seq<Table.Code>, root: nat, v: nat) {
    root <= 15 && Low(v, root) < |t| &&
    var e := t[Low(v, root)];
    if Table.IsLink(e) then
      var i := e.val + Low(Shr(v, e.bits), e.op);
      i < |t| && !Table.IsLink(t[i]) && e.bits + e.op <= 15 && e.bits + t[i].bits <= 15
    else e.bits <= 15
  }

  // The entry for stream v, with all the bits it takes.
  function Entry(t: seq<Table.Code>, root: nat, v: nat): (e: Table.Code)
    requires Finds(t, root, v)
    ensures !Table.IsLink(e) && e.bits <= 15
  {
    var e := t[Low(v, root)];
    if Table.IsLink(e) then
      var e2 := t[e.val + Low(Shr(v, e.bits), e.op)];
      e2.(bits := e.bits + e2.bits)
    else e
  }

  ghost predicate LengthsOk(t: seq<Table.Code>, root: nat) {
    root <= 15 && forall v: nat {:trigger Low(v, root)} :: Finds(t, root, v) && LengthOk(Entry(t, root, v))
  }

  ghost predicate DistancesOk(t: seq<Table.Code>, root: nat) {
    root <= 15 && forall v: nat {:trigger Low(v, root)} :: Finds(t, root, v) && DistanceOk(Entry(t, root, v))
  }

  ghost predicate TablesOk(x: Tables) { LengthsOk(x.l, x.lroot) && DistancesOk(x.d, x.droot) }

  datatype Item = Emit(t: Token<nat>) | EndOfBlock | BadLength | BadDistance

  // The next symbol of stream v, and how many bits it takes.
  function Length(x: Tables, v: nat): (e: Table.Code)
    requires TablesOk(x)
    ensures e.bits <= 15 && LengthOk(e)
  {
    assert Low(v, x.lroot) >= 0;
    Entry(x.l, x.lroot, v)
  }

  function Distance(x: Tables, v: nat): (e: Table.Code)
    requires TablesOk(x)
    ensures e.bits <= 15 && DistanceOk(e)
  {
    assert Low(v, x.droot) >= 0;
    Entry(x.d, x.droot, v)
  }

  function Next(x: Tables, v: nat): (Item, nat)
    requires TablesOk(x)
  {
    var e := Length(x, v);
    if e.op == 0 then (Emit(Literal(e.val)), e.bits)
    else if 16 <= e.op < 32 then
      var len := e.val + Low(Shr(v, e.bits), e.op - 16);
      var u := e.bits + (e.op - 16);
      var d := Distance(x, Shr(v, u));
      if 16 <= d.op < 32 then
        var dist := d.val + Low(Shr(v, u + d.bits), d.op - 16);
        (Emit(Match(dist, len)), u + d.bits + (d.op - 16))
      else (BadDistance, u + d.bits)
    else (if e.op == 96 then EndOfBlock else BadLength, e.bits)
  }

  datatype Progress = Progress(hist: seq<nat>, pos: nat) | Stopped

  // The output and the bit position after n symbols.
  function Decode(x: Tables, v: nat, hist: seq<nat>, n: nat): Progress
    requires TablesOk(x)
  {
    if n == 0 then Progress(hist, 0)
    else match Decode(x, v, hist, n - 1)
      case Stopped => Stopped
      case Progress(h, p) =>
        var (item, used) := Next(x, Shr(v, p));
        if item.Emit? && Fits(h, item.t) then Progress(Apply(h, item.t), p + used) else Stopped
  }

  // ---- inflate_fast ----------------------------------------------------------------------------

  datatype Mode = LEN | TYPE | BAD

  // dolen and dodist: the root entry, and the linked entry if it is a link; the bits are dropped.
  method LookUp(ghost s: Source, t: seq<Table.Code>, root: nat, r0: Reg, ghost p: nat) returns (here: Table.Code, r: Reg)
    requires Synced(s, r0, p) && r0.bits >= 15 && Finds(t, root, Shr(Stream(s), p))
    ensures var e := Entry(t, root, Shr(Stream(s), p));
      && here.op == e.op && here.val == e.val
      && r.bits == r0.bits - e.bits && r.next == r0.next && Synced(s, r, p + e.bits)
  {
    hide Low, Shr, Stream, Synced;
    ghost var v := Shr(Stream(s), p);
    PeekSynced(s, r0, p, root);
    here := t[Low(r0.hold, root)];
    r := Drop(r0, here.bits);
    DropSynced(s, r0, p, here.bits);
    if Table.IsLink(here) {
      ShrShr(Stream(s), p, here.bits);
      PeekSynced(s, r, p + here.bits, here.op);
      ghost var q := p + here.bits;
      here := t[here.val + Low(r.hold, here.op)];
      DropSynced(s, r, q, here.bits);
      r := Drop(r, here.bits);
    }
  }

  // The bits in the reservoir and in the rest of the input: 48 of them, six bytes, are enough for
  // a length of 15 and 5 bits and a distance of 15 and 13 bits, however they are read.
  function Left(input: seq<nat>, r: Reg): int { 8 * (|input| - r.next) + r.bits }

  // if (bits < n) pull one byte
  method PullIf(ghost s: Source, input: seq<nat>, r0: Reg, ghost p: nat, n: nat) returns (r: Reg)
    requires SourceOk(s) && s.input == input && Synced(s, r0, p) && Left(input, r0) >= n && n <= 24 && r0.bits <= 32
    ensures Synced(s, r, p) && r.hold < Pow2(32)
    ensures if r0.bits < n then r.bits == r0.bits + 8 && r.next == r0.next + 1 else r == r0
  {
    r := r0;
    if r.bits < n {
      PullSynced(s, r, p);
      r := Pull(r, input);
    }
    HoldFits(s, r, p);
  }

  // if (bits < 15) pull two bytes
  method Refill(ghost s: Source, input: seq<nat>, r0: Reg, ghost p: nat) returns (r: Reg)
    requires SourceOk(s) && s.input == input && Synced(s, r0, p) && Left(input, r0) >= 28 && r0.bits <= 32
    ensures Synced(s, r, p) && r.bits >= 15 && r.hold < Pow2(32)
    ensures if r0.bits < 15 then r.bits == r0.bits + 16 && r.next == r0.next + 2 else r == r0
  {
    hide Synced, SourceOk, Pow2;
    r := r0;
    if r.bits < 15 {
      PullSynced(s, r, p);
      PulledInRange(s, r, p);
      r := Pull(r, input);
      PullSynced(s, r, p);
      r := Pull(r, input);
    }
    HoldFits(s, r, p);
  }

  lemma PulledInRange(s: Source, r: Reg, p: nat)
    requires Synced(s, r, p)
    ensures r.next <= |s.input| && p + r.bits == s.bits0 + 8 * r.next
  {
  }

  // The n extra bits of a code.
  method Extra(ghost s: Source, r0: Reg, ghost p: nat, n: nat) returns (value: nat, r: Reg)
    requires Synced(s, r0, p) && n <= r0.bits
    ensures value == Low(Shr(Stream(s), p), n) && Synced(s, r, p + n) && r.bits == r0.bits - n && r.next == r0.next
  {
    PeekSynced(s, r0, p, n);
    DropSynced(s, r0, p, n);
    value := Low(r0.hold, n);
    r := Drop(r0, n);
  }

  // The entries for the stream at p.
  lemma EntriesOk(x: Tables, v: nat)
    requires TablesOk(x)
    ensures Finds(x.l, x.lroot, v) && Entry(x.l, x.lroot, v) == Length(x, v) && LengthOk(Length(x, v))
    ensures Finds(x.d, x.droot, v) && Entry(x.d, x.droot, v) == Distance(x, v) && DistanceOk(Distance(x, v))
  {
    assert Low(v, x.lroot) >= 0 && Low(v, x.droot) >= 0;
  }

  // A length code's value is at most 258.
  lemma LengthBound(e: Table.Code, v: nat)
    requires LengthOk(e) && 16 <= e.op < 32
    ensures e.op <= 21 && 3 <= e.val + Low(v, e.op - 16) <= 258
  {
    hide Low;
    LowBelow(v, e.op - 16);
  }

  // The distance code after a length, u bits into the symbol.
  method NextDistance(ghost s: Source, x: Tables, input: seq<nat>, r0: Reg, ghost p: nat) returns (dist: nat, ok: bool, r: Reg)
    requires SourceOk(s) && s.input == input && TablesOk(x) && Synced(s, r0, p)
    requires Left(input, r0) >= 28 && r0.bits <= 32
    ensures var d := Distance(x, Shr(Stream(s), p));
      && (ok <==> 16 <= d.op < 32)
      && (if ok then dist == d.val + Low(Shr(Stream(s), p + d.bits), d.op - 16) >= 1 && Synced(s, r, p + d.bits + (d.op - 16))
          else Synced(s, r, p + d.bits))
      && r0.next <= r.next && r.bits <= 32 && r.hold < Pow2(32)
  {
    hide Pow2, Synced, SourceOk, TablesOk, Low, Shr, Stream, DistanceOk, Entry, Finds;
    EntriesOk(x, Shr(Stream(s), p));
    ghost var d := Distance(x, Shr(Stream(s), p));
    DistanceCases(d);
    r := Refill(s, input, r0, p);
    var here;
    here, r := LookUp(s, x.d, x.droot, r, p);
    ShrShr(Stream(s), p, d.bits);
    ok := here.op / 16 % 2 == 1;
    dist := 0;
    if ok {
      var n := here.op % 16;
      r := PullIf(s, input, r, p + d.bits, n);
      r := PullIf(s, input, r, p + d.bits, n);
      var extra;
      extra, r := Extra(s, r, p + d.bits, n);
      dist := here.val + extra;
    }
    HoldFits(s, r, if ok then p + d.bits + (d.op - 16) else p + d.bits);
  }

  // What one turn of the loop finds: a symbol, or a reason to stop.
  method NextItem(ghost s: Source, x: Tables, input: seq<nat>, r0: Reg, ghost p: nat) returns (item: Item, r: Reg)
    requires SourceOk(s) && s.input == input && TablesOk(x) && Synced(s, r0, p) && r0.next + 6 <= |input| && r0.bits <= 32
    ensures var (i, used) := Next(x, Shr(Stream(s), p));
      item == i && Synced(s, r, p + used) && r0.next <= r.next && r.bits <= 32 && r.hold < Pow2(32)
    ensures item.Emit? && item.t.Match? ==> 3 <= item.t.len <= 258 && item.t.dist >= 1
  {
    hide Pow2, Synced, SourceOk, TablesOk, Low, Shr, Stream, LengthOk, DistanceOk, Entry, Finds;
    ghost var v := Shr(Stream(s), p);
    EntriesOk(x, v);
    r := Refill(s, input, r0, p);
    var here;
    here, r := LookUp(s, x.l, x.lroot, r, p);
    LengthCases(Length(x, v));
    ghost var u := Length(x, v).bits;
    ShrShr(Stream(s), p, u);
    if here.op == 0 {
      item := Emit(Literal(here.val));
    } else if here.op / 16 % 2 == 1 {
      var n := here.op % 16;
      LengthBound(Length(x, v), Shr(v, u));
      r := PullIf(s, input, r, p + u, n);
      var extra;
      extra, r := Extra(s, r, p + u, n);
      u := u + n;
      ShrShr(Stream(s), p, u);
      var dist, ok;
      ghost var d := Distance(x, Shr(v, u));
      ShrShr(Stream(s), p, u + d.bits);
      dist, ok, r := NextDistance(s, x, input, r, p + u);
      item := if ok then Emit(Match(dist, here.val + extra)) else BadDistance;
    } else if here.op / 32 % 2 == 1 {
      item := EndOfBlock;
    } else {
      item := BadLength;
    }
    HoldFits(s, r, p + Next(x, v).1);
  }

  // How the flags in op tell the entries of a table apart.
  lemma LengthCases(e: Table.Code)
    requires LengthOk(e)
    ensures e.op / 16 % 2 == 1 <==> 16 <= e.op < 32
    ensures 16 <= e.op < 32 ==> e.op % 16 == e.op - 16 <= 5
    ensures e.op != 0 && !(16 <= e.op < 32) ==> (e.op / 32 % 2 == 1 <==> e.op == 96)
  {
  }

  lemma DistanceCases(e: Table.Code)
    requires DistanceOk(e)
    ensures (e.op / 16 % 2 == 1 <==> 16 <= e.op < 32) && (16 <= e.op < 32 ==> e.op % 16 == e.op - 16 <= 13 && e.val >= 1)
  {
  }

  lemma StartSynced(s: Source)
    requires SourceOk(s)
    ensures Synced(s, Reg(s.hold0, s.bits0, 0), 0)
  {
    hide Num, Scale;
    Table.JoinNum(s.hold0, Num(s.input), s.bits0);
    assert Shr(Stream(s), 0) == Stream(s);
  }

  // Whole unused bytes go back to the input; with fewer than eight bits on entry they are all its own.
  lemma ReturnUnused(s: Source, r: Reg, p: nat)
    requires SourceOk(s) && Synced(s, r, p)
    ensures r.next >= r.bits / 8
    ensures Synced(s, Reg(Low(r.hold, r.bits % 8), r.bits % 8, r.next - r.bits / 8), p)
  {
    PeekSynced(s, r, p, r.bits % 8);
  }

  lemma DecodeStart(x: Tables, v: nat, hist: seq<nat>)
    requires TablesOk(x)
    ensures Decode(x, v, hist, 0) == Progress(hist, 0)
  {
  }

  lemma DecodeStep(x: Tables, v: nat, hist0: seq<nat>, n: nat, h: seq<nat>, p: nat)
    requires TablesOk(x) && Decode(x, v, hist0, n) == Progress(h, p)
    ensures var (item, used) := Next(x, Shr(v, p));
      item.Emit? && Fits(h, item.t) ==> Decode(x, v, hist0, n + 1) == Progress(Apply(h, item.t), p + used)
  {
  }

  lemma LiteralWritten(w: seq<nat>, before: seq<nat>, cur: nat, b: nat)
    requires cur < |before|
    ensures w + before[cur := b][..cur + 1] == (w + before[..cur]) + [b]
  {
    assert before[cur := b][..cur + 1] == before[..cur] + [b];
  }

  lemma HistoryIs(window: seq<nat>, wsize: nat, whave: nat, wnext: nat)
    requires WindowOk(window, wsize, whave, wnext)
    ensures |History(window, wsize, whave, wnext)| == whave
  {
  }

  // inflate_fast: decodes symbols while six bytes of input and 258 bytes of output are left.  After
  // n symbols the output is what Decode gives, and the bit position is its,
  // behind the symbol that stopped the loop if it is an error or the end of the block; fewer than
  // eight bits are kept, the other bytes (at most four) are returned.
  method InflateFast(input: seq<nat>, hold0: nat, bits0: nat, out: array<nat>, put: nat,
                     window: seq<nat>, wsize: nat, whave: nat, wnext: nat, x: Tables)
      returns (mode: Mode, r: Reg, cur: nat, ghost n: nat)
    requires SourceOk(Source(input, hold0, bits0)) && |input| >= 6 && put + 258 <= out.Length
    requires WindowOk(window, wsize, whave, wnext) && TablesOk(x)
    modifies out
    ensures put <= cur <= out.Length && Wrote(old(out[..]), out[..], put, cur) && r.next <= |input|
    ensures r.bits < 8 && r.hold < Pow2(r.bits)
    ensures var v := Stream(Source(input, hold0, bits0));
            var w := History(window, wsize, whave, wnext);
      match Decode(x, v, w + old(out[..put]), n)
      case Stopped => false
      case Progress(hist, pos) =>
        var (item, used) := Next(x, Shr(v, pos));
        && hist == w + out[..cur]
        && Synced(Source(input, hold0, bits0), r, if mode == LEN then pos else pos + used)
        && (mode == TYPE <==> mode != LEN && item.EndOfBlock?)
        && (mode == BAD ==> item.BadLength? || item.BadDistance? || (item.Emit? && !Fits(hist, item.t)))
    ensures mode == LEN ==> r.next + 10 > |input| || cur + 258 > out.Length
  {
    hide Pow2, Synced, SourceOk, TablesOk, Low, Shr, Stream, Wrote, History, Scale, Next, Decode, Copy;
    ghost var s := Source(input, hold0, bits0);
    ghost var v, w := Stream(s), History(window, wsize, whave, wnext);
    ghost var hist0, first := w + out[..put], out[..];
    HistoryIs(window, wsize, whave, wnext);
    r := Reg(hold0, bits0, 0);
    StartSynced(s);
    Started(s);
    HoldFits(s, r, 0);
    cur := put;
    n := 0;
    mode := LEN;
    ghost var p := 0;
    WroteNone(first, put);
    DecodeStart(x, v, hist0);
    while true
      invariant put <= cur && cur + 258 <= out.Length && r.next + 6 <= |input| && r.bits <= 32 && mode == LEN
      invariant r.hold < Pow2(32) && Synced(s, r, p) && Wrote(first, out[..], put, cur)
      invariant Decode(x, v, hist0, n) == Progress(w + out[..cur], p)
      decreases out.Length - cur
    {
      var item, r' := NextItem(s, x, input, r, p);
      r := r';
      DecodeStep(x, v, hist0, n, w + out[..cur], p);
      ghost var used, before := Next(x, Shr(v, p)).1, out[..];
      if item.EndOfBlock? || item.BadLength? || item.BadDistance? {
        mode := if item.EndOfBlock? then TYPE else BAD;
        p := p + used;
        break;
      }
      if item.t.Literal? {
        LiteralWritten(w, before, cur, item.t.b);
        WroteOne(first, before, put, cur, item.t.b);
        out[cur] := item.t.b;
        assert out[..] == before[cur := item.t.b];
        assert out[..cur + 1] == out[..][..cur + 1];
        cur := cur + 1;
      } else {
        if item.t.dist > cur + whave {
          mode := BAD;
          p := p + used;
          break;
        }
        ghost var cur0 := cur;
        cur := CopyMatch(out, cur, window, wsize, whave, wnext, item.t.dist, item.t.len);
        WroteMore(first, before, out[..], put, cur0, cur);
      }
      n := n + 1;
      p := p + used;
      if !(r.next + 5 < |input| && cur + 257 < out.Length) {
        break;
      }
    }
    // return unused bytes
    ReturnUnused(s, r, p);
    PulledInRange(s, r, p);
    var len := r.bits / 8;
    LowBelow(r.hold, r.bits % 8);
    r := Reg(Low(r.hold, r.bits - len * 8), r.bits - len * 8, r.next - len);
  }

  lemma Started(s: Source)
    requires SourceOk(s)
    ensures s.bits0 < 8
  {
  }

  // ---- the tables inflate_table builds are such tables -----------------------------------------

  // The entry a stream decodes to is the one the look-up finds.
  lemma FoundIs(t: seq<Table.Code>, root: nat, v: nat, e: Table.Code, len: nat)
    requires Table.Decodes(t, root, v, e, len) && root <= 15 && len <= 15 && !Table.IsLink(e)
    ensures Finds(t, root, v) && Entry(t, root, v) == e.(bits := len)
  {
    hide Low, Shr;
  }

  lemma SymbolOk(lens: seq<nat>, t: seq<Table.Code>, root: nat, v: nat, kind: Table.CodeType)
    requires Table.LensOk(lens) && Table.DecodesAll(kind, lens, t, root) && Table.InvalidRest(lens, t, root) && root <= 15
    ensures Finds(t, root, v)
    ensures Entry(t, root, v).op == 64
            || exists sym {:trigger lens[sym]} :: 0 <= sym < |lens| <= Table.MaxSymbols(kind)
                 && Entry(t, root, v).op == Table.EntryFor(kind, sym, 0).op
                 && Entry(t, root, v).val == Table.EntryFor(kind, sym, 0).val
  {
    hide Low, Shr, Table.EntryFor, StartsWith, Table.Decodes, Finds, Entry;
    if sym: nat :| sym < |lens| && lens[sym] >= 1 && StartsWith(lens, sym, v) {
      FoundIs(t, root, v, Table.EntryFor(kind, sym, 0), lens[sym]);
    } else {
      assert Low(v, root) >= 0;
      FoundIs(t, root, v, Table.Code(64, 0, 0), 1);
    }
  }

  lemma LengthEntryOk(sym: nat)
    requires sym < 288
    ensures LengthOk(Table.EntryFor(Table.LENS, sym, 0))
  {
    SmallPowers();
  }

  lemma DistanceEntryOk(sym: nat)
    requires sym < 32
    ensures DistanceOk(Table.EntryFor(Table.DISTS, sym, 0))
  {
  }

  lemma SmallPowers()
    ensures Pow2(0) == 1 && Pow2(1) == 2 && Pow2(2) == 4 && Pow2(3) == 8 && Pow2(4) == 16 && Pow2(5) == 32
  {
  }

  lemma SameMeaning(e: Table.Code, f: Table.Code)
    requires e.op == f.op && e.val == f.val
    ensures LengthOk(e) <==> LengthOk(f)
    ensures DistanceOk(e) <==> DistanceOk(f)
  {
  }

  // What inflate_table promises of its tables is what inflate_fast needs of them.
  lemma TablesFromLengths(llens: seq<nat>, dlens: seq<nat>, x: Tables)
    requires Table.LensOk(llens) && Table.LensOk(dlens) && x.lroot <= 15 && x.droot <= 15
    requires Table.DecodesAll(Table.LENS, llens, x.l, x.lroot) && Table.InvalidRest(llens, x.l, x.lroot)
    requires Table.DecodesAll(Table.DISTS, dlens, x.d, x.droot) && Table.InvalidRest(dlens, x.d, x.droot)
    ensures TablesOk(x)
  {
    assert Table.MaxSymbols(Table.LENS) == 288 && Table.MaxSymbols(Table.DISTS) == 32;
    hide Low, Finds, Entry, LengthOk, DistanceOk, Table.EntryFor, Table.DecodesAll, Table.InvalidRest;
    forall v: nat ensures Finds(x.l, x.lroot, v) && LengthOk(Entry(x.l, x.lroot, v)) {
      SymbolOk(llens, x.l, x.lroot, v, Table.LENS);
      var e := Entry(x.l, x.lroot, v);
      if e.op == 64 {
        InvalidOk(e);
      } else {
        var sym :| 0 <= sym < |llens| <= Table.MaxSymbols(Table.LENS) && e.op == Table.EntryFor(Table.LENS, sym, 0).op
                   && e.val == Table.EntryFor(Table.LENS, sym, 0).val;
        LengthEntryOk(sym);
        SameMeaning(e, Table.EntryFor(Table.LENS, sym, 0));
      }
    }
    forall v: nat ensures Finds(x.d, x.droot, v) && DistanceOk(Entry(x.d, x.droot, v)) {
      SymbolOk(dlens, x.d, x.droot, v, Table.DISTS);
      var e := Entry(x.d, x.droot, v);
      if e.op == 64 {
        InvalidOk(e);
      } else {
        var sym :| 0 <= sym < |dlens| <= Table.MaxSymbols(Table.DISTS) && e.op == Table.EntryFor(Table.DISTS, sym, 0).op
                   && e.val == Table.EntryFor(Table.DISTS, sym, 0).val;
        DistanceEntryOk(sym);
        SameMeaning(e, Table.EntryFor(Table.DISTS, sym, 0));
      }
    }
  }

  lemma InvalidOk(e: Table.Code)
    requires e.op == 64
    ensures LengthOk(e) && DistanceOk(e)
  {
  }
}
