/**
 * The decoding of DEFLATE symbols as RFC 1951 defines it, from the code lengths alone: the symbol whose
 * canonical code the stream starts with, and for lengths and distances a base value and extra bits.
 * The tables that inflate_table builds, and inflate_fast on them, are proved to decode in this way.
 */
module CanonicalDecoder {
  import opened Bits
  import opened HuffmanCode
  import opened InflateFast
  import opened Lz77
  import opened Wrappers
  import Table = InflateTable

  // ---- the decoder -----------------------------------------------------------------------------

  // The code lengths of literals and lengths, and of distances.
  datatype Codes = Codes(l: seq<nat>, d: seq<nat>)

  ghost predicate CodesOk(c: Codes) {
    && Table.LensOk(c.l) && |c.l| <= Table.MaxSymbols(Table.LENS)
    && Table.LensOk(c.d) && |c.d| <= Table.MaxSymbols(Table.DISTS)
  }

  predicate Starts(lens: seq<nat>, sym: nat, v: nat) { sym < |lens| && lens[sym] >= 1 && StartsWith(lens, sym, v) }

  // The symbol whose code the stream starts with.
  ghost function Symbol(lens: seq<nat>, v: nat): (s: Option<nat>)
    ensures s.Some? ==> Starts(lens, s.value, v)
    ensures s.None? ==> forall sym: nat {:trigger Starts(lens, sym, v)} :: !Starts(lens, sym, v)
  {
    if sym: nat :| Starts(lens, sym, v) then Some(sym) else None
  }

  // Section 3.2.5 of RFC 1951: length codes 257 + i and distance codes i.
  function LengthExtra(i: nat): nat { if i < 8 || i == 28 then 0 else i / 4 - 1 }

  function LengthBase(i: nat): nat {
    if i == 28 then 258 else if i < 8 then 3 + i else 3 + (4 + i % 4) * Pow2(LengthExtra(i))
  }

  function DistanceExtra(i: nat): nat { if i < 2 then 0 else i / 2 - 1 }

  function DistanceBase(i: nat): nat { if i < 2 then 1 + i else 1 + (2 + i % 2) * Pow2(DistanceExtra(i)) }

  // What stream v starts with, and how many bits it takes; one bit if that is the code of no symbol.
  ghost function Item(c: Codes, v: nat): (InflateFast.Item, nat) {
    match Symbol(c.l, v)
    case None => (BadLength, 1)
    case Some(sym) =>
      var u := c.l[sym];
      if sym < 256 then (Emit(Literal(sym)), u)
      else if sym == 256 then (EndOfBlock, u)
      else if sym >= 286 then (BadLength, u)
      else
        var n := LengthExtra(sym - 257);
        DistanceItem(c, v, LengthBase(sym - 257) + Low(Shr(v, u), n), u + n)
  }

  ghost function DistanceItem(c: Codes, v: nat, len: nat, u: nat): (InflateFast.Item, nat) {
    match Symbol(c.d, Shr(v, u))
    case None => (BadDistance, u + 1)
    case Some(sym) =>
      var q := u + c.d[sym];
      if sym >= 30 then (BadDistance, q)
      else (Emit(Match(DistanceBase(sym) + Low(Shr(v, q), DistanceExtra(sym)), len)), q + DistanceExtra(sym))
  }

  // The output and the bit position after n symbols.
  ghost function Decoded(c: Codes, v: nat, hist: seq<nat>, n: nat): Progress {
    if n == 0 then Progress(hist, 0)
    else match Decoded(c, v, hist, n - 1)
      case Stopped => Stopped
      case Progress(h, p) =>
        var (item, used) := Item(c, Shr(v, p));
        if item.Emit? && Fits(h, item.t) then Progress(Apply(h, item.t), p + used) else Stopped
  }

  // ---- a stream starts with at most one code ---------------------------------------------------

  // The lengths of the first n codes in sorted order.
  lemma {:induction false} SortedLengths(lens: seq<nat>, n: nat) returns (ls: seq<nat>)
    requires n <= Base(lens, MAXBITS + 1)
    ensures |ls| == n && Lengths(lens, ls)
  {
    if n == 0 {
      ls := [];
    } else {
      ls := SortedLengths(lens, n - 1);
      var l := Table.FindLength(lens, n - 1, MAXBITS);
      ls := ls + [l];
    }
  }

  lemma SymbolUnique(lens: seq<nat>, a: nat, b: nat, v: nat)
    requires Table.LensOk(lens) && Starts(lens, a, v) && Starts(lens, b, v)
    ensures a == b
  {
    hide Base, CountEq, Prefix, At;
    var ls := SortedLengths(lens, Base(lens, MAXBITS + 1));
    AtPlace(lens, ls, a, v);
    AtPlace(lens, ls, b, v);
    PrefixFree(lens, ls, Place(lens, a), Place(lens, b), v);
    SamePlace(lens, a, b);
  }

  lemma AtPlace(lens: seq<nat>, ls: seq<nat>, sym: nat, v: nat)
    requires Table.LensOk(lens) && Starts(lens, sym, v) && Lengths(lens, ls) && |ls| == Base(lens, MAXBITS + 1)
    ensures var k := Place(lens, sym);
      k < |ls| && At(lens, k, ls[k]) && Prefix(v, ls[k]) == CodeAt(lens, k, ls[k]) && At(lens, k, lens[sym])
  {
    hide Base, CountEq, Prefix;
    var k := Place(lens, sym);
    Table.PlaceInRange(lens, sym);
    BaseMono(lens, lens[sym], MAXBITS + 1);
    AtUnique(lens, k, lens[sym], ls[k]);
    CodeIs(lens, sym);
  }

  lemma CodeIs(lens: seq<nat>, sym: nat)
    requires sym < |lens| && lens[sym] >= 1 && At(lens, Place(lens, sym), lens[sym])
    ensures CodeAt(lens, Place(lens, sym), lens[sym]) == CodeOf(lens, sym)
  {
  }

  // Symbols at the same place are the same.
  lemma SamePlace(lens: seq<nat>, a: nat, b: nat)
    requires a < |lens| && b < |lens| && Place(lens, a) == Place(lens, b)
    requires At(lens, Place(lens, a), lens[a]) && At(lens, Place(lens, a), lens[b])
    ensures a == b
  {
    hide Base, CountEq, At;
    AtUnique(lens, Place(lens, a), lens[a], lens[b]);
    if a < b {
      CountUpTo(lens, a, b);
    } else if b < a {
      CountUpTo(lens, b, a);
    }
  }

  lemma CountUpTo(lens: seq<nat>, a: nat, b: nat)
    requires a < b <= |lens|
    ensures CountEq(lens[..a], lens[a]) < CountEq(lens[..b], lens[a])
  {
    assert lens[..b][..a] == lens[..a];
    Table.CountPrefix(lens[..b], a, lens[a]);
  }

  // ---- the tables decode the codes -------------------------------------------------------------

  // The tables are those of the codes.
  ghost predicate TablesFor(x: Tables, c: Codes) {
    && CodesOk(c) && x.lroot <= 15 && x.droot <= 15
    && Table.DecodesAll(Table.LENS, c.l, x.l, x.lroot) && Table.InvalidRest(c.l, x.l, x.lroot)
    && Table.DecodesAll(Table.DISTS, c.d, x.d, x.droot) && Table.InvalidRest(c.d, x.d, x.droot)
  }

  lemma EntryIs(kind: Table.CodeType, lens: seq<nat>, t: seq<Table.Code>, root: nat, v: nat)
    requires Table.LensOk(lens) && |lens| <= Table.MaxSymbols(kind) && root <= 15
    requires Table.DecodesAll(kind, lens, t, root) && Table.InvalidRest(lens, t, root)
    ensures Finds(t, root, v)
    ensures match Symbol(lens, v)
      case None => Entry(t, root, v) == Table.Code(64, 1, 0)
      case Some(sym) => sym < Table.MaxSymbols(kind) && Entry(t, root, v) == Table.EntryFor(kind, sym, lens[sym])
  {
    hide Low, Shr, Table.EntryFor, StartsWith, Table.Decodes, Finds, Entry;
    match Symbol(lens, v)
    case None =>
      assert Low(v, root) >= 0;
      forall sym: nat {:trigger StartsWith(lens, sym, v)} | sym < |lens| && lens[sym] >= 1 ensures !StartsWith(lens, sym, v) {
        assert !Starts(lens, sym, v);
      }
      FoundIs(t, root, v, Table.Code(64, 0, 0), 1);
    case Some(sym) =>
      FoundIs(t, root, v, Table.EntryFor(kind, sym, 0), lens[sym]);
      WithBits(kind, sym, lens[sym]);
  }

  lemma WithBits(kind: Table.CodeType, sym: nat, bits: nat)
    requires sym < Table.MaxSymbols(kind)
    ensures Table.EntryFor(kind, sym, 0).(bits := bits) == Table.EntryFor(kind, sym, bits)
  {
  }

  lemma LengthEntry(sym: nat, bits: nat)
    requires sym < 288
    ensures var e := Table.EntryFor(Table.LENS, sym, bits);
      && e.bits == bits
      && (sym < 256 ==> e.op == 0 && e.val == sym)
      && (sym == 256 ==> e.op == 96)
      && (257 <= sym < 286 ==> e.op == 16 + LengthExtra(sym - 257) < 32 && e.val == LengthBase(sym - 257))
      && (sym >= 286 ==> e.op >= 32 && e.op != 96)
  {
    SmallPowers();
  }

  lemma Powers()
    ensures Pow2(6) == 64 && Pow2(7) == 128 && Pow2(8) == 256 && Pow2(9) == 512 && Pow2(10) == 1024
    ensures Pow2(11) == 2048 && Pow2(12) == 4096 && Pow2(13) == 8192
  {
    SmallPowers();
    assert Pow2(9) == 16 * Pow2(5);
  }

  lemma DistanceEntry(sym: nat, bits: nat)
    requires sym < 32
    ensures var e := Table.EntryFor(Table.DISTS, sym, bits);
      && e.bits == bits
      && (sym < 30 ==> e.op == 16 + DistanceExtra(sym) < 32 && e.val == DistanceBase(sym))
      && (sym >= 30 ==> e.op == 64)
  {
    SmallPowers();
    Powers();
  }

  // The rest of Next, after a length.
  ghost function AfterLength(x: Tables, v: nat, len: nat, u: nat): (InflateFast.Item, nat)
    requires TablesOk(x)
  {
    var d := Distance(x, Shr(v, u));
    if 16 <= d.op < 32 then (Emit(Match(d.val + Low(Shr(v, u + d.bits), d.op - 16), len)), u + d.bits + (d.op - 16))
    else (BadDistance, u + d.bits)
  }

  lemma NextAs(x: Tables, v: nat)
    requires TablesOk(x)
    ensures var e := Length(x, v);
      Next(x, v) == if e.op == 0 then (Emit(Literal(e.val)), e.bits)
                    else if 16 <= e.op < 32 then AfterLength(x, v, e.val + Low(Shr(v, e.bits), e.op - 16), e.bits + (e.op - 16))
                    else (if e.op == 96 then EndOfBlock else BadLength, e.bits)
  {
    hide TablesOk, Length, Distance, Low, Shr, Pow2;
  }

  lemma DistanceIs(x: Tables, c: Codes, v: nat, len: nat, u: nat)
    requires TablesFor(x, c) && TablesOk(x)
    ensures DistanceItem(c, v, len, u) == AfterLength(x, v, len, u)
  {
    hide Low, Shr, Pow2, Table.EntryFor, DistanceBase, DistanceExtra, Finds, Entry, StartsWith, TablesOk, Table.DecodesAll,
         Table.InvalidRest;
    EntryIs(Table.DISTS, c.d, x.d, x.droot, Shr(v, u));
    if Symbol(c.d, Shr(v, u)).Some? {
      var sym := Symbol(c.d, Shr(v, u)).value;
      DistanceEntry(sym, c.d[sym]);
    }
  }

  // The entry of the length table is that of the symbol.
  lemma LengthIs(x: Tables, c: Codes, v: nat)
    requires TablesFor(x, c) && TablesOk(x)
    ensures match Symbol(c.l, v)
      case None => Length(x, v) == Table.Code(64, 1, 0)
      case Some(sym) => sym < |c.l| && sym < 288 && Length(x, v) == Table.EntryFor(Table.LENS, sym, c.l[sym])
  {
    hide Low, Shr, Pow2, Table.EntryFor, Finds, Entry, StartsWith, TablesOk, Table.DecodesAll, Table.InvalidRest;
    EntryIs(Table.LENS, c.l, x.l, x.lroot, v);
  }

  // The symbol and the values that inflate_fast reads off its tables are those of the codes.
  lemma NextIs(x: Tables, c: Codes, v: nat)
    requires TablesFor(x, c) && TablesOk(x)
    ensures Next(x, v) == Item(c, v)
  {
    hide *;
    NextAs(x, v);
    LengthIs(x, c, v);
    match Symbol(c.l, v)
    case None => NoItem(c, v);
    case Some(sym) =>
      LengthEntry(sym, c.l[sym]);
      ItemAs(c, v, sym);
      if 257 <= sym < 286 {
        var n := LengthExtra(sym - 257);
        DistanceIs(x, c, v, LengthBase(sym - 257) + Low(Shr(v, c.l[sym]), n), c.l[sym] + n);
      }
  }

  lemma NoItem(c: Codes, v: nat)
    requires Symbol(c.l, v).None?
    ensures Item(c, v) == (BadLength, 1)
  {
  }

  lemma ItemAs(c: Codes, v: nat, sym: nat)
    requires Symbol(c.l, v) == Some(sym) && sym < |c.l|
    ensures var u := c.l[sym];
      Item(c, v) == if sym < 256 then (Emit(Literal(sym)), u)
                    else if sym == 256 then (EndOfBlock, u)
                    else if sym >= 286 then (BadLength, u)
                    else DistanceItem(c, v, LengthBase(sym - 257) + Low(Shr(v, u), LengthExtra(sym - 257)), u + LengthExtra(sym - 257))
  {
    hide Symbol, DistanceItem, LengthBase, LengthExtra, Low, Shr;
  }

  lemma TablesForOk(x: Tables, c: Codes)
    requires TablesFor(x, c)
    ensures TablesOk(x)
  {
    TablesFromLengths(c.l, c.d, x);
  }

  lemma DecodedNext(c: Codes, v: nat, hist: seq<nat>, n: nat)
    requires n > 0
    ensures Decoded(c, v, hist, n) ==
      match Decoded(c, v, hist, n - 1)
      case Stopped => Stopped
      case Progress(h, p) =>
        var (item, used) := Item(c, Shr(v, p));
        if item.Emit? && Fits(h, item.t) then Progress(Apply(h, item.t), p + used) else Stopped
  {
    hide Item, Shr, Fits, Apply;
  }

  // ... and so are the output and the bit position after any number of symbols.
  lemma {:induction false} DecodeIs(x: Tables, c: Codes, v: nat, hist: seq<nat>, n: nat)
    requires TablesFor(x, c) && TablesOk(x)
    ensures Decode(x, v, hist, n) == Decoded(c, v, hist, n)
  {
    hide Next, Item, TablesOk, TablesFor, Shr, Apply, Fits;
    if n > 0 {
      DecodeIs(x, c, v, hist, n - 1);
      DecodedNext(c, v, hist, n);
      if Decoded(c, v, hist, n - 1).Progress? {
        NextIs(x, c, Shr(v, Decoded(c, v, hist, n - 1).pos));
      }
    }
  }

  // ---- building the tables and decoding with them ----------------------------------------------

  // Without codes, both entries of the table are invalid.
  lemma NoCodesTable(kind: Table.CodeType, lens: seq<nat>, t: seq<Table.Code>)
    requires Table.NoCodes(lens) && |lens| <= Table.MaxSymbols(kind)
    requires |t| >= 2 && t[0] == t[1] == Table.Code(64, 1, 0)
    ensures Table.DecodesAll(kind, lens, t, 1) && Table.InvalidRest(lens, t, 1)
  {
    forall v: nat ensures Table.Decodes(t, 1, v, Table.Code(64, 0, 0), 1) {
      assert Low(v, 1) == v % 2;
    }
  }

  // The sets of lengths that code nothing that can be decoded.
  ghost predicate Rejected(kind: Table.CodeType, lens: seq<nat>) {
    && !Table.NoCodes(lens)
    && (Table.Oversubscribed(lens) || (Table.Incomplete(lens) && (kind == Table.CODES || !Table.LongestIs(lens, 1))))
  }

  // With a root table for the bits asked for, the sub-tables find room.
  ghost predicate HasRoom(kind: Table.CodeType, lens: seq<nat>, bits: nat) {
    forall root: nat {:trigger Table.TableSize(lens, root)} ::
      Table.RootIs(lens, bits, root) ==> !Table.TooMany(kind, Table.TableSize(lens, root))
  }

  lemma {:induction false} Extremes(lens: seq<nat>, n: nat) returns (min: nat, max: nat)
    requires n < |lens| && lens[n] >= 1 && forall s {:trigger lens[s]} :: n < s < |lens| ==> lens[s] == 0
    ensures Table.LongestIs(lens, max) && Table.ShortestIs(lens, min)
  {
    min, max := lens[n], lens[n];
    var i := n;
    while i > 0
      invariant i <= n && 1 <= min
      invariant (exists s {:trigger lens[s]} :: 0 <= s < |lens| && lens[s] == max) && (exists s {:trigger lens[s]} :: 0 <= s < |lens| && lens[s] == min)
      invariant forall s {:trigger lens[s]} :: i <= s < |lens| ==> lens[s] <= max && (lens[s] >= 1 ==> lens[s] >= min)
    {
      i := i - 1;
      max := if lens[i] > max then lens[i] else max;
      min := if 1 <= lens[i] < min then lens[i] else min;
    }
  }

  lemma {:induction false} LastCoded(lens: seq<nat>, n: nat) returns (s: nat)
    requires n <= |lens| && !Table.NoCodes(lens) && forall k {:trigger lens[k]} :: n <= k < |lens| ==> lens[k] == 0
    ensures s < |lens| && lens[s] >= 1 && forall k {:trigger lens[k]} :: s < k < |lens| ==> lens[k] == 0
  {
    if n > 0 && lens[n - 1] >= 1 {
      s := n - 1;
    } else {
      s := LastCoded(lens, n - 1);
    }
  }

  // The root width follows from the lengths and the bits asked for.
  lemma RootUnique(lens: seq<nat>, bits: nat, a: nat, b: nat)
    requires !Table.NoCodes(lens) && Table.RootIs(lens, bits, a) && Table.RootIs(lens, bits, b)
    ensures a == b
  {
    var n := LastCoded(lens, |lens|);
    var min, max := Extremes(lens, n);
  }

  // One of the two tables.
  method BuildTable(kind: Table.CodeType, lens: seq<nat>, bits: nat, table: array<Table.Code>) returns (ret: int, root: nat)
    requires Table.LensOk(lens) && |lens| <= Table.MaxSymbols(kind) && Table.Offers(kind, lens, bits, table.Length)
    modifies table
    ensures ret == 0 ==> root <= 15 && Table.DecodesAll(kind, lens, table[..], root) && Table.InvalidRest(lens, table[..], root)
    ensures ret == 0 <==> Table.NoCodes(lens) || (!Rejected(kind, lens) && HasRoom(kind, lens, bits))
  {
    hide Table.DecodesAll, Table.InvalidRest, Table.NoUnusedSlot, Table.NoCodes, Table.Offers, Table.LensOk, Table.RootIs,
         Table.TooMany, Table.TableSize;
    var used;
    ret, root, used := Table.InflateTable(kind, lens, bits, table);
    if Table.NoCodes(lens) {
      NoCodesTable(kind, lens, table[..]);
    } else {
      ghost var size := Table.TableSize(lens, root);
      forall r: nat | Table.RootIs(lens, bits, r) ensures r == root {
        RootUnique(lens, bits, r, root);
      }
    }
  }

  // Both tables.
  method BuildTables(c: Codes, ltable: array<Table.Code>, dtable: array<Table.Code>)
      returns (lret: int, dret: int, lroot: nat, droot: nat)
    requires CodesOk(c) && ltable != dtable
    requires Table.Offers(Table.LENS, c.l, 9, ltable.Length) && Table.Offers(Table.DISTS, c.d, 6, dtable.Length)
    modifies ltable, dtable
    ensures lret == 0 <==> Table.NoCodes(c.l) || (!Rejected(Table.LENS, c.l) && HasRoom(Table.LENS, c.l, 9))
    ensures lret == 0 ==> (dret == 0 <==> Table.NoCodes(c.d) || (!Rejected(Table.DISTS, c.d) && HasRoom(Table.DISTS, c.d, 6)))
    ensures lret == 0 && dret == 0 ==> TablesFor(Tables(ltable[..], lroot, dtable[..], droot), c)
  {
    hide *;
    LensOf(c);
    dret, droot := 0, 0;
    lret, lroot := BuildTable(Table.LENS, c.l, 9, ltable);
    if lret == 0 {
      dret, droot := BuildTable(Table.DISTS, c.d, 6, dtable);
      if dret == 0 {
        BuiltFor(Tables(ltable[..], lroot, dtable[..], droot), c);
      }
    }
  }

  // What inflate_fast did, in terms of the codes: after n symbols output and bit position are those of the
  // definition above, behind the symbol that stopped it if it is an error or the end of the block.
  ghost predicate Followed(c: Codes, s: Source, w: seq<nat>, before: seq<nat>, out: seq<nat>, cur: nat, r: Reg, mode: Mode, n: nat)
    requires cur <= |out|
  {
    match Decoded(c, Stream(s), w + before, n)
    case Stopped => false
    case Progress(hist, pos) =>
      var (item, used) := Item(c, Shr(Stream(s), pos));
      && hist == w + out[..cur]
      && Synced(s, r, if mode == LEN then pos else pos + used)
      && (mode == TYPE <==> mode != LEN && item.EndOfBlock?)
      && (mode == BAD ==> item.BadLength? || item.BadDistance? || (item.Emit? && !Fits(hist, item.t)))
      && (mode == LEN ==> r.next + 10 > |s.input| || cur + 258 > |out|)
  }

  // inflate_fast on the tables of the codes.
  method FastCodes(c: Codes, x: Tables, input: seq<nat>, hold0: nat, bits0: nat, out: array<nat>, put: nat,
                   window: seq<nat>, wsize: nat, whave: nat, wnext: nat)
      returns (mode: Mode, r: Reg, cur: nat, ghost n: nat)
    requires TablesFor(x, c) && SourceOk(Source(input, hold0, bits0)) && |input| >= 6 && put + 258 <= out.Length
    requires WindowOk(window, wsize, whave, wnext)
    modifies out
    ensures put <= cur <= out.Length && Wrote(old(out[..]), out[..], put, cur) && r.next <= |input|
    ensures r.bits < 8 && r.hold < Pow2(r.bits)
    ensures Followed(c, Source(input, hold0, bits0), History(window, wsize, whave, wnext), old(out[..put]), out[..], cur, r, mode, n)
  {
    hide TablesFor, TablesOk, SourceOk, WindowOk, Wrote, History, Pow2, Synced, Stream, Decode, Decoded, Next, Item, Shr, Fits,
         BytesOk, CodesOk;
    ghost var v, hist0 := Stream(Source(input, hold0, bits0)), History(window, wsize, whave, wnext) + out[..put];
    TablesForOk(x, c);
    mode, r, cur, n := InflateFast.InflateFast(input, hold0, bits0, out, put, window, wsize, whave, wnext, x);
    DecodeIs(x, c, v, hist0, n);
    if Decoded(c, v, hist0, n).Progress? {
      NextIs(x, c, Shr(v, Decoded(c, v, hist0, n).pos));
    }
    assert out[..][..cur] == out[..cur];
  }

  // From the code lengths to the output: both tables are built, and inflate_fast runs on them.  It decodes the
  // canonical codes.
  method InflateCodes(c: Codes, ltable: array<Table.Code>, dtable: array<Table.Code>, input: seq<nat>, hold0: nat, bits0: nat,
                      out: array<nat>, put: nat, window: seq<nat>, wsize: nat, whave: nat, wnext: nat)
      returns (lret: int, dret: int, mode: Mode, r: Reg, cur: nat, ghost n: nat)
    requires CodesOk(c) && ltable != dtable
    requires Table.Offers(Table.LENS, c.l, 9, ltable.Length) && Table.Offers(Table.DISTS, c.d, 6, dtable.Length)
    requires SourceOk(Source(input, hold0, bits0)) && |input| >= 6 && put + 258 <= out.Length
    requires WindowOk(window, wsize, whave, wnext)
    modifies ltable, dtable, out
    ensures lret == 0 <==> Table.NoCodes(c.l) || (!Rejected(Table.LENS, c.l) && HasRoom(Table.LENS, c.l, 9))
    ensures lret == 0 ==> (dret == 0 <==> Table.NoCodes(c.d) || (!Rejected(Table.DISTS, c.d) && HasRoom(Table.DISTS, c.d, 6)))
    ensures lret != 0 || dret != 0 ==> out[..] == old(out[..])
    ensures lret == 0 && dret == 0 ==>
      && put <= cur <= out.Length && Wrote(old(out[..]), out[..], put, cur) && r.next <= |input|
      && r.bits < 8 && r.hold < Pow2(r.bits)
      && Followed(c, Source(input, hold0, bits0), History(window, wsize, whave, wnext), old(out[..put]), out[..], cur, r, mode, n)
  {
    hide *;
    mode, r, cur, n := LEN, Reg(hold0, bits0, 0), put, 0;
    var lroot, droot;
    lret, dret, lroot, droot := BuildTables(c, ltable, dtable);
    if lret == 0 && dret == 0 {
      var x := Tables(ltable[..], lroot, dtable[..], droot);
      mode, r, cur, n := FastCodes(c, x, input, hold0, bits0, out, put, window, wsize, whave, wnext);
    }
  }

  lemma LensOf(c: Codes)
    requires CodesOk(c)
    ensures Table.LensOk(c.l) && |c.l| <= Table.MaxSymbols(Table.LENS)
    ensures Table.LensOk(c.d) && |c.d| <= Table.MaxSymbols(Table.DISTS)
  {
  }

  lemma BuiltFor(x: Tables, c: Codes)
    requires CodesOk(c) && x.lroot <= 15 && x.droot <= 15
    requires Table.DecodesAll(Table.LENS, c.l, x.l, x.lroot) && Table.InvalidRest(c.l, x.l, x.lroot)
    requires Table.DecodesAll(Table.DISTS, c.d, x.d, x.droot) && Table.InvalidRest(c.d, x.d, x.droot)
    ensures TablesFor(x, c)
  {
  }
}
