/**
 * The header of a dynamic block (section 3.2.7 of RFC 1951) as inflate and inflateBack read it: the code
 * length code, the code lengths with their repeats, and then the tables and the symbols of the block.
 * The reference decodes the stream from the code lengths of the code length code alone.
 */
module DynamicBlock {
  import opened Bits
  import opened CanonicalDecoder
  import opened HuffmanCode
  import opened InflateFast
  import opened Wrappers
  import Table = InflateTable

  // ---- the reference ---------------------------------------------------------------------------

  // The order in which the lengths of the code length code come.
  const ORDER: seq<nat> := [16, 17, 18, 0, 8, 7, 9, 6, 10, 5, 11, 4, 12, 3, 13, 2, 14, 1, 15]

  // Where a symbol is in that order: the repeats, then 0, then the others by their distance from 8.
  function Rank(sym: nat): nat {
    if 16 <= sym then sym - 16 else if sym == 0 then 3 else if sym >= 8 then 4 + 2 * (sym - 8) else 5 + 2 * (7 - sym)
  }

  // The lengths of the code length code: three bits for each of the first ncode in the order.
  function CodeLengths(v: nat, ncode: nat): (c: seq<nat>)
    ensures |c| == 19
  {
    seq(19, sym requires 0 <= sym < 19 => if Rank(sym) < ncode then Low(Shr(v, 3 * Rank(sym)), 3) else 0)
  }

  // What one symbol adds to the lengths read, and the bits it takes.
  datatype Piece = Piece(add: seq<nat>, used: nat) | Wrong(used: nat)

  function Repeat(x: nat, n: nat): (r: seq<nat>)
    ensures |r| == n && forall i :: 0 <= i < n ==> r[i] == x
  {
    seq(n, _ => x)
  }

  // If there are no codes at all, inflate reads every bit as a length of 0.
  ghost function Next(codes: seq<nat>, v: nat, have: seq<nat>, total: nat): Piece {
    match Symbol(codes, v)
    case None => Piece([0], 1)
    case Some(sym) =>
      var u := codes[sym];
      if sym < 16 then Piece([sym], u) else Repeats(sym, Shr(v, u), u, have, total)
  }

  // 16 repeats the length before, 17 and 18 a length of 0.
  function Repeats(sym: nat, v: nat, u: nat, have: seq<nat>, total: nat): Piece {
    if sym == 16 then
      if have == [] then Wrong(u + 2) else Within(Repeat(have[|have| - 1], 3 + Low(v, 2)), u + 2, have, total)
    else if sym == 17 then Within(Repeat(0, 3 + Low(v, 3)), u + 3, have, total)
    else Within(Repeat(0, 11 + Low(v, 7)), u + 7, have, total)
  }

  // A repeat must not go beyond the lengths announced.
  function Within(add: seq<nat>, used: nat, have: seq<nat>, total: nat): Piece {
    if |have| + |add| > total then Wrong(used) else Piece(add, used)
  }

  datatype Progress = Read(have: seq<nat>, pos: nat) | Failed(pos: nat)

  // The lengths after n symbols, or after all.
  ghost function Lengths(codes: seq<nat>, v: nat, total: nat, n: nat): Progress {
    if n == 0 then Read([], 0)
    else match Lengths(codes, v, total, n - 1)
      case Failed(p) => Failed(p)
      case Read(have, p) =>
        if |have| >= total then Read(have, p)
        else match Next(codes, Shr(v, p), have, total)
          case Wrong(used) => Failed(p + used)
          case Piece(add, used) => Read(have + add, p + used)
  }

  datatype Head = Head(c: Codes, pos: nat) | BadHead(pos: nat)

  function Nlen(v: nat): nat { Low(v, 5) + 257 }

  function Ndist(v: nat): nat { Low(Shr(v, 5), 5) + 1 }

  function Ncode(v: nat): nat { Low(Shr(v, 10), 4) + 4 }

  // The whole header: how many lengths of each kind, the code length code, the lengths; the code must have an
  // end-of-block symbol.
  ghost function Header(v: nat): Head {
    if Nlen(v) > 286 || Ndist(v) > 30 then BadHead(14)
    else
      var codes, p := CodeLengths(Shr(v, 14), Ncode(v)), 14 + 3 * Ncode(v);
      if Rejected(Table.CODES, codes) then BadHead(p)
      else match Lengths(codes, Shr(v, p), Nlen(v) + Ndist(v), Nlen(v) + Ndist(v))
        case Failed(q) => BadHead(p + q)
        case Read(have, q) =>
          if |have| != Nlen(v) + Ndist(v) || have[256] == 0 then BadHead(p + q)
          else Head(Codes(have[..Nlen(v)], have[Nlen(v)..]), p + q)
  }

  // ---- the code length table -------------------------------------------------------------------

  // The entry of a code length symbol is the symbol itself.
  lemma CodesEntry(sym: nat, bits: nat)
    requires sym < 19
    ensures Table.EntryFor(Table.CODES, sym, bits) == Table.Code(0, bits, sym)
  {
  }

  ghost predicate SmallCodes(codes: seq<nat>) { |codes| == 19 && forall s {:trigger codes[s]} :: 0 <= s < 19 ==> codes[s] <= 7 }

  // A table for the code length code, without sub-tables.
  ghost predicate TableOf(codes: seq<nat>, t: seq<Table.Code>, root: nat) {
    && SmallCodes(codes) && 1 <= root <= 7
    && Table.DecodesAll(Table.CODES, codes, t, root) && Table.InvalidRest(codes, t, root)
    && (Table.NoCodes(codes) || (Table.AllCoded(codes) && forall s {:trigger codes[s]} :: 0 <= s < 19 ==> codes[s] <= root))
  }

  // Every stream finds the symbol whose code it starts with.
  lemma DirectEntry(codes: seq<nat>, t: seq<Table.Code>, root: nat, v: nat)
    requires TableOf(codes, t, root)
    ensures |codes| == 19 && Low(v, root) < |t|
    ensures match Symbol(codes, v)
      case None => Table.NoCodes(codes) && t[Low(v, root)] == Table.Code(64, 1, 0)
      case Some(sym) => sym < 19 && 1 <= codes[sym] <= root && t[Low(v, root)] == Table.Code(0, codes[sym], sym)
  {
    hide Low, Shr, StartsWith, Table.EntryFor, Table.InvalidRest;
    assert Table.MaxSymbols(Table.CODES) == 19;
    match Symbol(codes, v)
    case None =>
      SomeSymbol(codes, v);
      RestEntry(codes, t, root, v);
    case Some(sym) =>
      assert Table.Decodes(t, root, v, Table.EntryFor(Table.CODES, sym, 0), codes[sym]);
      CodesEntry(sym, 0);
  }

  lemma SomeSymbol(codes: seq<nat>, v: nat)
    ensures Table.AllCoded(codes) ==> Symbol(codes, v).Some?
  {
    if Table.AllCoded(codes) {
      assert Table.Coded(codes, v);
      var sym: nat :| sym < |codes| && codes[sym] >= 1 && StartsWith(codes, sym, v);
      hide StartsWith;
      assert Starts(codes, sym, v);
    }
  }

  lemma RestEntry(codes: seq<nat>, t: seq<Table.Code>, root: nat, v: nat)
    requires Table.InvalidRest(codes, t, root) && root >= 1 && Symbol(codes, v).None?
    ensures Low(v, root) < |t| && t[Low(v, root)] == Table.Code(64, 1, 0)
  {
    hide Low, Shr, StartsWith;
    assert Low(v, root) >= 0;
    forall sym: nat {:trigger StartsWith(codes, sym, v)} | sym < |codes| && codes[sym] >= 1 ensures !StartsWith(codes, sym, v) {
      assert !Starts(codes, sym, v);
    }
  }

  // Whether a stream starts with a code is decided by its first bits.
  lemma StartsLow(codes: seq<nat>, sym: nat, v: nat, b: nat)
    requires sym < |codes| && codes[sym] <= b
    ensures Starts(codes, sym, Low(v, b)) <==> Starts(codes, sym, v)
  {
    if codes[sym] >= 1 {
      hide CodeOf;
      Table.LowLow(v, b, codes[sym]);
      SameLow(Low(v, b), v, codes[sym]);
      SamePrefix(Low(v, b), v, codes[sym]);
    }
  }

  // An entry that takes no more bits than are known is the right one; otherwise the right one needs more.
  lemma Settled(codes: seq<nat>, t: seq<Table.Code>, root: nat, v: nat, b: nat)
    requires TableOf(codes, t, root)
    ensures Low(v, root) < |t| && Low(Low(v, b), root) < |t|
    ensures var e := t[Low(Low(v, b), root)];
      if e.bits <= b then e == t[Low(v, root)] else t[Low(v, root)].bits > b
  {
    hide Low, Starts, TableOf, Table.NoCodes;
    DirectEntry(codes, t, root, v);
    DirectEntry(codes, t, root, Low(v, b));
    if Symbol(codes, v).Some? && codes[Symbol(codes, v).value] <= b {
      SymbolLow(codes, v, b, Symbol(codes, v).value, t, root);
    }
    if Symbol(codes, Low(v, b)).Some? && codes[Symbol(codes, Low(v, b)).value] <= b {
      SymbolLow(codes, v, b, Symbol(codes, Low(v, b)).value, t, root);
    }
    NoneAlike(codes, t, root, v, Low(v, b));
  }

  lemma NoneAlike(codes: seq<nat>, t: seq<Table.Code>, root: nat, v: nat, w: nat)
    requires TableOf(codes, t, root)
    ensures Symbol(codes, v).None? <==> Symbol(codes, w).None?
  {
    hide Low, StartsWith;
    DirectEntry(codes, t, root, v);
    DirectEntry(codes, t, root, w);
  }

  lemma SymbolLow(codes: seq<nat>, v: nat, b: nat, sym: nat, t: seq<Table.Code>, root: nat)
    requires TableOf(codes, t, root) && sym < |codes| && codes[sym] <= b
    requires Starts(codes, sym, v) || Starts(codes, sym, Low(v, b))
    ensures Symbol(codes, v) == Symbol(codes, Low(v, b)) == Some(sym)
  {
    hide Starts, Low;
    StartsLow(codes, sym, v, b);
    assert Table.LensOk(codes);
    SymbolUnique(codes, sym, Symbol(codes, v).value, v);
    SymbolUnique(codes, sym, Symbol(codes, Low(v, b)).value, Low(v, b));
  }

  // ---- reading bits ----------------------------------------------------------------------------

  // Good, an error in the data, or not enough input.
  datatype Verdict = Good | Bad | Short

  function Avail(s: Source): nat { s.bits0 + 8 * |s.input| }

  // NEEDBITS: n bits of the stream at p.
  method NeedBits(ghost s: Source, input: seq<nat>, r0: Reg, ghost p: nat, n: nat) returns (ok: bool, r: Reg)
    requires SourceOk(s) && s.input == input && Synced(s, r0, p) && n <= 24 && r0.bits <= 24
    ensures Synced(s, r, p) && r.hold < Pow2(32) && r.bits <= 32
    ensures ok <==> p + n <= Avail(s)
    ensures ok ==> r.bits >= n && (r == r0 || r.bits < n + 8)
  {
    hide Synced, SourceOk, Pow2;
    r := r0;
    SyncedBits(s, r, p);
    while r.bits < n && r.next < |input|
      invariant Synced(s, r, p) && (r == r0 || r.bits < n + 8) && r.bits <= 32
      invariant r.next <= |input| && p + r.bits == s.bits0 + 8 * r.next
      decreases |input| - r.next
    {
      PullSynced(s, r, p);
      r := Pull(r, input);
      SyncedBits(s, r, p);
    }
    ok := r.bits >= n;
    HoldFits(s, r, p);
  }

  lemma SyncedBits(s: Source, r: Reg, p: nat)
    requires Synced(s, r, p)
    ensures r.next <= |s.input| && p + r.bits == s.bits0 + 8 * r.next && r.hold == Low(Shr(Stream(s), p), r.bits)
  {
  }

  // Look up with the bits there are, and pull a byte while the entry found takes more.
  method CodeEntry(ghost s: Source, input: seq<nat>, r0: Reg, ghost p: nat, t: seq<Table.Code>, root: nat, ghost codes: seq<nat>)
      returns (ok: bool, here: Table.Code, r: Reg)
    requires SourceOk(s) && s.input == input && Synced(s, r0, p) && r0.bits < 8 && TableOf(codes, t, root)
    ensures Synced(s, r, p) && r.bits <= 16
    ensures Low(Shr(Stream(s), p), root) < |t| && var e := t[Low(Shr(Stream(s), p), root)];
      && (ok <==> p + e.bits <= Avail(s))
      && (ok ==> here == e && e.bits <= r.bits < e.bits + 8)
  {
    hide Synced, SourceOk, TableOf, Low, Shr, Stream;
    ghost var v := Shr(Stream(s), p);
    r := r0;
    SyncedBits(s, r, p);
    Settled(codes, t, root, v, r.bits);
    here := t[Low(r.hold, root)];
    EntryBits(codes, t, root, v);
    while here.bits > r.bits && r.next < |input|
      invariant Synced(s, r, p) && r.next <= |input| && p + r.bits == s.bits0 + 8 * r.next && r.hold == Low(v, r.bits)
      invariant Low(v, root) < |t| && Low(r.hold, root) < |t| && here == t[Low(r.hold, root)]
      invariant if here.bits <= r.bits then here == t[Low(v, root)] else t[Low(v, root)].bits > r.bits
      invariant r.bits < t[Low(v, root)].bits + 8
      decreases |input| - r.next
    {
      PullSynced(s, r, p);
      r := Pull(r, input);
      SyncedBits(s, r, p);
      Settled(codes, t, root, v, r.bits);
      here := t[Low(r.hold, root)];
    }
    ok := here.bits <= r.bits;
  }

  lemma EntryBits(codes: seq<nat>, t: seq<Table.Code>, root: nat, v: nat)
    requires TableOf(codes, t, root)
    ensures Low(v, root) < |t| && 1 <= t[Low(v, root)].bits <= 7
  {
    hide Low, Table.NoCodes;
    DirectEntry(codes, t, root, v);
  }

  // ---- the code length code --------------------------------------------------------------------

  lemma OrderRank(k: nat)
    requires k < 19
    ensures ORDER[k] < 19 && Rank(ORDER[k]) == k && Rank(k) < 19 && ORDER[Rank(k)] == k
  {
  }

  lemma OnlyRank(k: nat)
    requires k < 19
    ensures ORDER[k] < 19
    ensures forall sym {:trigger Rank(sym)} :: 0 <= sym < 19 ==> Rank(sym) < 19 && (Rank(sym) == k <==> sym == ORDER[k])
  {
    hide Rank;
    OrderRank(k);
    forall sym {:trigger Rank(sym)} | 0 <= sym < 19 ensures Rank(sym) < 19 && (Rank(sym) == k <==> sym == ORDER[k]) {
      OrderRank(sym);
    }
  }

  // The symbols of rank below n have been given their lengths.
  ghost predicate Given(lens: seq<nat>, v: nat, ncode: nat, n: nat) {
    |lens| >= 19 && forall sym {:trigger Rank(sym)} :: 0 <= sym < 19 && Rank(sym) < n ==> lens[sym] == CodeLengths(v, ncode)[sym]
  }

  lemma GivenNext(lens: seq<nat>, v: nat, ncode: nat, n: nat, x: nat)
    requires Given(lens, v, ncode, n) && n < 19 && x == if n < ncode then Low(Shr(v, 3 * n), 3) else 0
    ensures ORDER[n] < 19 && Given(lens[ORDER[n] := x], v, ncode, n + 1)
  {
    hide Rank, Low, Shr;
    OnlyRank(n);
  }

  lemma AllGiven(lens: seq<nat>, v: nat, ncode: nat)
    requires Given(lens, v, ncode, 19)
    ensures lens[..19] == CodeLengths(v, ncode)
  {
    hide Rank, CodeLengths;
    OnlyRank(0);
    var c := CodeLengths(v, ncode);
    forall sym | 0 <= sym < 19 ensures lens[..19][sym] == c[sym] {
      assert Rank(sym) < 19;
    }
  }

  // Three bits each, in the order; the others are 0.
  method ReadCodeLengths(ghost s: Source, input: seq<nat>, r0: Reg, ghost p: nat, ncode: nat, lens: array<nat>)
      returns (ok: bool, r: Reg)
    requires SourceOk(s) && s.input == input && Synced(s, r0, p) && r0.bits < 8 && ncode <= 19 && lens.Length >= 19
    modifies lens
    ensures ok <==> p + 3 * ncode <= Avail(s)
    ensures ok ==> Synced(s, r, p + 3 * ncode) && r.bits < 8 && lens[..19] == CodeLengths(Shr(Stream(s), p), ncode)
  {
    hide Synced, SourceOk, Low, Shr, Stream, Given;
    ghost var v := Shr(Stream(s), p);
    r := r0;
    NoneGiven(lens[..], v, ncode);
    var have := 0;
    while have < ncode
      invariant have <= ncode && Synced(s, r, p + 3 * have) && r.bits < 8 && Given(lens[..], v, ncode, have)
    {
      ok, r := NeedBits(s, input, r, p + 3 * have, 3);
      if !ok {
        return;
      }
      var x;
      x, r := Extra(s, r, p + 3 * have, 3);
      ShrShr(Stream(s), p, 3 * have);
      GivenNext(lens[..], v, ncode, have, x);
      ghost var was := lens[..];
      lens[ORDER[have]] := x;
      assert lens[..] == was[ORDER[have] := x];
      have := have + 1;
    }
    SyncedBits(s, r, p + 3 * ncode);
    while have < 19
      invariant ncode <= have <= 19 && Given(lens[..], v, ncode, have)
    {
      GivenNext(lens[..], v, ncode, have, 0);
      ghost var was := lens[..];
      lens[ORDER[have]] := 0;
      assert lens[..] == was[ORDER[have] := 0];
      have := have + 1;
    }
    AllGiven(lens[..], v, ncode);
    assert lens[..][..19] == lens[..19];
    ok := true;
  }

  lemma NoneGiven(lens: seq<nat>, v: nat, ncode: nat)
    requires |lens| >= 19
    ensures Given(lens, v, ncode, 0)
  {
  }

  // ---- the code lengths ------------------------------------------------------------------------

  // while (copy--) lens[have++] = len
  method Fill(lens: array<nat>, have0: nat, len: nat, copy0: nat) returns (have: nat)
    requires have0 + copy0 <= lens.Length
    modifies lens
    ensures have == have0 + copy0 && lens[..have] == old(lens[..have0]) + Repeat(len, copy0)
  {
    have := have0;
    var copy: nat := copy0;
    while copy != 0
      invariant 0 <= copy <= copy0 && have == have0 + (copy0 - copy)
      invariant forall i :: 0 <= i < have0 ==> lens[i] == old(lens[i])
      invariant forall i :: have0 <= i < have ==> lens[i] == len
      decreases copy
    {
      lens[have] := len;
      have, copy := have + 1, copy - 1;
    }
  }

  // One symbol, and what it adds to the lengths.
  method ReadLength(ghost s: Source, input: seq<nat>, r0: Reg, ghost p: nat, t: seq<Table.Code>, root: nat, ghost codes: seq<nat>,
                    lens: array<nat>, have0: nat, total: nat)
      returns (verdict: Verdict, have: nat, r: Reg)
    requires SourceOk(s) && s.input == input && Synced(s, r0, p) && r0.bits < 8 && TableOf(codes, t, root)
    requires have0 < total <= lens.Length
    modifies lens
    ensures match Next(codes, Shr(Stream(s), p), old(lens[..have0]), total)
      case Wrong(used) => verdict == if p + used <= Avail(s) then Bad else Short
      case Piece(add, used) =>
        && verdict == (if p + used <= Avail(s) then Good else Short)
        && (verdict == Good ==> have <= total && lens[..have] == old(lens[..have0]) + add && Synced(s, r, p + used) && r.bits < 8)
  {
    hide Synced, SourceOk, TableOf, Low, Shr, Stream, Repeat;
    ghost var v := Shr(Stream(s), p);
    DirectEntry(codes, t, root, v);
    EntryBits(codes, t, root, v);
    var ok, here;
    ok, here, r := CodeEntry(s, input, r0, p, t, root, codes);
    have := have0;
    verdict := Short;
    if here.val < 16 {
      if ok {
        DropSynced(s, r, p, here.bits);
        r := Drop(r, here.bits);
        ghost var was := lens[..];
        lens[have] := here.val;
        have := have + 1;
        assert lens[..have] == was[..have0] + [here.val];
        verdict := Good;
      }
    } else if ok {
      assert Symbol(codes, v).Some? && here.val <= 18 && here.bits <= 7;
      ShrShr(Stream(s), p, here.bits);
      verdict, have, r := ReadRepeat(s, input, r, p, here.val, here.bits, lens, have0, total);
    }
  }

  method ReadRepeat(ghost s: Source, input: seq<nat>, r0: Reg, ghost p: nat, sym: nat, u: nat, lens: array<nat>, have0: nat, total: nat)
      returns (verdict: Verdict, have: nat, r: Reg)
    requires SourceOk(s) && s.input == input && Synced(s, r0, p) && u <= r0.bits < u + 8 && u <= 7 && 16 <= sym <= 18
    requires have0 < total <= lens.Length
    modifies lens
    ensures match Repeats(sym, Shr(Stream(s), p + u), u, old(lens[..have0]), total)
      case Wrong(used) => verdict == if p + used <= Avail(s) then Bad else Short
      case Piece(add, used) =>
        && verdict == (if p + used <= Avail(s) then Good else Short)
        && (verdict == Good ==> have <= total && lens[..have] == old(lens[..have0]) + add && Synced(s, r, p + used) && r.bits < 8)
  {
    hide Synced, SourceOk, Low, Shr, Stream, Pow2;
    var n := if sym == 16 then 2 else if sym == 17 then 3 else 7;
    have := have0;
    var ok;
    ok, r := NeedBits(s, input, r0, p, u + n);
    if !ok {
      return Short, have, r;
    }
    DropSynced(s, r, p, u);
    r := Drop(r, u);
    if sym == 16 && have == 0 {
      return Bad, have, r;
    }
    var len := if sym == 16 then lens[have - 1] else 0;
    var x;
    x, r := Extra(s, r, p + u, n);
    var copy := (if sym == 18 then 11 else 3) + x;
    if have + copy > total {
      return Bad, have, r;
    }
    have := Fill(lens, have, len, copy);
    verdict := Good;
  }

  lemma AddsSome(codes: seq<nat>, v: nat, have: seq<nat>, total: nat)
    requires |have| < total
    ensures Next(codes, v, have, total).Piece? ==> |Next(codes, v, have, total).add| >= 1
  {
    hide Low, Shr;
  }

  // After the last symbol, or an error, nothing more happens.
  lemma {:induction false} LengthsStay(codes: seq<nat>, v: nat, total: nat, n: nat, m: nat)
    requires n <= m && (Lengths(codes, v, total, n).Read? ==> |Lengths(codes, v, total, n).have| >= total)
    ensures Lengths(codes, v, total, m) == Lengths(codes, v, total, n)
  {
    hide Next, Shr;
    if n < m {
      LengthsStay(codes, v, total, n, m - 1);
    }
  }

  lemma LengthsNext(codes: seq<nat>, v: nat, total: nat, n: nat, have: seq<nat>, q: nat)
    requires Lengths(codes, v, total, n) == Read(have, q) && |have| < total
    ensures match Next(codes, Shr(v, q), have, total)
      case Wrong(used) => Lengths(codes, v, total, n + 1) == Failed(q + used)
      case Piece(add, used) => Lengths(codes, v, total, n + 1) == Read(have + add, q + used) && |add| >= 1
  {
    AddsSome(codes, Shr(v, q), have, total);
    hide Next, Shr;
  }

  // All the lengths.  Input runs out exactly if there are fewer bits than the reference takes.
  method ReadLengths(ghost s: Source, input: seq<nat>, r0: Reg, ghost p: nat, t: seq<Table.Code>, root: nat, ghost codes: seq<nat>,
                     lens: array<nat>, total: nat)
      returns (verdict: Verdict, r: Reg)
    requires SourceOk(s) && s.input == input && Synced(s, r0, p) && r0.bits < 8 && TableOf(codes, t, root) && total <= lens.Length
    modifies lens
    ensures match Lengths(codes, Shr(Stream(s), p), total, total)
      case Failed(q) => verdict == if p + q <= Avail(s) then Bad else Short
      case Read(have, q) =>
        && verdict == (if p + q <= Avail(s) then Good else Short)
        && (verdict == Good ==> |have| == total && lens[..total] == have && Synced(s, r, p + q) && r.bits < 8)
  {
    hide Synced, SourceOk, TableOf, Low, Shr, Stream, Next, Lengths;
    ghost var v := Shr(Stream(s), p);
    r := r0;
    var have := 0;
    ghost var n: nat, q: nat := 0, 0;
    NoLengths(codes, v, total);
    assert lens[..0] == [];
    SyncedBits(s, r, p);
    while have < total
      invariant n <= have <= total && Lengths(codes, v, total, n) == Read(lens[..have], q)
      invariant Synced(s, r, p + q) && r.bits < 8 && p + q <= Avail(s)
      decreases total - have
    {
      LengthsNext(codes, v, total, n, lens[..have], q);
      ShrShr(Stream(s), p, q);
      ghost var piece := Next(codes, Shr(v, q), lens[..have], total);
      verdict, have, r := ReadLength(s, input, r, p + q, t, root, codes, lens, have, total);
      if verdict != Good {
        NeedsMore(codes, v, total, n, q, piece);
        return;
      }
      n, q := n + 1, q + piece.used;
    }
    LengthsStay(codes, v, total, n, total);
    verdict := Good;
  }

  lemma NoLengths(codes: seq<nat>, v: nat, total: nat)
    ensures Lengths(codes, v, total, 0) == Read([], 0)
  {
  }

  // What comes later takes no fewer bits.
  lemma {:induction false} PosGrows(codes: seq<nat>, v: nat, total: nat, n: nat, m: nat)
    requires n <= m
    ensures Lengths(codes, v, total, n).pos <= Lengths(codes, v, total, m).pos
  {
    hide Next, Shr;
    if n < m {
      PosGrows(codes, v, total, n, m - 1);
    }
  }

  lemma NeedsMore(codes: seq<nat>, v: nat, total: nat, n: nat, q: nat, piece: Piece)
    requires n < total
    requires match piece
      case Wrong(used) => Lengths(codes, v, total, n + 1) == Failed(q + used)
      case Piece(add, used) => Lengths(codes, v, total, n + 1).Read? && Lengths(codes, v, total, n + 1).pos == q + used
    ensures piece.Wrong? ==> Lengths(codes, v, total, total) == Failed(q + piece.used)
    ensures Lengths(codes, v, total, total).pos >= q + piece.used
  {
    hide Lengths;
    PosGrows(codes, v, total, n + 1, total);
    if piece.Wrong? {
      LengthsStay(codes, v, total, n + 1, total);
    }
  }

  // ---- the header ------------------------------------------------------------------------------

  // The table of the code length code.
  method BuildCodes(codes: seq<nat>, table: array<Table.Code>) returns (ok: bool, root: nat)
    requires SmallCodes(codes) && table.Length >= 128
    modifies table
    ensures ok <==> !Rejected(Table.CODES, codes)
    ensures ok ==> TableOf(codes, table[..], root)
  {
    assert Table.MaxSymbols(Table.CODES) == 19 && Pow2(7) == 128 by { SmallPowers(); }
    hide Table.DecodesAll, Table.InvalidRest, Table.NoUnusedSlot, Table.NoCodes, Table.AllCoded, Table.Oversubscribed,
         Table.Incomplete, Table.RootIs, Table.TableSize, Table.LongestIs, Pow2;
    var ret, used;
    ret, root, used := Table.InflateTable(Table.CODES, codes, 7, table);
    ok := ret == 0;
    if ok {
      if Table.NoCodes(codes) {
        NoCodesTable(Table.CODES, codes, table[..]);
      } else {
        RootCovers(codes, root);
      }
    }
  }

  // Seven root bits are enough for every code length code.
  lemma RootCovers(codes: seq<nat>, root: nat)
    requires SmallCodes(codes) && !Table.NoCodes(codes) && Table.RootIs(codes, 7, root)
    ensures root <= 7 && forall s {:trigger codes[s]} :: 0 <= s < 19 ==> codes[s] <= root
  {
    var n := LastCoded(codes, 19);
    var min, max := Extremes(codes, n);
  }

  lemma {:induction false} SmallLengths(codes: seq<nat>, v: nat, total: nat, n: nat)
    ensures Lengths(codes, v, total, n).Read? ==>
              forall i {:trigger Lengths(codes, v, total, n).have[i]} ::
                0 <= i < |Lengths(codes, v, total, n).have| ==> Lengths(codes, v, total, n).have[i] <= 15
  {
    hide Low, Shr;
    if n > 0 {
      SmallLengths(codes, v, total, n - 1);
      if Lengths(codes, v, total, n - 1).Read? {
        var have, p := Lengths(codes, v, total, n - 1).have, Lengths(codes, v, total, n - 1).pos;
        SmallPiece(codes, Shr(v, p), have, total);
        hide Next;
      }
    }
  }

  lemma SmallPiece(codes: seq<nat>, v: nat, have: seq<nat>, total: nat)
    requires forall i {:trigger have[i]} :: 0 <= i < |have| ==> have[i] <= 15
    ensures var piece := Next(codes, v, have, total);
      piece.Piece? ==> forall i {:trigger piece.add[i]} :: 0 <= i < |piece.add| ==> piece.add[i] <= 15
  {
    hide Low, Shr;
  }

  lemma HeadIs(v: nat)
    requires Header(v).Head?
    ensures Nlen(v) <= 286 && Ndist(v) <= 30
    ensures var codes, w := CodeLengths(Shr(v, 14), Ncode(v)), Shr(v, 14 + 3 * Ncode(v));
      var got := Lengths(codes, w, Nlen(v) + Ndist(v), Nlen(v) + Ndist(v));
      got.Read? && |got.have| == Nlen(v) + Ndist(v) && Header(v).c == Codes(got.have[..Nlen(v)], got.have[Nlen(v)..])
  {
    hide Low, Shr, CodeLengths, Lengths, Rejected, Nlen, Ndist, Ncode;
    CountsBound(v);
  }

  lemma HeaderCodesOk(v: nat)
    ensures Header(v).Head? ==> CodesOk(Header(v).c)
  {
    hide Low, Shr, CodeLengths, Lengths, Rejected, Nlen, Ndist, Ncode, Header;
    if Header(v).Head? {
      HeadIs(v);
      var codes, w, total := CodeLengths(Shr(v, 14), Ncode(v)), Shr(v, 14 + 3 * Ncode(v)), Nlen(v) + Ndist(v);
      SmallLengths(codes, w, total, total);
      assert Table.MaxSymbols(Table.LENS) == 288 && Table.MaxSymbols(Table.DISTS) == 32;
    }
  }

  lemma CodeLengthsSmall(v: nat, ncode: nat)
    ensures SmallCodes(CodeLengths(v, ncode))
  {
    hide Low, Shr;
    forall s | 0 <= s < 19 ensures CodeLengths(v, ncode)[s] <= 7 {
      LowBelow(Shr(v, 3 * Rank(s)), 3);
    }
    assert Pow2(3) == 8 by { SmallPowers(); }
  }

  // The three counts.
  method ReadCounts(ghost s: Source, input: seq<nat>, r0: Reg, ghost p: nat) returns (ok: bool, nlen: nat, ndist: nat, ncode: nat, r: Reg)
    requires SourceOk(s) && s.input == input && Synced(s, r0, p) && r0.bits < 8
    ensures ok <==> p + 14 <= Avail(s)
    ensures ok ==> Synced(s, r, p + 14) && r.bits < 8
    ensures var v := Shr(Stream(s), p); ok ==> nlen == Nlen(v) && ndist == Ndist(v) && ncode == Ncode(v) <= 19
  {
    hide Synced, SourceOk, Low, Shr, Stream, Pow2;
    nlen, ndist, ncode := 0, 0, 0;
    ok, r := NeedBits(s, input, r0, p, 14);
    if ok {
      ShrShr(Stream(s), p, 5);
      ShrShr(Stream(s), p, 10);
      nlen, r := Extra(s, r, p, 5);
      ndist, r := Extra(s, r, p + 5, 5);
      ncode, r := Extra(s, r, p + 10, 4);
      LowBelow(Shr(Stream(s), p + 10), 4);
      assert Pow2(4) == 16 by { SmallPowers(); }
      nlen, ndist, ncode := nlen + 257, ndist + 1, ncode + 4;
    }
  }

  // From the counts to the lengths of both codes.
  method ReadHeader(ghost s: Source, input: seq<nat>, r0: Reg, ghost p: nat, lens: array<nat>, table: array<Table.Code>)
      returns (verdict: Verdict, nlen: nat, ndist: nat, r: Reg)
    requires SourceOk(s) && s.input == input && Synced(s, r0, p) && r0.bits < 8 && lens.Length >= 320 && table.Length >= 128
    modifies lens, table
    ensures match Header(Shr(Stream(s), p))
      case BadHead(q) => verdict == if p + q <= Avail(s) then Bad else Short
      case Head(c, q) =>
        && verdict == (if p + q <= Avail(s) then Good else Short)
        && (verdict == Good ==>
              nlen + ndist <= lens.Length && c == Codes(lens[..nlen], lens[nlen..nlen + ndist]) && Synced(s, r, p + q) && r.bits < 8)
  {
    hide Synced, SourceOk, Low, Shr, Stream, CodeLengths, Lengths, Rejected, TableOf, Nlen, Ndist, Ncode;
    ghost var v := Shr(Stream(s), p);
    var ok, ncode;
    ok, nlen, ndist, ncode, r := ReadCounts(s, input, r0, p);
    verdict := Short;
    if !ok {
      HeaderTakes(v);
      return;
    }
    if nlen > 286 || ndist > 30 {
      return Bad, nlen, ndist, r;
    }
    ShrShr(Stream(s), p, 14);
    ok, r := ReadCodeLengths(s, input, r, p + 14, ncode, lens);
    if !ok {
      HeaderTakes(v);
      return;
    }
    var codes := lens[..19];
    CodeLengthsSmall(Shr(v, 14), ncode);
    var root;
    ok, root := BuildCodes(codes, table);
    if !ok {
      return Bad, nlen, ndist, r;
    }
    ShrShr(Stream(s), p, 14 + 3 * ncode);
    verdict, r := ReadLengths(s, input, r, p + 14 + 3 * ncode, table[..], root, codes, lens, nlen + ndist);
    CountsBound(v);
    if verdict == Good {
      assert lens[..nlen + ndist][..nlen] == lens[..nlen] && lens[..nlen + ndist][nlen..] == lens[nlen..nlen + ndist];
      assert lens[..nlen + ndist][256] == lens[256];
      if lens[256] == 0 {
        verdict := Bad;
      }
    }
  }

  lemma CountsBound(v: nat)
    ensures Nlen(v) >= 257 && Ndist(v) >= 1
  {
  }

  lemma HeaderTakes(v: nat)
    ensures Header(v).pos >= 14
    ensures !(Nlen(v) > 286 || Ndist(v) > 30) ==> Header(v).pos >= 14 + 3 * Ncode(v)
  {
    hide Low, Shr, CodeLengths, Lengths, Rejected;
  }

  // ---- the whole block -------------------------------------------------------------------------

  lemma {:induction false} Split(x: nat, a: nat)
    ensures x == Low(x, a) + Scale(Shr(x, a), a)
    decreases a
  {
    if a > 0 {
      Split(x / 2, a - 1);
    }
  }

  lemma {:induction false} BytesFrom(bytes: seq<nat>, i: nat)
    requires BytesOk(bytes) && i <= |bytes|
    ensures Shr(Num(bytes), 8 * i) == Num(bytes[i..])
    decreases i
  {
    if i == 0 {
      assert bytes[0..] == bytes;
    } else {
      hide Scale, Low, Shr, Pow2;
      Pow8();
      Table.JoinNum(bytes[0], Num(bytes[1..]), 8);
      ShrShr(Num(bytes), 8, 8 * (i - 1));
      BytesFrom(bytes[1..], i - 1);
      assert bytes[1..][i - 1..] == bytes[i..];
    }
  }

  // What the reservoir has and the input not yet read are a source of their own: the rest of the stream.
  lemma RestOfStream(s: Source, r: Reg, p: nat)
    requires SourceOk(s) && Synced(s, r, p) && r.bits < 8
    ensures r.next <= |s.input|
    ensures var t := Source(s.input[r.next..], r.hold, r.bits);
      SourceOk(t) && Stream(t) == Shr(Stream(s), p) && Avail(s) == p + Avail(t)
  {
    hide Low, Shr, Scale, Num, Pow2;
    var v := Stream(s);
    LowBelow(Shr(v, p), r.bits);
    Split(Shr(v, p), r.bits);
    ShrShr(v, p, r.bits);
    ShrShr(v, s.bits0, 8 * r.next);
    Table.JoinNum(s.hold0, Num(s.input), s.bits0);
    BytesFrom(s.input, r.next);
  }

  // The codes for which both tables are built.
  ghost predicate Accepted(c: Codes) {
    && (Table.NoCodes(c.l) || (!Rejected(Table.LENS, c.l) && HasRoom(Table.LENS, c.l, 9)))
    && (Table.NoCodes(c.d) || (!Rejected(Table.DISTS, c.d) && HasRoom(Table.DISTS, c.d, 6)))
  }

  // A dynamic block from its header on.  The header is that of the definition above, Bad or Short exactly when it
  // is; with enough input and output left, inflate_fast then decodes the rest of the stream by the codes of the header.
  method InflateDynamic(input: seq<nat>, hold0: nat, bits0: nat, lens: array<nat>, codes: array<Table.Code>,
                        ltable: array<Table.Code>, dtable: array<Table.Code>, out: array<nat>, put: nat,
                        window: seq<nat>, wsize: nat, whave: nat, wnext: nat)
      returns (verdict: Verdict, fast: bool, mode: Mode, r: Reg, cur: nat, ghost n: nat)
    requires SourceOk(Source(input, hold0, bits0)) && put <= out.Length && WindowOk(window, wsize, whave, wnext)
    requires lens.Length >= 320 && codes.Length >= 128 && ltable.Length >= Table.ENOUGH_LENS && dtable.Length >= Table.ENOUGH_DISTS
    requires ltable != dtable && out != lens
    modifies lens, codes, ltable, dtable, out
    ensures var s := Source(input, hold0, bits0);
      match Header(Stream(s))
      case BadHead(q) => verdict == if q <= Avail(s) then Bad else Short
      case Head(c, q) => verdict == if q > Avail(s) then Short else if Accepted(c) then Good else Bad
    ensures verdict != Good || !fast ==> cur == put && out[..] == old(out[..])
    ensures verdict == Good ==>
      var s := Source(input, hold0, bits0);
      var Head(c, q) := Header(Stream(s));
      && (!fast ==> Synced(s, r, q) && r.bits < 8 && (r.next + 6 > |input| || put + 258 > out.Length))
      && (fast ==> exists next: nat, hold: nat, bits: nat {:trigger Source(input[next..], hold, bits)} ::
           && next + 6 <= |input| && put <= cur <= out.Length
           && var rest := Source(input[next..], hold, bits);
              && Stream(rest) == Shr(Stream(s), q) && Avail(s) == q + Avail(rest)
              && Wrote(old(out[..]), out[..], put, cur)
              && Followed(c, rest, History(window, wsize, whave, wnext), old(out[..put]), out[..], cur, r, mode, n))
  {
    hide *;
    fast, mode, cur, n := false, LEN, put, 0;
    ghost var s := Source(input, hold0, bits0);
    ghost var v := Stream(s);
    StartsHere(s);
    var nlen, ndist;
    verdict, nlen, ndist, r := ReadHeader(s, input, Reg(hold0, bits0, 0), 0, lens, codes);
    if verdict != Good {
      return;
    }
    var c := Codes(lens[..nlen], lens[nlen..nlen + ndist]);
    HeaderCodesOk(v);
    Offered(c, ltable.Length, dtable.Length);
    var lret, dret, lroot, droot;
    lret, dret, lroot, droot := BuildTables(c, ltable, dtable);
    AcceptedIs(c);
    if lret != 0 || dret != 0 {
      verdict := Bad;
      return;
    }
    ghost var q := Header(v).pos;
    RestOfStream(s, r, q);
    fast := r.next + 6 <= |input| && put + 258 <= out.Length;
    if fast {
      var next, hold, bits := r.next, r.hold, r.bits;
      var x := Tables(ltable[..], lroot, dtable[..], droot);
      mode, r, cur, n := FastCodes(c, x, input[next..], hold, bits, out, put, window, wsize, whave, wnext);
      assert Stream(Source(input[next..], hold, bits)) == Shr(v, q);
    }
  }

  lemma StartsHere(s: Source)
    requires SourceOk(s)
    ensures Synced(s, Reg(s.hold0, s.bits0, 0), 0) && s.bits0 < 8 && Shr(Stream(s), 0) == Stream(s)
  {
    StartSynced(s);
  }

  lemma Offered(c: Codes, l: nat, d: nat)
    requires l >= Table.ENOUGH_LENS && d >= Table.ENOUGH_DISTS
    ensures Table.Offers(Table.LENS, c.l, 9, l) && Table.Offers(Table.DISTS, c.d, 6, d)
  {
  }

  lemma AcceptedIs(c: Codes)
    ensures Accepted(c) <==>
      && (Table.NoCodes(c.l) || (!Rejected(Table.LENS, c.l) && HasRoom(Table.LENS, c.l, 9)))
      && (Table.NoCodes(c.d) || (!Rejected(Table.DISTS, c.d) && HasRoom(Table.DISTS, c.d, 6)))
  {
  }
}
