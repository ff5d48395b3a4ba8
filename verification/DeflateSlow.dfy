/**
 * zlib's deflate_slow: lazy LZ77 matching over hash chains in a sliding window.
 * Ghost fields follow the bytes by absolute position: data is everything read so far, base the position
 * of window[0], keys the strings entered in the hash table, sent the symbols given to the block coder,
 * and matchAt and prevAt the positions that match_start and prev_match stand for.  All strings from oldest
 * on were entered but those in gaps; origin is where the window was last started; log has the searches made.
 */
module DeflateSlow {
  import opened Bits
  import opened DeflateHash
  import opened HashTable
  import opened LazyMatching
  import opened DeflateState
  import opened Lz77
  import opened Wrappers

  datatype Flush = NoFlush | SyncFlush | FullFlush | Finish
  datatype BlockState = NeedMore | BlockDone | FinishStarted | FinishDone

  // Arithmetic on uInt.
  function U32(x: int): nat { x % 0x1_0000_0000 }

  class Deflater {
    const wBits: nat
    const wSize: nat
    const hashBits: nat
    const window: array<bv8>
    const prev: array<nat>
    const head: array<nat>
    const symBuf: array<nat>
    const symEnd: nat
    const maxChainLength: nat
    const maxLazyMatch: nat
    const goodMatch: nat
    const niceMatch: nat
    const filtered: bool

    var insH: bv32
    var blockStart: int
    var matchLength: nat
    var prevMatch: nat
    var matchAvailable: bool
    var strstart: nat
    var matchStart: nat
    var lookahead: nat
    var prevLength: nat
    var symNext: nat
    var insert: nat
    var input: seq<bv8>
    var availOut: nat

    ghost var data: seq<bv8>
    ghost var base: nat
    ghost var keys: map<nat, nat>
    ghost var sent: seq<Token<bv8>>
    ghost var matchAt: int
    ghost var prevAt: int
    ghost var oldest: nat
    ghost var gaps: set<nat>
    ghost var origin: nat
    ghost var log: seq<Event>

    ghost function Settings(): Config {
      Config(hashBits, wSize, maxChainLength, maxLazyMatch, goodMatch, niceMatch, filtered)
    }

    // What deflateInit2_ allocates; memLevel 1 to 9 gives 8 to 16 hash bits.
    ghost predicate Shape() {
      && 9 <= wBits <= 15 && wSize == Pow2(wBits) && 512 <= wSize <= 32768
      && window.Length == 2 * wSize && prev.Length == wSize && prev != head
      && BitsOk(hashBits) && head.Length == HashSize(hashBits)
      && symEnd >= 3 && symEnd % 3 == 0 && symEnd <= symBuf.Length && head != symBuf && prev != symBuf
      && window as object != head && window as object != prev && window as object != symBuf
    }

    ghost function At(): nat
      reads this`base, this`strstart
    {
      base + strstart
    }

    ghost predicate Filled()
      reads this`data, this`base, window
    {
      WindowHas(window[..], data, base)
    }

    ghost predicate Placed()
      reads this`data, this`base, this`strstart, this`lookahead, window
    {
      |data| == base + strstart + lookahead && strstart + lookahead <= window.Length && Filled()
    }

    // Strings from before end are in the table; links hold for a search at at.
    ghost predicate Entered(end: int, at: nat)
      reads this`data, this`base, this`keys, this`oldest, this`gaps, head, prev
    {
      && KeysOk(keys, hashBits, data, end) && HeadsOk(head[..], keys, base) && LinksOk(prev[..], keys, base, at)
      && Complete(keys, oldest, gaps, end)
    }

    // The running hash is ready for the string at at; strings are left out only for want of bytes.
    ghost predicate Hashed(at: nat)
      reads this`data, this`insH, this`insert
    {
      && (insert != 0 ==> |data| + insert <= at + 2)
      && (at + 2 < |data| ==> Rolled(hashBits, insH, data[at], data[at + 1]))
    }

    ghost function Held(): seq<Token<bv8>>
      reads this`symNext, symBuf
    {
      if symNext <= symBuf.Length then Symbols(symBuf[..symNext]) else []
    }

    // The symbols stand for the data before end.
    ghost predicate Tallied(end: int)
      reads this`symNext, this`sent, this`data, this`base, this`blockStart, symBuf
    {
      && symNext <= symEnd <= symBuf.Length && symNext % 3 == 0
      && TokensOk(sent, Held(), data, base + blockStart, end)
    }

    // A match of the string at p is at m, which window index start stands for: that index may be -1 after a slide.
    ghost predicate Matched(len: nat, start: nat, m: int, p: int)
      reads this`data, this`base
    {
      Found(data, m, p, len, wSize) && start == U32(m - base)
    }

    // The window, the chains and the pending match; the byte before strstart is pending if matchAvailable.
    ghost predicate Body()
      reads this`data, this`base, this`keys, this`oldest, this`gaps, this`strstart, this`lookahead, this`insert, window, head, prev
      reads this`matchAvailable, this`matchLength, this`matchStart, this`matchAt
    {
      && Shape() && Placed()
      && insert <= strstart && Entered(At() - insert, At())
      && (matchAvailable ==> strstart >= 1)
      && 2 <= matchLength <= MAX_MATCH
      && (matchLength >= MIN_MATCH ==> matchAvailable && Matched(matchLength, matchStart, matchAt, At() - 1))
    }

    // All but the running hash.
    ghost predicate Steady()
      reads this, window, head, prev, symBuf
    {
      Body() && Tallied(if matchAvailable then At() - 1 else At()) && symNext < symEnd
    }

    // The state between the steps.
    ghost predicate Valid()
      reads this, window, head, prev, symBuf
    {
      Steady() && Hashed(At())
    }

    // The searches made so far explain the symbols sent and held, and what is pending.
    ghost predicate Following()
      reads this, symBuf
    {
      && Reaching()
      && Explained(Settings(), data, gaps, log) && Tokens(data, log) == sent + Held()
      && After(log) == Standing()
    }

    // The window begins at origin, or goes back as far as a match may.
    ghost predicate Reaching()
      reads this`base, this`strstart, this`origin, this`oldest
    {
      origin <= oldest && origin <= base && (base == origin || strstart >= wSize - MIN_LOOKAHEAD)
    }

    ghost function Standing(): Pending
      reads this`base, this`strstart, this`matchAvailable, this`matchLength, this`matchAt
    {
      Pending(At(), matchAvailable, matchLength, if matchLength >= MIN_MATCH then matchAt else 0)
    }

    // deflateInit2_ with windowBits 9 to 15 and memLevel 1 to 9, and lm_init.
    constructor (windowBits: nat, memLevel: nat, chain: nat, lazy: nat, good: nat, nice: nat, filter: bool)
      requires 9 <= windowBits <= 15 && 1 <= memLevel <= 9
      ensures Valid() && Following() && data == [] && input == [] && sent == [] && log == [] && gaps == {} && origin == oldest == 0
      ensures Settings() == Config(memLevel + 7, Pow2(windowBits), chain, lazy, good, nice, filter)
      ensures fresh(window) && fresh(prev) && fresh(head) && fresh(symBuf)
    {
      PowBetween(windowBits);
      var bits := memLevel + 7;
      var litBufsize := Pow2(memLevel + 6);
      assert litBufsize >= 2 by {
        Pow2Mono(1, memLevel + 6);
      }
      wBits, wSize, hashBits, symEnd := windowBits, Pow2(windowBits), bits, (litBufsize - 1) * 3;
      maxChainLength, maxLazyMatch, goodMatch, niceMatch, filtered := chain, lazy, good, nice, filter;
      window := new bv8[2 * Pow2(windowBits)];
      prev := new nat[Pow2(windowBits)];
      head := new nat[HashSize(bits)](_ => 0);
      symBuf := new nat[litBufsize * 3];
      insH, blockStart, strstart, lookahead, insert, symNext := 0, 0, 0, 0, 0, 0;
      matchLength, prevLength, matchAvailable, prevMatch, matchStart := MIN_MATCH - 1, MIN_MATCH - 1, false, 0, 0;
      input, availOut := [], 0;
      data, base, keys, sent, matchAt, prevAt := [], 0, map[], [], 0, 0;
      oldest, gaps, origin, log := 0, {}, 0, [];
      new;
      hide Pow2, HashSize;
      assert Shape();
      Begins();
    }

    lemma Begins()
      requires Shape() && data == [] && sent == [] && keys == map[] && forall i :: 0 <= i < head.Length ==> head[i] == 0
      requires base == strstart == lookahead == insert == symNext == blockStart == 0
      requires matchLength == MIN_MATCH - 1 && !matchAvailable && oldest == origin == 0 && gaps == {} && log == []
      ensures Valid() && Following()
    {
      NoChains(head[..], prev[..], hashBits, data, base, 0, 0, 0, {});
      NoSymbols(symBuf[..0]);
    }

    method SlideHash()
      requires Shape()
      modifies head, prev
      ensures head[..] == Slid(old(head[..]), wSize) && prev[..] == Slid(old(prev[..]), wSize)
    {
      var n := head.Length;
      while n != 0
        invariant 0 <= n <= head.Length
        invariant forall i :: 0 <= i < n ==> head[i] == old(head[i])
        invariant forall i :: n <= i < head.Length ==> head[i] == if old(head[i]) >= wSize then old(head[i]) - wSize else 0
        invariant prev[..] == old(prev[..])
      {
        n := n - 1;
        var m := head[n];
        head[n] := if m >= wSize then m - wSize else 0;
      }
      n := wSize;
      while n != 0
        invariant 0 <= n <= prev.Length
        invariant forall i :: 0 <= i < n ==> prev[i] == old(prev[i])
        invariant forall i :: n <= i < prev.Length ==> prev[i] == if old(prev[i]) >= wSize then old(prev[i]) - wSize else 0
        invariant head[..] == Slid(old(head[..]), wSize)
      {
        n := n - 1;
        var m := prev[n];
        prev[n] := if m >= wSize then m - wSize else 0;
      }
      assert prev[..] == Slid(old(prev[..]), wSize);
    }

    // zmemcpy(window, window + wsize, n)
    method MoveDown(n: nat)
      requires Shape() && Filled() && base + wSize + n == |data|
      modifies window
      ensures head[..] == old(head[..]) && prev[..] == old(prev[..])
      ensures WindowHas(window[..], data, base + wSize)
    {
      ghost var was := window[..];
      forall i | 0 <= i < n {
        window[i] := window[i + wSize];
      }
      SlideWindow(was, window[..], data, base, wSize, n);
    }

    method Rebase()
      requires strstart >= wSize
      modifies this`matchStart, this`strstart, this`blockStart, this`insert, this`base
      ensures strstart == old(strstart) - wSize && base == old(base) + wSize && blockStart == old(blockStart) - wSize
      ensures matchStart == U32(old(matchStart) - wSize) && insert == Min(old(insert), strstart)
    {
      matchStart := U32(matchStart - wSize);
      strstart := strstart - wSize;
      blockStart := blockStart - wSize;
      base := base + wSize;
      if insert > strstart {
        insert := strstart;
      }
    }

    // Move the upper half of the window to the lower half, and every position with it.
    method Slide(more: nat)
      requires Valid() && strstart >= wSize + (wSize - MIN_LOOKAHEAD) && more == window.Length - lookahead - strstart
      modifies window, head, prev, this`matchStart, this`strstart, this`blockStart, this`insert, this`base
      ensures Valid() && strstart == old(strstart) - wSize && base == old(base) + wSize && strstart >= wSize - MIN_LOOKAHEAD
    {
      hide KeysOk, HeadsOk, LinksOk, Complete, WindowHas, TokensOk, Rolled, Found, Slid, Held, U32, Below, Pow2, HashSize;
      KeysBelow(keys, hashBits, data, At() - insert, base + wSize + wSize);
      U32Minus(matchAt - base, wSize);
      MoveDown(wSize - more);
      Rebase();
      SlideTables(base - wSize, At());
    }

    method SlideTables(ghost from: nat, ghost at: nat)
      requires Shape() && HeadsOk(head[..], keys, from) && LinksOk(prev[..], keys, from, at) && Below(keys, from + wSize + wSize)
      modifies head, prev
      ensures HeadsOk(head[..], keys, from + wSize) && LinksOk(prev[..], keys, from + wSize, at)
    {
      SlideChains(head[..], prev[..], keys, from, at);
      SlideHash();
    }

    // zmemcpy(window + strstart + lookahead, next_in, n)
    method CopyIn(n: nat)
      requires Shape() && Placed() && n <= |input| && strstart + lookahead + n <= window.Length
      modifies window
      ensures WindowHas(window[..], data + input[..n], base)
      ensures head[..] == old(head[..]) && prev[..] == old(prev[..])
    {
      var at := strstart + lookahead;
      forall i | 0 <= i < n {
        window[at + i] := input[i];
      }
    }

    // read_buf: at most size bytes, behind the lookahead.
    method ReadBuf(size: nat)
      requires Valid() && size <= window.Length - lookahead - strstart
      modifies window, this`input, this`data, this`lookahead
      ensures Steady() && old(data) <= data && data + input == old(data) + old(input)
      ensures lookahead == old(lookahead) + Min(size, |old(input)|)
    {
      hide KeysOk, HeadsOk, LinksOk, Complete, TokensOk, WindowHas, Rolled, Found, Held, U32, Pow2, HashSize;
      var n := Min(size, |input|);
      CopyIn(n);
      KeysStay(keys, hashBits, data, input[..n], At() - insert, At() - insert);
      TokensStay(sent, Held(), data, input[..n], base + blockStart, if matchAvailable then At() - 1 else At());
      if matchLength >= MIN_MATCH {
        FoundStays(data, input[..n], matchAt, At() - 1, matchLength, wSize);
      }
      lookahead, data, input := lookahead + n, data + input[..n], input[n..];
    }

    // The string at str becomes the head of chain h, and the old head its link.
    method LinkIn(str: nat, h: nat, ghost at: nat) returns (matchHead: nat)
      requires Shape() && h < head.Length && base + str + 2 < |data| && base + str <= at && str < wSize + wSize
      requires Entered(base + str, at) && h == Key(hashBits, data, base + str)
      modifies head, prev, this`keys
      ensures Entered(base + str + 1, at)
      ensures base + str in keys && LinkOk(matchHead, base + str, keys, base)
    {
      hide KeysOk, HeadsOk, LinksOk, LinkOk, Complete, Pow2, HashSize, Key, And, Slot;
      CompleteNext(keys, oldest, gaps, base + str, h);
      EnterNext(head[..], prev[..], keys, hashBits, data, base, at, str, h);
      SlotIs(str, wBits);
      matchHead := head[h];
      assert str <= 0xFFFF;
      prev[And(str, wSize - 1)] := matchHead;
      head[h] := str;
      keys := keys[base + str := h];
    }

    // INSERT_STRING
    method InsertString(str: nat, ghost at: nat) returns (matchHead: nat)
      requires Shape() && Filled() && base + str + 2 < |data| && base + str <= at
      requires Entered(base + str, at) && Rolled(hashBits, insH, data[base + str], data[base + str + 1])
      modifies head, prev, this`insH, this`keys
      ensures Entered(base + str + 1, at) && Rolled(hashBits, insH, data[base + str + 1], data[base + str + 2])
      ensures base + str in keys && LinkOk(matchHead, base + str, keys, base)
    {
      hide KeysOk, HeadsOk, LinksOk, LinkOk, Complete, Rolled, Pow2, HashSize, UpdateHash, Hash3;
      RollOn(hashBits, insH, data[base + str], data[base + str + 1], data[base + str + 2]);
      HashInTable(hashBits, insH, data[base + str + 2]);
      assert window[str + 2] == data[base + str + 2] by {
        assert window[..][str + 2] == data[base + (str + 2)];
      }
      insH := UpdateHash(hashBits, insH, window[str + 2]);
      matchHead := LinkIn(str, insH as nat, at);
    }

    // Initialize the running hash, now that there is more input, and enter the strings left out before.
    method Rehash()
      requires Steady()
      modifies head, prev, this`insH, this`keys, this`insert
      ensures Valid() && insert <= old(insert)
    {
      hide Tallied, Matched, Pow2, HashSize;
      if lookahead + insert >= MIN_MATCH {
        StartHash();
        CatchUp();
      }
    }

    // The running hash of the two bytes at strstart - insert.
    method StartHash()
      requires Shape() && Placed() && insert <= strstart && lookahead + insert >= MIN_MATCH
      modifies this`insH
      ensures Rolled(hashBits, insH, data[At() - insert], data[At() - insert + 1])
    {
      hide WindowHas, Rolled, Pow2, HashSize, UpdateHash;
      var str := strstart - insert;
      WindowAt(window[..], data, base, str);
      WindowAt(window[..], data, base, str + 1);
      StartRolling(hashBits, window[str], window[str + 1]);
      insH := window[str] as bv32;
      insH := UpdateHash(hashBits, insH, window[str + 1]);
    }

    method CatchUp()
      requires Shape() && Placed() && insert <= strstart && lookahead + insert >= MIN_MATCH
      requires Entered(At() - insert, At()) && Rolled(hashBits, insH, data[At() - insert], data[At() - insert + 1])
      modifies head, prev, this`insH, this`keys, this`insert
      ensures insert <= old(insert) && Entered(At() - insert, At()) && Hashed(At())
    {
      hide Entered, WindowHas, Rolled, Pow2, HashSize;
      var str := strstart - insert;
      while insert != 0
        invariant str == strstart - insert && insert <= old(insert) <= strstart
        invariant lookahead + insert >= MIN_MATCH && Entered(At() - insert, At())
        invariant Rolled(hashBits, insH, data[base + str], data[base + str + 1])
      {
        var _ := InsertString(str, At());
        str, insert := str + 1, insert - 1;
        if lookahead + insert < MIN_MATCH {
          break;
        }
      }
    }

    // More input for the window; whatever slides, every byte keeps its position.  One turn of the loop is enough.
    method FillWindow() returns (ghost turns: nat)
      requires Valid() && lookahead < MIN_LOOKAHEAD
      modifies window, head, prev, this`matchStart, this`strstart, this`blockStart, this`insert, this`base
      modifies this`input, this`data, this`lookahead, this`insH, this`keys
      ensures Valid() && At() == old(At())
      ensures old(data) <= data && data + input == old(data) + old(input)
      ensures lookahead >= MIN_LOOKAHEAD || input == []
      ensures strstart + MIN_LOOKAHEAD <= window.Length
      ensures base == old(base) || (base > old(base) && strstart >= wSize - MIN_LOOKAHEAD)
      ensures turns == 1 && Held() == old(Held())
    {
      hide Entered, Tallied, Matched, Hashed, Filled, Pow2, HashSize, U32;
      var again := true;
      turns := 0;
      while again
        invariant Valid() && At() == old(At())
        invariant old(data) <= data && data + input == old(data) + old(input)
        invariant if again then lookahead < MIN_LOOKAHEAD
                  else (lookahead >= MIN_LOOKAHEAD || input == []) && strstart + MIN_LOOKAHEAD <= window.Length
        invariant turns == if again then 0 else 1
        invariant base == old(base) || (base > old(base) && strstart >= wSize - MIN_LOOKAHEAD)
        invariant Held() == old(Held())
        decreases |input| + (if again then 1 else 0)
      {
        turns := turns + 1;
        var more := window.Length - lookahead - strstart;
        if strstart >= wSize + (wSize - MIN_LOOKAHEAD) {
          Slide(more);
          more := more + wSize;
        }
        if input == [] {
          again := false;
        } else {
          assert more >= 2;
          ReadBuf(more);
          Rehash();
          again := lookahead < MIN_LOOKAHEAD && input != [];
        }
      }
    }

    // Compare from the fourth byte on, eight bytes at a time; 258 bytes at most.
    method MatchLength(cur: nat) returns (len: nat)
      requires Alike(window[..], cur, strstart, 3) && strstart + MAX_MATCH < window.Length
      ensures 3 <= len <= MAX_MATCH && Alike(window[..], cur, strstart, len)
      ensures len < MAX_MATCH ==> window[cur + len] != window[strstart + len]
    {
      var strend := strstart + MAX_MATCH;
      var scan, match_ := strstart + 2, cur + 2;
      var more := true;
      ghost var rounds := 0;
      while more
        invariant strstart + 2 <= scan <= strend && scan - match_ == strstart - cur
        invariant more ==> scan < strend && scan == strstart + 2 + 8 * rounds
        invariant Alike(window[..], cur, strstart, scan - strstart)
        invariant more ==> window[scan] == window[match_]
        invariant !more ==> scan - strstart >= 3 && (scan < strend ==> window[scan] != window[match_])
        decreases strend - scan, more
      {
        var k := 0;
        while k < 8 && more
          invariant 0 <= k <= 8 && scan == strstart + 2 + 8 * rounds + k && scan - match_ == strstart - cur
          invariant scan <= strend && 2 + 8 * rounds < MAX_MATCH
          invariant Alike(window[..], cur, strstart, scan - strstart)
          invariant more <==> window[scan] == window[match_]
          invariant k == 0 ==> more
          decreases 8 - k
        {
          assert 8 * rounds + k + 2 < 258;
          scan, match_, k := scan + 1, match_ + 1, k + 1;
          more := window[scan] == window[match_];
        }
        rounds := rounds + 1;
        more := more && scan < strend;
      }
      len := MAX_MATCH - (strend - scan);
    }

    // One string of the chain, given the two bytes that a longer match must have at its end: 0 if it is passed over.
    method Candidate(cur: nat, bestLen: nat, scanEnd1: bv8, scanEnd: bv8, ghost end: int) returns (len: nat)
      requires Shape() && Placed() && strstart + MIN_LOOKAHEAD <= window.Length && lookahead >= MIN_MATCH
      requires Entered(end, At() + 1) && OnChain(cur, strstart, keys, base, wSize)
      requires 2 <= bestLen <= MAX_MATCH && scanEnd1 == window[strstart + bestLen - 1] && scanEnd == window[strstart + bestLen]
      ensures len == 0 ==> Differs(window[..], cur, strstart, bestLen)
      ensures len != 0 ==> 3 <= len <= MAX_MATCH && Alike(window[..], cur, strstart, len)
      ensures 0 < len < MAX_MATCH ==> Differs(window[..], cur, strstart, len)
    {
      assert 0 < cur < strstart;
      hide KeysOk, WindowHas, Pow2, HashSize, Differs, OnChain;
      if window[cur + bestLen] != scanEnd || window[cur + bestLen - 1] != scanEnd1
         || window[cur] != window[strstart] || window[cur + 1] != window[strstart + 1] {
        ghost var i := if window[cur + bestLen] != scanEnd then bestLen else if window[cur + bestLen - 1] != scanEnd1 then bestLen - 1
                       else if window[cur] != window[strstart] then 0 else 1;
        DiffersAt(window[..], cur, strstart, bestLen, i);
        len := 0;
      } else {
        ThirdAlike(window[..], data, base, keys, hashBits, end, cur, strstart, wSize);
        len := MatchLength(cur);
        if len < MAX_MATCH {
          DiffersAt(window[..], cur, strstart, len, len);
        }
      }
    }

    // A longer match than the best so far is one at cur.
    lemma Better(cur: nat, len: nat)
      requires Shape() && Placed() && strstart + MIN_LOOKAHEAD <= window.Length
      requires OnChain(cur, strstart, keys, base, wSize) && len <= MAX_MATCH && Alike(window[..], cur, strstart, len)
      ensures Matched(Min(len, lookahead), cur, base + cur, At())
    {
      FoundFromWindow(window[..], data, base, cur, strstart, Min(len, lookahead), wSize);
    }

    // (cur_match = prev[cur_match & wmask]) > limit && --chain_length != 0
    method Advance(cur: nat, limit: nat, chainLength: nat, ghost end: int) returns (next: nat, left: nat, more: bool)
      requires Shape() && strstart < wSize + wSize && limit == Limit()
      requires Entered(end, At() + 1) && OnChain(cur, strstart, keys, base, wSize)
      ensures next == Link(cur)
      ensures more ==> Limit() < next < cur && OnChain(next, strstart, keys, base, wSize)
      ensures more ==> Visits(left) == Visits(chainLength) - 1
      ensures !more ==> next <= limit || Visits(chainLength) == 1
    {
      NextOnChain(prev[..], cur, strstart, keys, base, limit);
      SlotIs(cur, wBits);
      hide LinksOk, Slot, And, Pow2, HashSize;
      next := prev[And(cur, wSize - 1)];
      left := chainLength;
      more := next > limit;
      if more {
        left := if chainLength == 0 then 0xFFFF_FFFF else chainLength - 1;
        more := left != 0;
      }
    }

    // What prev has for a window index.
    ghost function Link(p: nat): nat
      reads prev
    {
      if p < wSize + wSize && prev.Length == wSize then prev[Slot(p, wSize)] else 0
    }

    // The window indices seen are the chain from first on, all within reach, and none has a match longer than found.
    ghost predicate Searched(seen: seq<nat>, first: nat, found: nat)
      reads this`strstart, this`keys, this`base, window, prev
    {
      && seen != [] && seen[0] == first
      && (forall i {:trigger seen[i]} :: 0 <= i < |seen| ==> OnChain(seen[i], strstart, keys, base, wSize))
      && (forall i {:trigger LinkedAt(seen, i)} :: 0 < i < |seen| ==> LinkedAt(seen, i))
      && (found < MAX_MATCH ==> AllDiffer(window[..], seen, found))
    }

    ghost predicate LinkedAt(seen: seq<nat>, i: nat)
      requires 0 < i < |seen|
      reads this`strstart, prev
    {
      seen[i] == Link(seen[i - 1]) && seen[i] > Limit()
    }

    ghost predicate AllDiffer(win: seq<bv8>, seen: seq<nat>, found: nat)
      reads this`strstart
    {
      forall i {:trigger seen[i]} :: 0 <= i < |seen| ==> seen[i] < strstart && Differs(win, seen[i], strstart, found)
    }

    // The best match is the one seen n-th, and those before are shorter.
    ghost predicate BestAt(seen: seq<nat>, n: nat, found: nat, start: nat)
      reads this`strstart, window
    {
      n < |seen| && seen[n] == start && found >= 1 && AllDiffer(window[..], seen[..n], found - 1)
    }

    function Limit(): nat
      reads this`strstart
    {
      if strstart > wSize - MIN_LOOKAHEAD && wSize >= MIN_LOOKAHEAD then strstart - (wSize - MIN_LOOKAHEAD) else 0
    }

    // The length that stops the search, and one that does not.
    function Stop(): nat
      reads this`lookahead
    {
      Min(niceMatch, lookahead)
    }

    function Short(): int
      reads this`prevLength, this`lookahead
    {
      Max(prevLength, Stop() - 1)
    }

    // The search ends with a long enough match, or the budget, or the chain; not before.
    ghost predicate Exhausted(seen: seq<nat>, found: nat)
      reads this`strstart, this`prevLength, this`lookahead, window, prev
    {
      && seen != [] && |seen| <= Budget(Settings(), prevLength)
      && (0 <= Short() < MAX_MATCH ==> AllDiffer(window[..], seen[..|seen| - 1], Short()))
      && (|| (found > prevLength && found >= Stop())
          || |seen| == Budget(Settings(), prevLength)
          || Link(seen[|seen| - 1]) <= Limit())
    }

    lemma SearchOn(seen: seq<nat>, first: nat, found: nat, cur: nat, length: nat, better: nat)
      requires OnChain(cur, strstart, keys, base, wSize) && better == if length > found then length else found
      requires seen == [] ==> cur == first
      requires seen != [] ==> Searched(seen, first, found) && cur == Link(seen[|seen| - 1]) && cur > Limit()
      requires length == 0 ==> Differs(window[..], cur, strstart, found)
      requires 0 < length < MAX_MATCH ==> Differs(window[..], cur, strstart, length)
      ensures Searched(seen + [cur], first, better)
    {
      assert cur < strstart;
      if better < MAX_MATCH {
        DiffersMore(window[..], cur, strstart, if length == 0 then found else length, better);
        DifferMore(window[..], seen, found, cur, better);
      }
      var more := seen + [cur];
      hide Differs, Link, Limit, AllDiffer, OnChain;
      forall i | 0 < i < |more| ensures LinkedAt(more, i) {
        if i < |seen| {
          assert LinkedAt(seen, i);
        }
      }
    }

    lemma DifferMore(win: seq<bv8>, seen: seq<nat>, found: nat, cur: nat, better: nat)
      requires (seen != [] ==> AllDiffer(win, seen, found)) && found <= better
      requires cur < strstart && Differs(win, cur, strstart, better)
      ensures AllDiffer(win, seen + [cur], better)
    {
      forall i | 0 <= i < |seen| ensures Differs(win, seen[i], strstart, better) {
        DiffersMore(win, seen[i], strstart, found, better);
      }
    }

    lemma DifferLater(win: seq<bv8>, seen: seq<nat>, found: nat, better: nat)
      requires AllDiffer(win, seen, found) && found <= better
      ensures AllDiffer(win, seen, better)
    {
      forall i | 0 <= i < |seen| ensures Differs(win, seen[i], strstart, better) {
        DiffersMore(win, seen[i], strstart, found, better);
      }
    }

    // The state of the search: the strings seen, the one to look at next, and the best match.
    ghost predicate Searching(seen: seq<nat>, first: nat, cur: nat, left: nat, best: nat, start: nat, at: int, n: nat)
      reads this`data, this`base, this`keys, this`strstart, this`lookahead, this`prevLength, window, prev
    {
      && OnChain(cur, strstart, keys, base, wSize) && Visits(left) + |seen| == Budget(Settings(), prevLength)
      && (if seen == [] then cur == first && best == prevLength
          else cur == Link(seen[|seen| - 1]) && cur > Limit() && Searched(seen, first, best))
      && prevLength <= best <= MAX_MATCH && best <= Short()
      && (best > prevLength ==> Matched(Min(best, lookahead), start, at, At()) && BestAt(seen, n, best, start) && at == base + start)
    }

    // Its result.
    ghost predicate SearchDone(seen: seq<nat>, first: nat, best: nat, start: nat, at: int, n: nat)
      reads this`data, this`base, this`keys, this`strstart, this`lookahead, this`prevLength, window, prev
    {
      && Searched(seen, first, best) && Exhausted(seen, best)
      && prevLength <= best <= MAX_MATCH
      && (best > prevLength ==> Matched(Min(best, lookahead), start, at, At()) && BestAt(seen, n, best, start) && at == base + start)
    }

    // What is known of the strings seen after the last one was compared.
    ghost predicate Seen(seen: seq<nat>, first: nat, best: nat, start: nat, at: int, n: nat)
      reads this`data, this`base, this`keys, this`strstart, this`lookahead, this`prevLength, window, prev
    {
      && Searched(seen, first, best) && prevLength <= best <= MAX_MATCH
      && (0 <= Short() < MAX_MATCH ==> AllDiffer(window[..], seen[..|seen| - 1], Short()))
      && (best > prevLength ==> Matched(Min(best, lookahead), start, at, At()) && BestAt(seen, n, best, start) && at == base + start)
    }

    // Having looked at cur.
    lemma SeenNext(seen: seq<nat>, first: nat, cur: nat, left: nat, best: nat, start: nat, at: int, n: nat, length: nat)
      requires Shape() && Placed() && strstart + MIN_LOOKAHEAD <= window.Length
      requires Searching(seen, first, cur, left, best, start, at, n)
      requires length == 0 ==> Differs(window[..], cur, strstart, best)
      requires length != 0 ==> 3 <= length <= MAX_MATCH && Alike(window[..], cur, strstart, length)
      requires 0 < length < MAX_MATCH ==> Differs(window[..], cur, strstart, length)
      ensures if length > best then Seen(seen + [cur], first, length, cur, base + cur, |seen|)
              else Seen(seen + [cur], first, best, start, at, n)
      ensures Visits(left) + |seen| == Budget(Settings(), prevLength) && Visits(left) >= 1 && best <= Short()
    {
      hide Searched, Differs, Alike, Matched, Budget, Link, Limit, Placed, OnChain, AllDiffer;
      var better := if length > best then length else best;
      SearchOn(seen, first, best, cur, length, better);
      assert (seen + [cur])[..|seen|] == seen;
      SeenDiffer(seen, first, best, better);
      SomeSeen(seen + [cur], first, better);
      if length > best {
        Better(cur, length);
      } else if best > prevLength {
        assert (seen + [cur])[..n] == seen[..n];
      }
    }

    lemma SomeSeen(seen: seq<nat>, first: nat, found: nat)
      requires Searched(seen, first, found)
      ensures seen != []
    {
    }

    // The strings seen so far have no longer match than the best.
    lemma SeenDiffer(seen: seq<nat>, first: nat, best: nat, better: nat)
      requires seen != [] ==> Searched(seen, first, best)
      requires best <= better <= MAX_MATCH && best <= Short()
      ensures better > best ==> AllDiffer(window[..], seen, better - 1)
      ensures 0 <= Short() < MAX_MATCH ==> AllDiffer(window[..], seen, Short())
    {
      hide Differs, OnChain, LinkedAt, Short;
      if seen != [] && better > best {
        DifferLater(window[..], seen, best, better - 1);
      }
      if seen != [] && Short() < MAX_MATCH {
        DifferLater(window[..], seen, best, Short());
      }
    }

    lemma SearchStarts(first: nat, left: nat, start: nat, at: int)
      requires OnChain(first, strstart, keys, base, wSize) && 2 <= prevLength <= MAX_MATCH
      requires left == if prevLength >= goodMatch then maxChainLength / 4 else maxChainLength
      ensures Searching([], first, first, left, prevLength, start, at, 0)
    {
      BudgetIs(left);
    }

    // There is a string to look at, and the best length can be compared.
    lemma SearchingFacts(seen: seq<nat>, first: nat, cur: nat, left: nat, best: nat, start: nat, at: int, n: nat)
      requires Searching(seen, first, cur, left, best, start, at, n)
      ensures OnChain(cur, strstart, keys, base, wSize) && best >= prevLength
    {
    }

    // After a nice match, the budget or the chain, the search is done.
    lemma SearchStops(seen: seq<nat>, first: nat, best: nat, start: nat, at: int, n: nat)
      requires Seen(seen, first, best, start, at, n) && |seen| <= Budget(Settings(), prevLength)
      requires || (best > prevLength && best >= Stop()) || |seen| == Budget(Settings(), prevLength)
               || (seen != [] && Link(seen[|seen| - 1]) <= Limit())
      ensures SearchDone(seen, first, best, start, at, n)
    {
      SomeSeen(seen, first, best);
      hide Searched, Matched, Budget, Link, Limit, AllDiffer, BestAt;
    }

    // Otherwise it goes on.
    lemma SearchGoes(seen: seq<nat>, first: nat, cur: nat, left: nat, best: nat, start: nat, at: int, n: nat)
      requires Seen(seen, first, best, start, at, n) && seen != [] && (best <= Short() || best < Stop())
      requires cur == Link(seen[|seen| - 1]) && cur > Limit() && OnChain(cur, strstart, keys, base, wSize)
      requires Visits(left) + |seen| == Budget(Settings(), prevLength)
      ensures Searching(seen, first, cur, left, best, start, at, n)
    {
      hide Searched, Matched, Budget, Visits, Link, Limit, AllDiffer, BestAt, OnChain;
    }

    // The best match on the chain from curMatch on that is longer than prevLength, if there is one.
    method LongestMatch(curMatch: nat, ghost end: int) returns (len: nat, ghost found: nat, ghost seen: seq<nat>, ghost n: nat)
      requires Shape() && Placed() && strstart + MIN_LOOKAHEAD <= window.Length && lookahead >= MIN_MATCH
      requires Entered(end, At() + 1) && OnChain(curMatch, strstart, keys, base, wSize)
      requires 2 <= prevLength <= MAX_MATCH
      modifies this`matchStart, this`matchAt
      ensures len == Min(found, lookahead) && prevLength <= found <= MAX_MATCH
      ensures len > prevLength ==> Matched(len, matchStart, matchAt, At())
      ensures Searched(seen, curMatch, found) && Exhausted(seen, found)
      ensures found > prevLength ==> n < |seen| && BestAt(seen, n, found, seen[n]) && matchAt == base + seen[n]
    {
      hide Entered, Placed, Differs, Alike, Matched, Link, Searched, Pow2, HashSize, Visits, Limit, AllDiffer, Budget, OnChain,
           Searching, SearchDone, Exhausted, BestAt, Seen, Short;
      var chainLength := maxChainLength;
      var cur: nat, bestLen: nat, nice: nat := curMatch, prevLength, niceMatch;
      var limit := Limit();
      var scanEnd1, scanEnd := window[strstart + bestLen - 1], window[strstart + bestLen];
      if prevLength >= goodMatch {
        chainLength := chainLength / 4;
      }
      if nice > lookahead {
        nice := lookahead;
      }
      seen, n := [], 0;
      var start, more := matchStart, true;
      ghost var at: int := matchAt;
      SearchStarts(cur, chainLength, start, at);
      while more
        invariant 2 <= bestLen <= MAX_MATCH
        invariant scanEnd1 == window[strstart + bestLen - 1] && scanEnd == window[strstart + bestLen]
        invariant if more then Searching(seen, curMatch, cur, chainLength, bestLen, start, at, n)
                  else SearchDone(seen, curMatch, bestLen, start, at, n)
        decreases if more then cur + 1 else 0
      {
        SearchingFacts(seen, curMatch, cur, chainLength, bestLen, start, at, n);
        var length := Candidate(cur, bestLen, scanEnd1, scanEnd, end);
        SeenNext(seen, curMatch, cur, chainLength, bestLen, start, at, n, length);
        seen := seen + [cur];
        if length > bestLen {
          start, at, n := cur, base + cur, |seen| - 1;
          bestLen := length;
          if length >= nice {
            SearchStops(seen, curMatch, bestLen, start, at, n);
            more := false;
            break;
          }
          scanEnd1, scanEnd := window[strstart + bestLen - 1], window[strstart + bestLen];
        }
        cur, chainLength, more := Advance(cur, limit, chainLength, end);
        if more {
          SearchGoes(seen, curMatch, cur, chainLength, bestLen, start, at, n);
        } else {
          SearchStops(seen, curMatch, bestLen, start, at, n);
        }
      }
      matchStart, matchAt := start, at;
      SearchIsDone(seen, curMatch, bestLen, start, at, n);
      found := bestLen;
      len := if bestLen <= lookahead then bestLen else lookahead;
    }

    lemma SearchIsDone(seen: seq<nat>, first: nat, best: nat, start: nat, at: int, n: nat)
      requires SearchDone(seen, first, best, start, at, n)
      ensures Searched(seen, first, best) && Exhausted(seen, best) && prevLength <= best <= MAX_MATCH
      ensures best > prevLength ==>
        Matched(Min(best, lookahead), start, at, At()) && n < |seen| && BestAt(seen, n, best, seen[n]) && at == base + seen[n]
    {
      hide Searched, Exhausted, Matched, AllDiffer;
    }

    lemma BudgetIs(chainLength: nat)
      requires chainLength == if prevLength >= goodMatch then maxChainLength / 4 else maxChainLength
      ensures Visits(chainLength) == Budget(Settings(), prevLength)
    {
    }

    // ---- one step ------------------------------------------------------------------------------

    // A step has entered the string at strstart and looked for a match there.
    ghost predicate Looked()
      reads this`data, this`base, this`keys, this`oldest, this`gaps, this`strstart, this`lookahead, this`insert, window, head, prev
      reads this`insH, this`prevLength, this`prevMatch, this`prevAt
      reads this`matchAvailable, this`matchLength, this`matchStart, this`matchAt
    {
      && Shape() && Placed()
      && insert <= strstart && Entered(At() + 1 - insert, At() + 1) && Hashed(At() + 1)
      && (matchAvailable ==> strstart >= 1)
      && 2 <= prevLength <= MAX_MATCH && 2 <= matchLength <= MAX_MATCH
      && (prevLength >= MIN_MATCH ==> matchAvailable && Matched(prevLength, prevMatch, prevAt, At() - 1))
      && (matchLength >= MIN_MATCH && matchLength > prevLength ==> Matched(matchLength, matchStart, matchAt, At()))
    }

    ghost predicate Decided()
      reads this, window, head, prev, symBuf
    {
      Looked() && Tallied(if matchAvailable then At() - 1 else At()) && symNext < symEnd
    }

    // INSERT_STRING at strstart, if there are three bytes; if not, one more string is left out.
    method Insert(enough: bool) returns (matchHead: nat)
      requires Shape() && Filled() && insert <= At()
      requires Entered(At() - insert, At()) && Hashed(At()) && (enough <==> At() + 2 < |data|)
      modifies head, prev, this`insH, this`keys, this`gaps
      ensures Entered(At() + 1 - insert, At() + 1) && Hashed(At() + 1)
      ensures if enough then insert == 0 && gaps == old(gaps) && At() in keys && LinkOk(matchHead, At(), keys, base) else matchHead == 0
      ensures LeftOut(data, old(gaps), gaps)
    {
      hide KeysOk, HeadsOk, LinksOk, LinkOk, Complete, WindowHas, Rolled, Pow2, HashSize;
      matchHead := 0;
      if enough {
        matchHead := InsertString(strstart, At());
      } else {
        CompleteNext(keys, oldest, gaps, At() - insert, 0);
        gaps := gaps + {At() - insert};
      }
      KeysLater(keys, hashBits, data, if enough then At() + 1 else At() - insert, At() + 1 - insert);
      LinksLater(prev[..], keys, base, At(), At() + 1);
    }

    // There are candidates near enough, and the pending match is not good enough.
    predicate Worthwhile(hashHead: nat)
      reads this`prevLength, this`strstart
    {
      hashHead != 0 && prevLength < maxLazyMatch && strstart - hashHead <= wSize - MIN_LOOKAHEAD
    }

    // A short match is given up if the data is filtered, or it is far away.
    predicate GivenUp(length: nat)
      reads this`strstart, this`matchStart
    {
      length <= 5 && (filtered || (length == MIN_MATCH && U32(strstart - matchStart) > TOO_FAR))
    }

    // Look for a match longer than the one pending.
    method Search(hashHead: nat) returns (ghost found: nat, ghost seen: seq<nat>, ghost n: nat)
      requires Shape() && Placed() && strstart + MIN_LOOKAHEAD <= window.Length && 2 <= prevLength <= MAX_MATCH
      requires Entered(At() + 1 - insert, At() + 1)
      requires hashHead != 0 ==> lookahead >= MIN_MATCH && At() in keys && LinkOk(hashHead, At(), keys, base)
      modifies this`matchLength, this`matchStart, this`matchAt
      ensures 2 <= matchLength <= MAX_MATCH
      ensures matchLength >= MIN_MATCH && matchLength > prevLength ==> Matched(matchLength, matchStart, matchAt, At())
      ensures !Worthwhile(hashHead) ==> matchLength == MIN_MATCH - 1
      ensures Worthwhile(hashHead) ==>
        && matchLength == (if GivenUp(Min(found, lookahead)) then MIN_MATCH - 1 else Min(found, lookahead))
        && Searched(seen, hashHead, found) && Exhausted(seen, found) && prevLength <= found <= MAX_MATCH
        && (found > prevLength ==> n < |seen| && BestAt(seen, n, found, seen[n]) && matchAt == base + seen[n])
        && (Min(found, lookahead) > prevLength ==> Matched(Min(found, lookahead), matchStart, matchAt, At()))
    {
      hide Entered, Placed, Matched, Pow2, HashSize, U32, Searched, Exhausted, BestAt;
      matchLength := MIN_MATCH - 1;
      found, seen, n := 0, [], 0;
      if hashHead != 0 && prevLength < maxLazyMatch && strstart - hashHead <= wSize - MIN_LOOKAHEAD {
        OldHead(hashHead);
        var length;
        length, found, seen, n := LongestMatch(hashHead, At() + 1 - insert);
        matchLength := length;
        if matchLength <= 5 && (filtered || (matchLength == MIN_MATCH && U32(strstart - matchStart) > TOO_FAR)) {
          matchLength := MIN_MATCH - 1;
        }
      }
    }

    lemma OldHead(hashHead: nat)
      requires Worthwhile(hashHead) && LinkOk(hashHead, At(), keys, base)
      ensures OnChain(hashHead, strstart, keys, base, wSize)
    {
    }

    // ---- what a search means for the data ------------------------------------------------------

    ghost function Absolute(seen: seq<nat>): (r: seq<nat>)
      reads this`base
      ensures |r| == |seen| && forall i {:trigger r[i]} :: 0 <= i < |r| ==> r[i] == base + seen[i]
    {
      var b := base;
      seq(|seen|, i requires 0 <= i < |seen| => b + seen[i])
    }

    // k is the search made here.
    ghost predicate MadeHere(k: Look)
      reads this`base, this`strstart, this`lookahead, this`oldest, this`origin, this`matchLength, this`matchAt
    {
      && k.at == At() && k.ahead == lookahead && k.floor == base && k.origin == origin && k.first == oldest
      && k.len == matchLength && k.m == matchAt
    }

    lemma DataDiffers(cur: nat, n: nat)
      requires Placed() && Differs(window[..], cur, strstart, n) && n < lookahead
      ensures Differs(data, base + cur, At(), n)
    {
      var j :| strstart <= j <= strstart + n && j < window.Length && window[..][j] != window[..][j - (strstart - cur)];
      assert data[base + j] != data[base + j - (strstart - cur)];
    }

    lemma AllDataDiffer(seen: seq<nat>, n: nat)
      requires Placed() && AllDiffer(window[..], seen, n) && n < lookahead
      ensures forall i {:trigger seen[i]} :: 0 <= i < |seen| ==> Differs(data, base + seen[i], At(), n)
    {
      hide Differs, Placed;
      forall i | 0 <= i < |seen| ensures Differs(data, base + seen[i], At(), n) {
        DataDiffers(seen[i], n);
      }
    }

    lemma LinkIs(p: nat, end: int)
      requires Shape() && strstart < wSize + wSize && Entered(end, At() + 1) && OnChain(p, strstart, keys, base, wSize)
      ensures LinkOk(Link(p), base + p, keys, base)
    {
      hide LinkOk, LinksOk, OnChain, Pow2, HashSize;
      LinkOnChain(prev[..], p, strstart, keys, base);
      LastBelow(p);
    }

    // The next string of the chain.
    lemma ChainNext(p: nat, q: nat, k: Look)
      requires Shape() && strstart < wSize + wSize && Entered(At() + 1, At() + 1) && MadeHere(k)
      requires OnChain(p, strstart, keys, base, wSize) && q == Link(p) && q > Limit()
      ensures Follows(Settings(), data, gaps, k, base + q, base + p)
    {
      LinkIs(p, At() + 1);
      LimitMeans(p, q, k);
      hide LinkOk, Link, Limit, Follows, Reach, KeysOk, HeadsOk, LinksOk, Complete, Pow2, HashSize, OnChain;
      FollowsLink(Settings(), data, gaps, k, keys, At() + 1, q, base + p);
    }

    lemma LimitMeans(p: nat, q: nat, k: Look)
      requires Shape() && MadeHere(k) && OnChain(p, strstart, keys, base, wSize)
      ensures q > Limit() ==> q != 0 && k.at - (k.floor + q) <= Reach(Settings(), k, base + p)
      ensures q <= Limit() && q != 0 ==> k.at - (k.floor + q) > Reach(Settings(), k, base + p)
    {
      hide Pow2, HashSize;
    }

    lemma ChainFirst(hashHead: nat, k: Look)
      requires Shape() && Entered(At() + 1, At() + 1) && MadeHere(k) && LinkOk(hashHead, At(), keys, base) && Worthwhile(hashHead)
      ensures Follows(Settings(), data, gaps, k, base + hashHead, At())
    {
      hide LinkOk, Follows, KeysOk, HeadsOk, LinksOk, Complete, Pow2, HashSize;
      FollowsLink(Settings(), data, gaps, k, keys, At() + 1, hashHead, At());
    }

    lemma SearchedAt(seen: seq<nat>, first: nat, found: nat, i: nat)
      requires Searched(seen, first, found) && i < |seen|
      ensures if i == 0 then seen[i] == first
              else OnChain(seen[i - 1], strstart, keys, base, wSize) && seen[i] == Link(seen[i - 1]) && seen[i] > Limit()
    {
      hide Link, Limit, OnChain, AllDiffer;
      assert i > 0 ==> LinkedAt(seen, i);
    }

    lemma AbsoluteAt(seen: seq<nat>, k: Look, i: nat)
      requires k.seen == Absolute(seen) && i < |seen| && MadeHere(k)
      ensures i < |k.seen| && k.seen[i] == base + seen[i] && Before(k, i) == if i == 0 then At() else base + seen[i - 1]
    {
    }

    lemma ChainAt(seen: seq<nat>, hashHead: nat, found: nat, k: Look, i: nat)
      requires Shape() && strstart < wSize + wSize && Entered(At() + 1, At() + 1) && LinkOk(hashHead, At(), keys, base)
      requires Worthwhile(hashHead) && Searched(seen, hashHead, found) && MadeHere(k) && k.seen == Absolute(seen) && i < |seen|
      ensures Follows(Settings(), data, gaps, k, k.seen[i], Before(k, i))
    {
      hide *;
      SearchedAt(seen, hashHead, found, i);
      AbsoluteAt(seen, k, i);
      if i > 0 {
        ChainNext(seen[i - 1], seen[i], k);
      } else {
        ChainFirst(hashHead, k);
      }
    }

    lemma ChainIs(seen: seq<nat>, hashHead: nat, found: nat, k: Look)
      requires Shape() && strstart < wSize + wSize && Entered(At() + 1, At() + 1) && LinkOk(hashHead, At(), keys, base)
      requires Worthwhile(hashHead) && Searched(seen, hashHead, found) && MadeHere(k) && k.seen == Absolute(seen)
      ensures Chain(Settings(), data, gaps, k)
    {
      hide Shape, Entered, LinkOk, Follows, Worthwhile, MadeHere, Searched, Before;
      forall i | 0 <= i < |k.seen| ensures Follows(Settings(), data, gaps, k, k.seen[i], Before(k, i)) {
        ChainAt(seen, hashHead, found, k, i);
      }
    }

    lemma BestMeans(seen: seq<nat>, hashHead: nat, found: nat, n: nat, k: Look)
      requires Placed() && Searched(seen, hashHead, found) && Exhausted(seen, found) && prevLength <= found <= MAX_MATCH
      requires found > prevLength ==> n < |seen| && BestAt(seen, n, found, seen[n]) && matchAt == base + seen[n]
      requires Min(found, lookahead) > prevLength ==> Matched(Min(found, lookahead), matchStart, matchAt, At())
      requires MadeHere(k) && k.seen == Absolute(seen) && k.best == Min(found, lookahead) && prevLength >= 2
      ensures BestIs(data, prevLength, k)
    {
      hide Placed, Differs, LinkedAt, OnChain, Link, Limit, Budget, U32;
      if k.best < Min(MAX_MATCH, k.ahead) {
        AllDataDiffer(seen, found);
      }
      if k.best > prevLength {
        if found <= lookahead {
          AllDataDiffer(seen[..n], found - 1);
        } else {
          assert AllDiffer(window[..], seen[..n], Short()) by {
            assert seen[..|seen| - 1][..n] == seen[..n];
          }
          DifferLater(window[..], seen[..n], Short(), lookahead - 1);
          AllDataDiffer(seen[..n], lookahead - 1);
        }
        assert FirstBest(data, k, n) by {
          assert forall h {:trigger k.seen[h]} :: 0 <= h < n ==> k.seen[h] == base + seen[..n][h];
        }
      }
    }

    lemma StopMeans(seen: seq<nat>, hashHead: nat, found: nat, k: Look)
      requires Shape() && Placed() && strstart < wSize + wSize && Entered(At() + 1, At() + 1)
      requires Searched(seen, hashHead, found) && Exhausted(seen, found)
      requires MadeHere(k) && k.seen == Absolute(seen) && k.best == Min(found, lookahead)
      ensures k.seen != [] && Stopped(Settings(), data, gaps, prevLength, k)
    {
      hide Placed, Differs, KeysOk, HeadsOk, LinksOk, Complete, LinkOk, Link, OnChain, Ends, Pow2, HashSize, Budget, AllDiffer, Limit, Reach;
      var last := seen[|seen| - 1];
      if prevLength < lookahead && Short() < MAX_MATCH {
        AllDataDiffer(seen[..|seen| - 1], Short());
        assert forall i {:trigger k.seen[i]} :: 0 <= i < |k.seen| - 1 ==> k.seen[i] == base + seen[..|seen| - 1][i];
      }
      if Link(last) <= Limit() {
        LinkIs(last, At() + 1);
        LimitMeans(last, Link(last), k);
        EndsLink(Settings(), data, gaps, k, keys, At() + 1, Link(last), base + last);
      }
    }

    lemma LastBelow(p: nat)
      requires OnChain(p, strstart, keys, base, wSize)
      ensures p < strstart
    {
    }

    method Remember()
      modifies this`prevLength, this`prevMatch, this`prevAt
      ensures prevLength == matchLength && prevMatch == matchStart && prevAt == matchAt
    {
      prevLength, prevMatch, prevAt := matchLength, matchStart, matchAt;
    }

    // The search made here is the one the data asks for.
    lemma SearchMeans(hashHead: nat, found: nat, seen: seq<nat>, n: nat, k: Look)
      requires Shape() && Placed() && strstart + MIN_LOOKAHEAD <= window.Length && Reaching() && lookahead >= 1 && 2 <= prevLength <= MAX_MATCH
      requires Entered(At() + 1 - insert, At() + 1) && insert <= strstart
      requires if lookahead >= MIN_MATCH then insert == 0 && At() in keys && LinkOk(hashHead, At(), keys, base) else hashHead == 0
      requires MadeHere(k)
      requires if Worthwhile(hashHead) then k.seen == Absolute(seen) && k.best == Min(found, lookahead) else k.seen == []
      requires !Worthwhile(hashHead) ==> matchLength == MIN_MATCH - 1
      requires Worthwhile(hashHead) ==>
        && matchLength == (if GivenUp(Min(found, lookahead)) then MIN_MATCH - 1 else Min(found, lookahead))
        && Searched(seen, hashHead, found) && Exhausted(seen, found) && prevLength <= found <= MAX_MATCH
        && (found > prevLength ==> n < |seen| && BestAt(seen, n, found, seen[n]) && matchAt == base + seen[n])
        && (Min(found, lookahead) > prevLength ==> Matched(Min(found, lookahead), matchStart, matchAt, At()))
      ensures LookOk(Settings(), data, gaps, prevLength, k)
    {
      hide Filled, KeysOk, HeadsOk, LinksOk, Complete, LinkOk, Searched, Exhausted, BestAt, Chain, Stopped, BestIs, Ends, Pow2, HashSize, U32;
      if Worthwhile(hashHead) {
        ChainIs(seen, hashHead, found, k);
        BestMeans(seen, hashHead, found, n, k);
        StopMeans(seen, hashHead, found, k);
        if k.best > prevLength {
          TooFarMeans(k.best);
        }
      } else if lookahead >= MIN_MATCH && prevLength < maxLazyMatch {
        EndsLink(Settings(), data, gaps, k, keys, At() + 1, hashHead, At());
      }
    }

    lemma TooFarMeans(len: nat)
      requires Shape() && Matched(len, matchStart, matchAt, At())
      ensures U32(strstart - matchStart) == At() - matchAt
    {
      U32Distance(strstart, matchStart, matchAt - base);
    }

    // The string at strstart is entered, and the match found before is pending now.
    method EnterHere() returns (hashHead: nat)
      requires Valid() && lookahead >= 1
      modifies head, prev, this`insH, this`keys, this`gaps, this`prevLength, this`prevMatch, this`prevAt
      ensures Shape() && Placed() && Tallied(if matchAvailable then At() - 1 else At()) && symNext < symEnd
      ensures insert <= strstart && Entered(At() + 1 - insert, At() + 1) && Hashed(At() + 1)
      ensures prevLength == matchLength && prevMatch == matchStart && prevAt == matchAt && 2 <= prevLength <= MAX_MATCH
      ensures matchAvailable ==> strstart >= 1
      ensures prevLength >= MIN_MATCH ==> matchAvailable && Matched(prevLength, prevMatch, prevAt, At() - 1)
      ensures if lookahead >= MIN_MATCH then insert == 0 && gaps == old(gaps) && At() in keys && LinkOk(hashHead, At(), keys, base)
              else hashHead == 0
      ensures LeftOut(data, old(gaps), gaps) && Held() == old(Held())
    {
      hide Entered, Hashed, Tallied, Matched, Filled, Pow2, HashSize, LinkOk, LeftOut;
      hashHead := Insert(lookahead >= MIN_MATCH);
      Remember();
    }

    // A step up to the decision what to emit.
    method FindMatch() returns (ghost k: Look)
      requires Valid() && Reaching() && lookahead >= 1 && strstart + MIN_LOOKAHEAD <= window.Length
      modifies head, prev, this`insH, this`keys, this`gaps
      modifies this`prevLength, this`prevMatch, this`matchLength, this`matchStart, this`prevAt, this`matchAt
      ensures Decided() && prevLength == old(matchLength) && prevAt == old(matchAt) && Held() == old(Held())
      ensures MadeHere(k) && LookOk(Settings(), data, gaps, prevLength, k) && k.at + k.ahead == |data|
      ensures LeftOut(data, old(gaps), gaps) && (lookahead >= MIN_MATCH ==> gaps == old(gaps))
    {
      hide Valid, Entered, Hashed, Tallied, Matched, Placed, Pow2, HashSize, LinkOk, Searched, Exhausted, BestAt, LookOk, GivenUp, Held, LeftOut;
      var hashHead := EnterHere();
      ghost var found, seen, n;
      found, seen, n := Search(hashHead);
      k := Look(At(), lookahead, base, origin, oldest, if Worthwhile(hashHead) then Absolute(seen) else [], Min(found, lookahead),
                matchLength, matchAt);
      SearchMeans(hashHead, found, seen, n, k);
      AllAhead();
    }

    lemma AllAhead()
      requires Placed()
      ensures |data| == At() + lookahead
    {
    }

    // Three bytes into sym_buf; the buffer is full when bflush.
    method Tally(lo: nat, hi: nat, lc: nat) returns (bflush: bool)
      requires Shape() && symNext < symEnd && symNext % 3 == 0
      modifies this`symNext, symBuf
      ensures Held() == old(Held()) + [Symbol(lo, hi, lc)] && symNext == old(symNext) + 3 <= symEnd
      ensures bflush <==> symNext == symEnd
    {
      SymbolsAppend(symBuf[..symNext], lo, hi, lc);
      hide Symbol, Symbols, Pow2, HashSize;
      ghost var was := symBuf[..symNext];
      symBuf[symNext] := lo;
      symBuf[symNext + 1] := hi;
      symBuf[symNext + 2] := lc;
      symNext := symNext + 3;
      assert symBuf[..symNext] == was + [lo, hi, lc];
      bflush := symNext == symEnd;
    }

    // _tr_tally_lit
    method TallyLiteral(c: bv8) returns (bflush: bool)
      requires Shape() && symNext < symEnd && symNext % 3 == 0
      modifies this`symNext, symBuf
      ensures Held() == old(Held()) + [Literal(c)] && symNext == old(symNext) + 3 <= symEnd
      ensures bflush <==> symNext == symEnd
    {
      LiteralFits(c);
      hide Symbol;
      bflush := Tally(0, 0, c as nat);
    }

    // _tr_tally_dist: the distance is cut to 16 bits, and the length to 8.
    method TallyMatch(distance: nat, length: nat) returns (bflush: bool)
      requires Shape() && symNext < symEnd && symNext % 3 == 0
      requires 1 <= distance <= 0xFFFF && length <= 0xFF
      modifies this`symNext, symBuf
      ensures Held() == old(Held()) + [Match(distance, length + 3)] && symNext == old(symNext) + 3 <= symEnd
      ensures bflush <==> symNext == symEnd
    {
      hide Shape, Held, Symbol;
      MatchFits(distance, length + 3);
      bflush := Tally(distance % 256, (distance / 256) % 256, length % 256);
    }

    // FLUSH_BLOCK_ONLY: the symbols go to the block coder, with the bytes they stand for while the window has them.
    method FlushBlock()
      requires Shape() && Filled() && At() <= |data| && Tallied(At())
      modifies this`sent, this`symNext, this`blockStart, this`availOut
      ensures Tallied(At()) && symNext == 0 && blockStart == strstart
      ensures sent == old(sent + Held()) == sent + Held() && Output(sent) == Some(data[..At()])
      ensures 0 <= old(blockStart) <= strstart ==> window[old(blockStart)..strstart] == data[base + old(blockStart)..At()]
    {
      hide WindowHas, Symbols, Output, Pow2, HashSize;
      if 0 <= blockStart <= strstart {
        WindowSlice(window[..], data, base, blockStart, strstart);
      }
      SendHeld(sent, Held(), data, base + blockStart, At());
      assert Symbols(symBuf[..0]) == [] by {
        NoSymbols(symBuf[..0]);
      }
      sent, symNext, blockStart := sent + Held(), 0, strstart;
      availOut := *;
    }

    // The byte before strstart, which was pending, becomes a literal.
    method TallyByte() returns (bflush: bool)
      requires Shape() && Placed() && strstart >= 1 && Tallied(At() - 1) && symNext < symEnd
      modifies this`symNext, symBuf
      ensures Tallied(At()) && symNext <= symEnd && (bflush <==> symNext == symEnd)
      ensures Held() == old(Held()) + [Literal(data[At() - 1])]
    {
      hide WindowHas, TokensOk, Held, Output, Pow2, HashSize;
      WindowAt(window[..], data, base, strstart - 1);
      HoldLiteral(sent, Held(), data, base + blockStart, At() - 1);
      bflush := TallyLiteral(window[strstart - 1]);
    }

    method Step()
      requires lookahead >= 1
      modifies this`strstart, this`lookahead
      ensures strstart == old(strstart) + 1 && lookahead == old(lookahead) - 1
    {
      strstart := strstart + 1;
      lookahead := lookahead - 1;
    }

    // There is no match for the byte that was pending, or a shorter one than there is now.
    method EmitLiteral()
      requires Decided() && lookahead >= 1 && matchAvailable && !(prevLength >= MIN_MATCH && matchLength <= prevLength)
      modifies this`symNext, symBuf, this`sent, this`blockStart, this`availOut, this`strstart, this`lookahead
      ensures Valid() && At() == old(At()) + 1 && old(sent) <= sent
      ensures sent + Held() == old(sent + Held()) + [Literal(data[old(At()) - 1])]
    {
      hide Entered, Hashed, Filled, Tallied, Matched, Held, Output, Pow2, HashSize;
      var bflush := TallyByte();
      assert sent + Held() == old(sent + Held()) + [Literal(data[At() - 1])];
      if bflush {
        FlushBlock();
      }
      Step();
    }

    // The byte at strstart is pending now.
    method Defer()
      requires Decided() && lookahead >= 1 && !matchAvailable
      modifies this`matchAvailable, this`strstart, this`lookahead
      ensures Valid() && At() == old(At()) + 1 && matchAvailable
    {
      hide Entered, Hashed, WindowHas, TokensOk, Held, Matched, Pow2, HashSize;
      matchAvailable, strstart, lookahead := true, strstart + 1, lookahead - 1;
    }

    // The match that was pending becomes a symbol.
    method TallyPending() returns (bflush: bool)
      requires Decided() && prevLength >= MIN_MATCH
      modifies this`symNext, symBuf
      ensures Looked() && Tallied(At() - 1 + prevLength) && symNext <= symEnd && (bflush <==> symNext == symEnd)
      ensures At() - 1 - prevAt >= 1 && Held() == old(Held()) + [Match(At() - 1 - prevAt, prevLength)]
    {
      hide Entered, Hashed, WindowHas, TokensOk, Held, U32, Pow2, HashSize;
      U32Distance(strstart - 1, prevMatch, prevAt - base);
      HoldMatch(sent, Held(), data, base + blockStart, At() - 1, At() - 1 - prevAt, prevLength);
      bflush := TallyMatch(U32(strstart - 1 - prevMatch), prevLength - MIN_MATCH);
    }

    // Enter the strings inside the match, as far as there are three bytes.
    method SkipMatch(maxInsert: nat)
      requires Shape() && Filled() && |data| == base + maxInsert + MIN_MATCH
      requires insert <= strstart && prevLength >= 1 && Entered(At() + 1 - insert, At() + 1) && Hashed(At() + 1)
      modifies head, prev, this`insH, this`keys, this`gaps, this`strstart, this`prevLength
      ensures strstart == old(strstart + prevLength)
      ensures Entered(At() + 1 - insert, At() + 1) && Hashed(At() + 1)
      ensures LeftOut(data, old(gaps), gaps) && (strstart <= maxInsert ==> gaps == old(gaps))
    {
      hide Filled, Entered, Hashed, Pow2, HashSize;
      var more := true;
      while more
        invariant insert <= strstart && strstart + prevLength == old(strstart + prevLength) && (more <==> prevLength != 0)
        invariant Entered(At() + 1 - insert, At() + 1) && Hashed(At() + 1)
        invariant LeftOut(data, old(gaps), gaps) && (strstart <= maxInsert ==> gaps == old(gaps))
        decreases prevLength
      {
        strstart := strstart + 1;
        var _ := Insert(strstart <= maxInsert);
        prevLength := prevLength - 1;
        more := prevLength != 0;
      }
    }

    method Shorten()
      requires 2 <= prevLength <= lookahead + 1
      modifies this`lookahead, this`prevLength
      ensures lookahead == old(lookahead - (prevLength - 1)) && prevLength == old(prevLength) - 2
    {
      lookahead := lookahead - (prevLength - 1);
      prevLength := prevLength - 2;
    }

    method Leave()
      requires Shape() && Filled() && |data| == At() + 1 + lookahead && strstart + 1 + lookahead <= window.Length
      requires insert <= strstart && Entered(At() + 1 - insert, At() + 1) && Hashed(At() + 1)
      modifies this`matchAvailable, this`matchLength, this`strstart
      ensures Body() && Hashed(At()) && !matchAvailable && At() == old(At()) + 1 && matchLength == MIN_MATCH - 1
    {
      hide Shape, Filled, Entered, Hashed;
      matchAvailable := false;
      matchLength := MIN_MATCH - 1;
      strstart := strstart + 1;
    }

    lemma LookedMeans()
      requires Looked()
      ensures Shape() && Filled() && |data| == At() + lookahead && strstart + lookahead <= window.Length && insert <= strstart
      ensures Entered(At() + 1 - insert, At() + 1) && Hashed(At() + 1) && prevLength <= MAX_MATCH
      ensures prevLength >= MIN_MATCH ==> strstart >= 1
    {
    }

    // strstart goes to the end of the pending match.
    method PassMatch()
      requires Looked() && prevLength >= MIN_MATCH
      modifies head, prev, this`insH, this`keys, this`gaps
      modifies this`strstart, this`lookahead, this`prevLength, this`matchAvailable, this`matchLength
      ensures Body() && Hashed(At()) && !matchAvailable && At() == old(At() + prevLength) - 1 && matchLength == MIN_MATCH - 1
      ensures LeftOut(data, old(gaps), gaps) && (old(lookahead) >= MIN_LOOKAHEAD ==> gaps == old(gaps))
    {
      hide Looked, Body, Shape, Placed, Filled, Entered, Hashed, LeftOut;
      PendingFits();
      LookedMeans();
      var maxInsert := strstart + lookahead - MIN_MATCH;
      Shorten();
      SkipMatch(maxInsert);
      Leave();
    }

    // The pending match is at least as good as the one found now.
    method EmitMatch() returns (room: bool)
      requires Decided() && prevLength >= MIN_MATCH && matchLength <= prevLength
      modifies head, prev, symBuf, this`insH, this`keys, this`gaps, this`symNext, this`sent, this`blockStart, this`availOut
      modifies this`strstart, this`lookahead, this`prevLength, this`matchAvailable, this`matchLength
      ensures Valid() && At() == old(At() + prevLength) - 1 && old(sent) <= sent && (!room ==> availOut == 0)
      ensures !matchAvailable && matchLength == MIN_MATCH - 1
      ensures old(At() - 1 - prevAt) >= 1
      ensures sent + Held() == old(sent + Held()) + [Match(old(At() - 1 - prevAt), old(prevLength))]
      ensures LeftOut(data, old(gaps), gaps) && (old(lookahead) >= MIN_LOOKAHEAD ==> gaps == old(gaps))
    {
      hide Looked, Tallied, Hashed, Entered, Matched, WindowHas, Held, Output, LeftOut, Pow2, HashSize;
      var bflush := TallyPending();
      assert sent + Held() == old(sent + Held()) + [Match(old(At() - 1 - prevAt), old(prevLength))];
      PassMatch();
      room := true;
      if bflush {
        FlushBlock();
        room := availOut != 0;
      }
    }

    lemma PendingFits()
      requires Looked() && prevLength >= MIN_MATCH
      ensures prevLength - 1 <= lookahead && matchAvailable
    {
    }

    lemma NoPendingMatch()
      requires Body() && lookahead == 0
      ensures matchLength < MIN_MATCH
    {
    }

    lemma NothingHeld(end: int)
      requires Tallied(end) && symNext == 0
      ensures Output(sent) == Some(data[..end])
    {
      NoSymbols(symBuf[..symNext]);
      assert sent + [] == sent;
    }

    // The byte still pending becomes a literal.
    method TallyLast()
      requires Valid() && lookahead == 0
      modifies this`symNext, symBuf, this`matchAvailable
      ensures Body() && Tallied(At()) && !matchAvailable && insert <= 2
      ensures sent + Held() == old(sent + Held()) + PendingByte(data, old(Standing()))
    {
      hide *;
      LastFacts();
      if matchAvailable {
        var _ := TallyByte();
        assert sent + Held() == old(sent + Held()) + [Literal(data[At() - 1])];
        Settle();
      } else {
        assert sent + Held() == sent + Held() + [];
      }
    }

    lemma LastFacts()
      requires Valid() && lookahead == 0
      ensures Body() && Shape() && Placed() && symNext < symEnd && insert <= 2 && 2 <= matchLength < 3
      ensures Tallied(if matchAvailable then At() - 1 else At()) && (matchAvailable ==> strstart >= 1 && 1 <= At() <= |data|)
      ensures PendingByte(data, Standing()) == if matchAvailable then [Literal(data[At() - 1])] else []
    {
      NoPendingMatch();
    }

    method Settle()
      requires Body() && matchLength < 3
      modifies this`matchAvailable
      ensures Body() && !matchAvailable
    {
      hide Shape, Placed, Entered, Matched;
      matchAvailable := false;
    }

    // The last two strings have not been entered: they will be when there is more data.
    method LeaveLast()
      requires Body() && lookahead == 0 && insert <= 2 && Reaching()
      modifies this`insert, this`gaps, this`oldest
      ensures Body() && Hashed(At()) && Reaching() && SameGaps(data, old(gaps), gaps) && gaps <= old(gaps)
      ensures (forall g | g in gaps :: g + 2 < |data|) && (old(oldest) == origin ==> oldest == origin)
    {
      hide WindowHas, HeadsOk, LinksOk, KeysOk, Complete, Matched, Pow2, HashSize, Rolled;
      KeysEnd(keys, hashBits, data, At() - insert);
      KeysInside();
      ghost var end := At() - insert;
      insert := if strstart < MIN_MATCH - 1 then strstart else MIN_MATCH - 1;
      KeysLater(keys, hashBits, data, |data| - 2, At() - insert);
      ForgetLast(end);
    }

    ghost method ForgetLast(end: int)
      requires Shape() && Placed() && Reaching() && lookahead == 0 && Complete(keys, oldest, gaps, end) && At() >= end >= At() - 2
      requires insert == if strstart < MIN_MATCH - 1 then strstart else MIN_MATCH - 1
      requires forall a: nat | a in keys :: a + 2 < |data|
      modifies this`gaps, this`oldest
      ensures Complete(keys, oldest, gaps, At() - insert) && Reaching() && SameGaps(data, old(gaps), gaps) && gaps <= old(gaps)
      ensures (forall g | g in gaps :: g + 2 < |data|) && (old(oldest) == origin ==> oldest == origin)
    {
      hide Filled, Complete, Pow2, HashSize;
      var was := gaps;
      gaps := set g | g in gaps && g + 2 < |data|;
      LastLeft(was, end);
      oldest := Min(oldest, At() - insert);
    }

    lemma LastLeft(was: set<nat>, end: int)
      requires Shape() && Placed() && Reaching() && lookahead == 0 && Complete(keys, oldest, was, end) && At() >= end >= At() - 2
      requires insert == if strstart < MIN_MATCH - 1 then strstart else MIN_MATCH - 1
      requires (forall a: nat | a in keys :: a + 2 < |data|) && gaps == set g | g in was && g + 2 < |data|
      ensures Complete(keys, Min(oldest, At() - insert), gaps, At() - insert)
    {
      hide Pow2, HashSize, Filled;
      CompleteShorter(keys, oldest, was, gaps, end, At() - insert, |data| - 2);
    }

    lemma KeysInside()
      requires KeysOk(keys, hashBits, data, At() - insert)
      ensures forall a: nat | a in keys :: a + 2 < |data|
    {
    }

    // At the end of the input nothing is pending.
    method EndInput()
      requires Valid() && Following() && lookahead == 0
      modifies this`symNext, symBuf, this`matchAvailable, this`insert, this`gaps, this`oldest, this`log
      ensures Body() && Hashed(At()) && Tallied(At()) && Following() && !matchAvailable
      ensures log == old(log) + [Ended(|data|)]
      ensures gaps <= old(gaps) && (forall g | g in gaps :: g + 2 < |data|) && (old(oldest) == origin ==> oldest == origin)
    {
      hide Entered, Hashed, Tallied, Matched, Held, Filled, Output, Explained, Tokens, After, PendingByte, SameGaps, Pow2, HashSize;
      TallyLast();
      LeaveLast();
      log := log + [Ended(|data|)];
      NoPendingMatch();
      AfterEnd(old(gaps), old(log), old(Standing()), old(sent + Held()));
    }

    // The end of the input, when flushing or finishing.
    method Drain(flush: Flush) returns (r: BlockState)
      requires Valid() && Following() && lookahead == 0 && flush != NoFlush
      modifies this`symNext, symBuf, this`sent, this`blockStart, this`availOut, this`matchAvailable, this`insert
      modifies this`gaps, this`oldest, this`log
      ensures Valid() && Following() && lookahead == 0 && old(sent) <= sent
      ensures Output(sent) == Some(data)
      ensures flush == Finish ==> r == if availOut == 0 then FinishStarted else FinishDone
      ensures flush != Finish ==> r == BlockDone || (r == NeedMore && availOut == 0)
      ensures !matchAvailable && symNext == 0 && log == old(log) + [Ended(|data|)]
      ensures gaps <= old(gaps) && (forall g | g in gaps :: g + 2 < |data|) && (old(oldest) == origin ==> oldest == origin)
    {
      hide Entered, Hashed, Tallied, Matched, Held, Filled, Output, Explained, Tokens, After, Standing, Reaching, Pow2, HashSize;
      EndInput();
      assert data[..At()] == data;
      if flush == Finish {
        FlushBlock();
        return if availOut == 0 then FinishStarted else FinishDone;
      }
      if symNext != 0 {
        FlushBlock();
        if availOut == 0 {
          return NeedMore;
        }
      } else {
        NothingHeld(At());
      }
      r := BlockDone;
    }

    // The end of the input takes the pending byte.
    lemma AfterEnd(was: set<nat>, before: seq<Event>, p: Pending, tokens: seq<Token<bv8>>)
      requires Reaching() && Explained(Settings(), data, was, before) && SameGaps(data, was, gaps)
      requires Tokens(data, before) == tokens && After(before) == p && p.at == |data| && log == before + [Ended(|data|)]
      requires sent + Held() == tokens + PendingByte(data, p) && Standing() == p.(avail := false)
      ensures Following()
    {
      hide LookOk, SameGaps, PendingByte, Standing, Held;
      assert data + [] == data;
      ExplainedStays(Settings(), data, [], was, gaps, before);
      RunOn(Settings(), data, gaps, before, Ended(|data|));
    }

    // What is pending when a step begins, once it has looked for a match.
    ghost function Waiting(): Pending
      reads this`base, this`strstart, this`matchAvailable, this`prevLength, this`prevAt
    {
      Pending(At(), matchAvailable, prevLength, if prevLength >= MIN_MATCH then prevAt else 0)
    }

    // The pending match is emitted.
    method StepMatch(ghost k: Look) returns (room: bool)
      requires Decided() && lookahead >= 1 && MadeHere(k) && prevLength >= MIN_MATCH && matchLength <= prevLength
      modifies head, prev, symBuf, this`insH, this`keys, this`gaps, this`symNext, this`sent, this`blockStart, this`availOut
      modifies this`strstart, this`lookahead, this`prevLength, this`matchAvailable, this`matchLength
      ensures Valid() && At() > old(At()) && old(sent) <= sent && (!room ==> availOut == 0)
      ensures Standing() == Next(old(Waiting()), Event.Looked(k))
      ensures sent + Held() == old(sent + Held()) + Emits(data, old(Waiting()), Event.Looked(k))
      ensures LeftOut(data, old(gaps), gaps) && (old(lookahead) >= MIN_LOOKAHEAD ==> gaps == old(gaps))
    {
      hide Decided, Valid, Held, Output, LeftOut, Next, Emits;
      PendingBefore();
      MatchNext(data, Waiting(), k);
      room := EmitMatch();
    }

    lemma PendingBefore()
      requires Decided() && prevLength >= MIN_MATCH
      ensures At() - 1 - prevAt >= 0
    {
    }

    // The pending byte is emitted, and the byte at strstart pending.
    method StepLiteral(ghost k: Look) returns (room: bool)
      requires Decided() && lookahead >= 1 && MadeHere(k) && !(prevLength >= MIN_MATCH && matchLength <= prevLength) && matchAvailable
      modifies symBuf, this`symNext, this`sent, this`blockStart, this`availOut, this`strstart, this`lookahead
      ensures Valid() && At() > old(At()) && old(sent) <= sent && (!room ==> availOut == 0)
      ensures Standing() == Next(old(Waiting()), Event.Looked(k))
      ensures sent + Held() == old(sent + Held()) + Emits(data, old(Waiting()), Event.Looked(k))
    {
      hide *;
      DecidedFacts();
      WaitingIs();
      MadeMeans(k);
      LiteralNext(data, Waiting(), k);
      EmitLiteral();
      StandingIs();
      room := availOut != 0;
    }

    // No byte was pending.
    method StepNothing(ghost k: Look)
      requires Decided() && lookahead >= 1 && MadeHere(k) && !(prevLength >= MIN_MATCH && matchLength <= prevLength) && !matchAvailable
      modifies this`matchAvailable, this`strstart, this`lookahead
      ensures Valid() && At() > old(At())
      ensures Standing() == Next(old(Waiting()), Event.Looked(k))
      ensures sent + Held() == old(sent + Held()) + Emits(data, old(Waiting()), Event.Looked(k))
    {
      hide Decided, Valid, Held, Next, Emits;
      NothingNext(data, Waiting(), k);
      assert sent + Held() == sent + Held() + [];
      Defer();
    }

    // The byte at strstart is pending.
    method StepByte(ghost k: Look) returns (room: bool)
      requires Decided() && lookahead >= 1 && MadeHere(k) && !(prevLength >= MIN_MATCH && matchLength <= prevLength)
      modifies symBuf, this`symNext, this`sent, this`blockStart, this`availOut, this`strstart, this`lookahead, this`matchAvailable
      ensures Valid() && At() > old(At()) && old(sent) <= sent && (!room ==> availOut == 0)
      ensures Standing() == Next(old(Waiting()), Event.Looked(k))
      ensures sent + Held() == old(sent + Held()) + Emits(data, old(Waiting()), Event.Looked(k))
    {
      hide *;
      room := true;
      if matchAvailable {
        room := StepLiteral(k);
      } else {
        StepNothing(k);
      }
    }

    lemma WaitingIs()
      ensures Waiting() == Pending(At(), matchAvailable, prevLength, if prevLength >= MIN_MATCH then prevAt else 0)
    {
    }

    lemma StandingIs()
      ensures Standing() == Pending(At(), matchAvailable, matchLength, if matchLength >= MIN_MATCH then matchAt else 0)
    {
    }

    lemma MadeMeans(k: Look)
      requires MadeHere(k)
      ensures k.at == At() && k.len == matchLength && k.m == matchAt
    {
    }

    // Either way.
    method Emit(ghost k: Look) returns (room: bool)
      requires Decided() && lookahead >= 1 && MadeHere(k)
      modifies head, prev, symBuf, this`insH, this`keys, this`gaps, this`symNext, this`sent, this`blockStart, this`availOut
      modifies this`strstart, this`lookahead, this`prevLength, this`matchAvailable, this`matchLength
      ensures Valid() && At() > old(At()) && old(sent) <= sent && (!room ==> availOut == 0)
      ensures Standing() == Next(old(Waiting()), Event.Looked(k))
      ensures sent + Held() == old(sent + Held()) + Emits(data, old(Waiting()), Event.Looked(k))
      ensures LeftOut(data, old(gaps), gaps) && (old(lookahead) >= MIN_LOOKAHEAD ==> gaps == old(gaps))
    {
      hide *;
      if prevLength >= MIN_MATCH && matchLength <= prevLength {
        room := StepMatch(k);
      } else {
        room := StepByte(k);
        LeftOutNone(data, gaps);
      }
    }

    lemma DecidedFacts()
      requires Decided()
      ensures At() <= |data| && (matchAvailable ==> At() >= 1)
    {
    }

    // A step but for its record; was has the strings left out when the search was made.
    method FindAndEmit() returns (room: bool, ghost k: Look, ghost was: set<nat>)
      requires Valid() && Reaching() && lookahead >= 1 && strstart + MIN_LOOKAHEAD <= window.Length
      modifies head, prev, symBuf, this`insH, this`keys, this`gaps, this`symNext, this`sent, this`blockStart, this`availOut
      modifies this`strstart, this`lookahead, this`prevLength, this`matchAvailable, this`matchLength
      modifies this`prevMatch, this`matchStart, this`prevAt, this`matchAt
      ensures Valid() && Reaching() && At() > old(At()) && old(sent) <= sent && (!room ==> availOut == 0)
      ensures Standing() == Next(old(Standing()), Event.Looked(k))
      ensures sent + Held() == old(sent + Held()) + Emits(data, old(Standing()), Event.Looked(k))
      ensures LookOk(Settings(), data, was, old(matchLength), k) && k.at == old(At()) && k.ahead == old(lookahead)
      ensures k.at + k.ahead == |data| && k.floor == base && k.origin == origin && k.first == oldest
      ensures LeftOut(data, was, gaps) && LeftOut(data, old(gaps), gaps) && (old(lookahead) >= MIN_LOOKAHEAD ==> gaps == old(gaps))
    {
      hide Valid, Decided, LookOk, LeftOut, Held, Next, Emits, Pow2, HashSize;
      k := FindMatch();
      was := gaps;
      room := Emit(k);
      LeftOutTwice(data, old(gaps), was, gaps);
    }

    // One step: the byte at strstart is looked for, then it is deferred, or what was pending is emitted.
    method Process() returns (room: bool, ghost k: Look)
      requires Valid() && Following() && lookahead >= 1 && strstart + MIN_LOOKAHEAD <= window.Length
      modifies head, prev, symBuf, this`insH, this`keys, this`gaps, this`symNext, this`sent, this`blockStart, this`availOut
      modifies this`strstart, this`lookahead, this`prevLength, this`matchAvailable, this`matchLength
      modifies this`prevMatch, this`matchStart, this`prevAt, this`matchAt, this`log
      ensures Valid() && Following() && At() > old(At()) && old(sent) <= sent && (!room ==> availOut == 0)
      ensures log == old(log) + [Event.Looked(k)] && EventOk(Settings(), data, gaps, old(Standing()), Event.Looked(k))
      ensures Standing() == Next(old(Standing()), Event.Looked(k))
      ensures sent + Held() == old(sent + Held()) + Emits(data, old(Standing()), Event.Looked(k))
      ensures k.ahead == old(lookahead) && k.at + k.ahead == |data| && k.floor == base && k.origin == origin && k.first == oldest
      ensures LeftOut(data, old(gaps), gaps) && (old(lookahead) >= MIN_LOOKAHEAD ==> gaps == old(gaps))
    {
      hide *;
      FollowingMeans();
      ghost var was;
      room, k, was := FindAndEmit();
      Record(k, old(gaps), was, old(Standing()), old(sent + Held()));
    }

    lemma FollowingMeans()
      requires Following()
      ensures Reaching() && Explained(Settings(), data, gaps, log) && Tokens(data, log) == sent + Held() && After(log) == Standing()
      ensures Standing().at == At() && Standing().len == matchLength
    {
    }

    ghost method Record(k: Look, was: set<nat>, midway: set<nat>, p: Pending, tokens: seq<Token<bv8>>)
      requires Valid() && Reaching() && Explained(Settings(), data, was, log) && LeftOut(data, was, gaps) && LeftOut(data, midway, gaps)
      requires Tokens(data, log) == tokens && After(log) == p && k.at == p.at && LookOk(Settings(), data, midway, p.len, k)
      requires sent + Held() == tokens + Emits(data, p, Event.Looked(k)) && Standing() == Next(p, Event.Looked(k))
      modifies this`log
      ensures Valid() && Following() && log == old(log) + [Event.Looked(k)] && EventOk(Settings(), data, gaps, p, Event.Looked(k))
    {
      hide Body, Tallied, Hashed, Reaching, Explained, Tokens, After, LookOk, LeftOut, Held, Next, Emits, EventOk, Standing;
      log := log + [Event.Looked(k)];
      AfterLook(was, midway, old(log), p, tokens, k);
    }

    // What was emitted and is pending now follow from the search.
    lemma AfterLook(was: set<nat>, midway: set<nat>, before: seq<Event>, p: Pending, tokens: seq<Token<bv8>>, k: Look)
      requires Reaching() && Explained(Settings(), data, was, before) && LeftOut(data, was, gaps) && LeftOut(data, midway, gaps)
      requires Tokens(data, before) == tokens && After(before) == p && log == before + [Event.Looked(k)]
      requires k.at == p.at && LookOk(Settings(), data, midway, p.len, k)
      requires sent + Held() == tokens + Emits(data, p, Event.Looked(k)) && Standing() == Next(p, Event.Looked(k))
      ensures Following() && EventOk(Settings(), data, gaps, p, Event.Looked(k))
    {
      hide LookOk, SameGaps, LeftOut, Emits, Next, Standing, Held;
      assert data + [] == data;
      LeftOutSame(data, was, gaps);
      LeftOutSame(data, midway, gaps);
      ExplainedStays(Settings(), data, [], was, gaps, before);
      LookStays(Settings(), data, [], midway, gaps, p.len, k);
      RunOn(Settings(), data, gaps, before, Event.Looked(k));
    }

    lemma RoomToSearch()
      requires Valid()
      ensures strstart + lookahead <= window.Length && |data| == At() + lookahead
    {
    }

    // Filling the window does not change what the searches explain.
    method Refill()
      requires Valid() && Following() && lookahead < MIN_LOOKAHEAD
      modifies window, head, prev, this`matchStart, this`strstart, this`blockStart, this`insert, this`base
      modifies this`input, this`data, this`lookahead, this`insH, this`keys
      ensures Valid() && Following() && At() == old(At())
      ensures old(data) <= data && data + input == old(data) + old(input)
      ensures lookahead >= MIN_LOOKAHEAD || input == []
      ensures strstart + MIN_LOOKAHEAD <= window.Length
    {
      hide Valid, Explained, Tokens, After, Held;
      ghost var was := data;
      ghost var turns := FillWindow();
      assert data == was + data[|was|..];
      ExplainedStays(Settings(), was, data[|was|..], gaps, gaps, log);
    }

    // Each search of this call, from the n-th on, knew enough, and strings were left out only at the end of what is flushed.
    ghost predicate Accounted(n: nat, was: set<nat>, flush: Flush, first: nat)
      reads this`log, this`gaps, this`data, this`input, this`origin
    {
      && n <= |log| && AllDue(log, n, flush, origin, first, |data|, input == [])
      && GapsDue(was, gaps, flush, |data|, input == [])
    }

    // The beginning of a turn of the loop.
    method FillUp(flush: Flush, ghost n: nat, ghost was: set<nat>)
      requires Valid() && Following() && lookahead < MIN_LOOKAHEAD && Accounted(n, was, flush, oldest)
      modifies window, head, prev, this`matchStart, this`strstart, this`blockStart, this`insert, this`base
      modifies this`input, this`data, this`lookahead, this`insH, this`keys
      ensures Valid() && Following() && At() == old(At()) && Accounted(n, was, flush, oldest)
      ensures old(data) <= data && data + input == old(data) + old(input)
      ensures lookahead >= MIN_LOOKAHEAD || input == []
      ensures |data| == At() + lookahead && strstart + MIN_LOOKAHEAD <= window.Length
    {
      hide Valid, Following, AllDue, GapsDue;
      Refill();
      RoomToSearch();
      StillDue(log, n, was, gaps, flush, origin, oldest, old(|data|), old(input == []), |data|, input == []);
    }

    // The rest of it.
    method Advanced(flush: Flush, ghost n: nat, ghost was: set<nat>) returns (room: bool)
      requires Valid() && Following() && Accounted(n, was, flush, oldest)
      requires lookahead >= MIN_LOOKAHEAD || (lookahead >= 1 && flush != NoFlush && input == [])
      requires strstart + MIN_LOOKAHEAD <= window.Length
      modifies head, prev, symBuf, this`insH, this`keys, this`gaps, this`symNext, this`sent, this`blockStart, this`availOut
      modifies this`strstart, this`lookahead, this`prevLength, this`matchAvailable, this`matchLength
      modifies this`prevMatch, this`matchStart, this`prevAt, this`matchAt, this`log
      ensures Valid() && Following() && At() > old(At()) && old(sent) <= sent && (!room ==> availOut == 0)
      ensures Accounted(n, was, flush, oldest) && old(log) <= log
    {
      hide Valid, Following, AllDue, GapsDue, LeftOut, Standing, Next, Emits, EventOk, Held;
      ghost var k;
      room, k := Process();
      OneDue(old(log), log, n, was, old(gaps), gaps, flush, origin, oldest, data, input == []);
    }

    // The end.
    method Close(flush: Flush, ghost n: nat, ghost was: set<nat>) returns (r: BlockState)
      requires Valid() && Following() && lookahead == 0 && flush != NoFlush && input == [] && Accounted(n, was, flush, oldest)
      modifies this`symNext, symBuf, this`sent, this`blockStart, this`availOut, this`matchAvailable, this`insert
      modifies this`gaps, this`oldest, this`log
      ensures Valid() && Following() && lookahead == 0 && old(sent) <= sent && Output(sent) == Some(data)
      ensures flush == Finish ==> r == if availOut == 0 then FinishStarted else FinishDone
      ensures flush != Finish ==> r == BlockDone || (r == NeedMore && availOut == 0)
      ensures !matchAvailable && symNext == 0 && old(log) <= log && (old(oldest) == origin ==> oldest == origin)
      ensures Accounted(n, was, flush, old(oldest)) && gaps <= was
    {
      hide Valid, Following, AllDue, GapsDue, Output, Held;
      r := Drain(flush);
      DrainDue(old(log), n, was, old(gaps), flush, old(oldest));
    }

    // deflate_slow: compress as much input as there is; return when output space runs out, or all is done that flush asks for.
    method DeflateSlow(flush: Flush) returns (r: BlockState)
      requires Valid() && Following()
      modifies this, window, head, prev, symBuf
      ensures Valid() && Following()
      ensures old(data) <= data && data + input == old(data + input) && old(sent) <= sent
      ensures r == NeedMore ==> availOut == 0 || (flush == NoFlush && input == [] && lookahead < MIN_LOOKAHEAD)
      ensures r != NeedMore ==> flush != NoFlush && input == [] && lookahead == 0 && Output(sent) == Some(data)
      ensures r == BlockDone ==> flush != Finish && !matchAvailable && symNext == 0
      ensures r == FinishStarted || r == FinishDone ==> flush == Finish
      ensures old(log) <= log && Accounted(|old(log)|, old(gaps), flush, old(oldest)) && (r != NeedMore ==> gaps <= old(gaps))
      ensures origin == old(origin) && (old(oldest) == origin ==> oldest == origin)
    {
      hide Valid, Following, Steady, Output, Held, AllDue, GapsDue, Accounted;
      NothingDue(flush);
      while true
        invariant Valid() && Following() && old(data) <= data && data + input == old(data + input) && old(sent) <= sent
        invariant origin == old(origin) && oldest == old(oldest) && old(log) <= log
        invariant Accounted(|old(log)|, old(gaps), flush, oldest)
        decreases |old(data)| + |old(input)| - At()
      {
        if lookahead < MIN_LOOKAHEAD {
          FillUp(flush, |old(log)|, old(gaps));
          if lookahead < MIN_LOOKAHEAD && flush == NoFlush {
            return NeedMore;
          }
          if lookahead == 0 {
            break;
          }
        }
        RoomToSearch();
        var room := Advanced(flush, |old(log)|, old(gaps));
        if !room {
          return NeedMore;
        }
      }
      assert flush != NoFlush;
      r := Close(flush, |old(log)|, old(gaps));
    }

    lemma NothingDue(flush: Flush)
      ensures Accounted(|log|, gaps, flush, oldest)
    {
    }

    lemma DrainDue(before: seq<Event>, n: nat, was: set<nat>, midway: set<nat>, flush: Flush, first: nat)
      requires n <= |before| && AllDue(before, n, flush, origin, first, |data|, input == [])
      requires GapsDue(was, midway, flush, |data|, input == []) && log == before + [Ended(|data|)]
      requires flush != NoFlush && input == [] && gaps <= midway && forall g | g in gaps :: g + 2 < |data|
      ensures Accounted(n, was, flush, first) && gaps <= was
    {
      EndDue(before, n, was, midway, gaps, flush, origin, first, |data|, input == []);
    }

    // CLEAR_HASH
    method ClearHash()
      requires Shape()
      modifies head
      ensures forall i :: 0 <= i < head.Length ==> head[i] == 0
    {
      for i := 0 to head.Length
        invariant forall k :: 0 <= k < i ==> head[k] == 0
      {
        head[i] := 0;
      }
    }

    // After a full flush: forget the history, and start the window again if it has no data left to compress.
    method ForgetHistory()
      requires Valid() && Following() && !matchAvailable && symNext == 0
      modifies head, this`strstart, this`blockStart, this`insert, this`base, this`keys, this`oldest, this`origin
      ensures Valid() && Following() && At() == old(At()) && oldest == At() - insert
      ensures lookahead == 0 ==> strstart == 0 && oldest == origin == |data|
    {
      hide *;
      RoomToSearch();
      FollowingMeans();
      DropHeads();
      if lookahead == 0 {
        Restart();
      }
      FollowingStill();
    }

    lemma FollowingStill()
      requires Reaching() && Explained(Settings(), data, gaps, log) && Tokens(data, log) == sent + Held() && After(log) == Standing()
      ensures Following()
    {
    }

    method DropHeads()
      requires Valid()
      modifies head, this`keys, this`oldest
      ensures Valid() && keys == map[] && old(oldest) <= oldest == At() - insert && Held() == old(Held())
      ensures old(Reaching()) ==> Reaching()
      ensures forall i :: 0 <= i < head.Length ==> head[i] == 0
    {
      hide KeysOk, HeadsOk, LinksOk, Rolled, WindowHas, Tallied, Matched, Pow2, HashSize;
      ClearHash();
      keys, oldest := map[], At() - insert;
      NoChains(head[..], prev[..], hashBits, data, base, At(), At() - insert, oldest, gaps);
    }

    lemma NothingToSend()
      requires Tallied(At()) && symNext == 0
      ensures TokensOk(sent, Held(), data, At(), At())
    {
      NoSymbols(symBuf[..symNext]);
      assert sent + [] == sent;
    }

    // The next byte is at window[0] now.
    method Restart()
      requires Valid() && !matchAvailable && lookahead == 0 && symNext == 0 && keys == map[]
      requires forall i :: 0 <= i < head.Length ==> head[i] == 0
      modifies this`strstart, this`blockStart, this`insert, this`base, this`oldest, this`origin
      ensures Valid() && At() == old(At()) && strstart == insert == 0 && oldest == origin == base == At()
      ensures Reaching() && Held() == old(Held()) && Standing() == old(Standing())
    {
      NothingToSend();
      hide Held;
      NoChains(head[..], prev[..], hashBits, data, At(), At(), At(), At(), gaps);
      hide Rolled, KeysOk, HeadsOk, LinksOk, Complete, TokensOk, Found, Symbols, Pow2, HashSize;
      Rewind();
    }

    method Rewind()
      modifies this`strstart, this`blockStart, this`insert, this`base, this`oldest, this`origin
      ensures base == oldest == origin == old(At()) && strstart == blockStart == insert == 0
    {
      oldest, origin := At(), At();
      base, strstart, blockStart, insert := At(), 0, 0, 0;
    }

    // Any calls of deflate, each with more input and new room for output.  The symbols sent and held are those
    // that the data asks for, with a search at each position, at which all that matters of the data is known.
    method Session(calls: seq<Call>) returns (r: BlockState)
      requires Valid() && Following() && data == [] && input == [] && sent == [] && log == [] && gaps == {}
      requires origin == oldest == 0
      modifies this, window, head, prev, symBuf
      ensures Valid() && Following() && data + input == Flatten(calls)
      ensures r != NeedMore ==> Output(sent) == Some(Flatten(calls))
      ensures forall i {:trigger log[i]} :: 0 <= i < |log| ==> EventDue(calls, |calls|, log[i])
      ensures forall g {:trigger g in gaps} :: g in gaps ==> GapDue(calls, |calls|, g)
      ensures r != NeedMore && NoneFlushed(calls, |calls| - 1) ==> gaps == {}
    {
      hide Valid, Following, Output, EventDue, GapDue, AllDue, GapsDue;
      r := NeedMore;
      var n := 0;
      OriginFirst(calls);
      while n < |calls|
        invariant 0 <= n <= |calls|
        invariant Valid() && Following() && data + input == Flatten(calls[..n])
        invariant r != NeedMore ==> Output(sent) == Some(Flatten(calls[..n]))
        invariant origin == oldest && OriginDue(calls, n, origin)
        invariant forall i {:trigger log[i]} :: 0 <= i < |log| ==> EventDue(calls, n, log[i])
        invariant forall g {:trigger g in gaps} :: g in gaps ==> GapDue(calls, n, g)
        invariant NoneFlushed(calls, n) ==> gaps == {}
        invariant NoneFlushed(calls, n - 1) && r != NeedMore ==> gaps == {}
      {
        var call := calls[n];
        assert calls[..n + 1][..n] == calls[..n];
        assert (data + input) + call.chunk == data + (input + call.chunk);
        ghost var before, was := log, gaps;
        Supply(call);
        r := DeflateSlow(call.flush);
        assert data + [] == data;
        GapsInside();
        CallDue(calls, n, before, log, was, gaps, origin, data, input);
        if r == BlockDone && call.flush == FullFlush {
          ForgetHistory();
          OriginMoved(calls, n, data);
        }
        n := n + 1;
      }
      assert calls[..n] == calls;
    }

    lemma GapsInside()
      requires Valid()
      ensures forall g | g in gaps :: g < |data|
    {
    }

    method Supply(call: Call)
      requires Valid()
      modifies this`input, this`availOut
      ensures Valid() && (old(Following()) ==> Following()) && input == old(input) + call.chunk
    {
      hide Shape, Placed, Entered, Hashed, Tallied, Matched, Explained, Tokens, After, Held;
      input, availOut := input + call.chunk, call.room;
    }
  }

  // What the caller gives deflate: more input, room for output, and how to flush.
  datatype Call = Call(chunk: seq<bv8>, room: nat, flush: Flush)

  function Flatten(calls: seq<Call>): seq<bv8> {
    if calls == [] then [] else Flatten(calls[..|calls| - 1]) + calls[|calls| - 1].chunk
  }

  // A search knows 262 bytes of the data, or all there is of a call that flushes.
  predicate Due(e: Event, flush: Flush, origin: nat, first: nat, size: nat, dry: bool) {
    match e
    case Looked(k) =>
      && k.origin == origin && k.first == first
      && (k.ahead >= MIN_LOOKAHEAD || (flush != NoFlush && dry && k.at + k.ahead == size))
    case Ended(at) => flush != NoFlush && dry && at == size
  }

  ghost predicate AllDue(log: seq<Event>, n: nat, flush: Flush, origin: nat, first: nat, size: nat, dry: bool) {
    forall i {:trigger log[i]} :: n <= i < |log| ==> Due(log[i], flush, origin, first, size, dry)
  }

  // Strings are left out only at the end of what is flushed.
  ghost predicate GapsDue(was: set<nat>, gaps: set<nat>, flush: Flush, size: nat, dry: bool) {
    && (flush == NoFlush ==> gaps == was)
    && forall g {:trigger g in gaps} | g in gaps :: g in was || (dry && g + 2 >= size)
  }

  lemma StillDue(log: seq<Event>, n: nat, was: set<nat>, gaps: set<nat>, flush: Flush, origin: nat, first: nat,
                 size: nat, dry: bool, size': nat, dry': bool)
    requires AllDue(log, n, flush, origin, first, size, dry) && GapsDue(was, gaps, flush, size, dry)
    requires dry ==> dry' && size' == size
    ensures AllDue(log, n, flush, origin, first, size', dry') && GapsDue(was, gaps, flush, size', dry')
  {
  }

  lemma OneDue(before: seq<Event>, log: seq<Event>, n: nat, was: set<nat>, midway: set<nat>, gaps: set<nat>, flush: Flush,
               origin: nat, first: nat, data: seq<bv8>, dry: bool)
    requires AllDue(before, n, flush, origin, first, |data|, dry) && GapsDue(was, midway, flush, |data|, dry)
    requires log != [] && log[..|log| - 1] == before && Due(log[|log| - 1], flush, origin, first, |data|, dry)
    requires LeftOut(data, midway, gaps) && (gaps == midway || (flush != NoFlush && dry))
    ensures AllDue(log, n, flush, origin, first, |data|, dry) && GapsDue(was, gaps, flush, |data|, dry)
  {
    forall i | n <= i < |log| ensures Due(log[i], flush, origin, first, |data|, dry) {
      if i < |log| - 1 {
        assert log[i] == before[i];
      }
    }
  }

  lemma EndDue(before: seq<Event>, n: nat, was: set<nat>, midway: set<nat>, gaps: set<nat>, flush: Flush, origin: nat, first: nat,
               size: nat, dry: bool)
    requires AllDue(before, n, flush, origin, first, size, dry) && GapsDue(was, midway, flush, size, dry)
    requires flush != NoFlush && dry && gaps <= midway && forall g | g in gaps :: g + 2 < size
    ensures AllDue(before + [Ended(size)], n, flush, origin, first, size, dry) && GapsDue(was, gaps, flush, size, dry) && gaps <= was
  {
  }

  // One of the first n calls flushed when size bytes had been supplied.
  ghost predicate Flushed(calls: seq<Call>, n: nat, size: nat) {
    exists i {:trigger calls[i]} :: 0 <= i < n && i < |calls| && calls[i].flush != NoFlush && size == |Flatten(calls[..i + 1])|
  }

  // The window was started at the beginning, or after a full flush.
  ghost predicate OriginDue(calls: seq<Call>, n: nat, origin: nat) {
    origin == 0 || exists i {:trigger calls[i]} ::
      0 <= i < n && i < |calls| && calls[i].flush == FullFlush && origin == |Flatten(calls[..i + 1])|
  }

  // A search knows 262 bytes, or all to the end of a call that flushes; all strings since the last full flush were entered.
  ghost predicate EventDue(calls: seq<Call>, n: nat, e: Event) {
    match e
    case Looked(k) =>
      k.first == k.origin && OriginDue(calls, n, k.origin) && (k.ahead >= MIN_LOOKAHEAD || Flushed(calls, n, k.at + k.ahead))
    case Ended(at) => Flushed(calls, n, at)
  }

  // But strings can be left out that are one of the last two of a call that flushes.
  ghost predicate GapDue(calls: seq<Call>, n: nat, g: nat) { Flushed(calls, n, g + 1) || Flushed(calls, n, g + 2) }

  predicate NoneFlushed(calls: seq<Call>, n: int) { forall i {:trigger calls[i]} :: 0 <= i < n && i < |calls| ==> calls[i].flush == NoFlush }

  lemma OriginFirst(calls: seq<Call>)
    ensures OriginDue(calls, 0, 0)
  {
  }

  lemma OriginMoved(calls: seq<Call>, n: nat, data: seq<bv8>)
    requires n < |calls| && calls[n].flush == FullFlush && data == Flatten(calls[..n + 1])
    ensures OriginDue(calls, n + 1, |data|)
  {
  }

  lemma EventLater(calls: seq<Call>, n: nat, e: Event)
    requires EventDue(calls, n, e)
    ensures EventDue(calls, n + 1, e)
  {
    hide Flatten;
  }

  lemma DueNow(calls: seq<Call>, n: nat, e: Event, origin: nat, data: seq<bv8>, input: seq<bv8>)
    requires n < |calls| && data + input == Flatten(calls[..n + 1]) && OriginDue(calls, n, origin)
    requires Due(e, calls[n].flush, origin, origin, |data|, input == [])
    ensures EventDue(calls, n + 1, e)
  {
    hide Flatten;
    assert |data + input| == |data| + |input|;
  }

  lemma CallDue(calls: seq<Call>, n: nat, before: seq<Event>, log: seq<Event>, was: set<nat>, gaps: set<nat>, origin: nat,
                data: seq<bv8>, input: seq<bv8>)
    requires n < |calls| && data + input == Flatten(calls[..n + 1]) && OriginDue(calls, n, origin) && before <= log
    requires AllDue(log, |before|, calls[n].flush, origin, origin, |data|, input == [])
    requires GapsDue(was, gaps, calls[n].flush, |data|, input == []) && forall g | g in gaps :: g < |data|
    requires forall i {:trigger before[i]} :: 0 <= i < |before| ==> EventDue(calls, n, before[i])
    requires forall g {:trigger g in was} :: g in was ==> GapDue(calls, n, g)
    ensures OriginDue(calls, n + 1, origin)
    ensures forall i {:trigger log[i]} :: 0 <= i < |log| ==> EventDue(calls, n + 1, log[i])
    ensures forall g {:trigger g in gaps} :: g in gaps ==> GapDue(calls, n + 1, g)
    ensures calls[n].flush == NoFlush ==> gaps == was
  {
    hide Flatten, EventDue, Due, OriginDue, Flushed;
    forall i | 0 <= i < |log| ensures EventDue(calls, n + 1, log[i]) {
      if i < |before| {
        assert log[i] == before[i];
        EventLater(calls, n, log[i]);
      } else {
        DueNow(calls, n, log[i], origin, data, input);
      }
    }
    OriginLater(calls, n, origin);
    forall g | g in gaps ensures GapDue(calls, n + 1, g) {
      GapNow(calls, n, g, was, gaps, data, input);
    }
  }

  lemma OriginLater(calls: seq<Call>, n: nat, origin: nat)
    requires OriginDue(calls, n, origin)
    ensures OriginDue(calls, n + 1, origin)
  {
    hide Flatten;
  }

  lemma GapNow(calls: seq<Call>, n: nat, g: nat, was: set<nat>, gaps: set<nat>, data: seq<bv8>, input: seq<bv8>)
    requires n < |calls| && data + input == Flatten(calls[..n + 1]) && g in gaps && g < |data|
    requires GapsDue(was, gaps, calls[n].flush, |data|, input == [])
    requires g in was ==> GapDue(calls, n, g)
    ensures GapDue(calls, n + 1, g)
  {
    hide Flatten;
    assert |data + input| == |data| + |input|;
    if g !in was {
      assert calls[n].flush != NoFlush;
    }
  }

  // The window is a power of two.
  lemma PowBetween(bits: nat)
    requires 9 <= bits <= 15
    ensures 512 <= Pow2(bits) <= 32768
  {
    Pow2Mono(9, bits);
    Pow2Mono(bits, 15);
    assert Pow2(9) == 512 by {
      assert Pow2(5) == 32;
    }
    assert Pow2(15) == 32768 by {
      assert Pow2(12) == 4096;
    }
  }

  // The distance computed from window indices, even if the index of the match is -1.
  lemma U32Distance(p: nat, start: nat, m: int)
    requires start == U32(m) && 1 <= p - m <= 0xFFFF
    ensures U32(p - start) == p - m
  {
  }

  lemma NoSymbols(s: seq<nat>)
    requires s == []
    ensures Symbols(s) == []
  {
  }

  lemma WindowAt(window: seq<bv8>, data: seq<bv8>, base: nat, i: nat)
    requires WindowHas(window, data, base) && i < |data| - base
    ensures i < |window| && window[i] == data[base + i]
  {
  }

  // str & w_mask
  lemma SlotIs(str: nat, bits: nat)
    requires str < Pow2(bits) + Pow2(bits)
    ensures And(str, Pow2(bits) - 1) == Slot(str, Pow2(bits)) < Pow2(bits)
  {
    AndRem(str, bits);
    RemWrap(str, Pow2(bits));
  }

  lemma U32Minus(x: int, w: int)
    ensures U32(U32(x) - w) == U32(x - w)
  {
  }

  lemma SlideWindow(was: seq<bv8>, now: seq<bv8>, data: seq<bv8>, base: nat, wsize: nat, n: nat)
    requires WindowHas(was, data, base) && |now| == |was| == 2 * wsize
    requires base + wsize + n == |data|
    requires forall i :: 0 <= i < n ==> now[i] == was[i + wsize]
    ensures WindowHas(now, data, base + wsize)
  {
  }
}
