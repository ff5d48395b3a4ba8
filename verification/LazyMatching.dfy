/**
 * Which symbols deflate_slow emits, as a relation between the data and the symbols: at each position the
 * latest earlier strings with the same hash are looked at, in order, and a match is emitted unless the next position
 * has a longer one.  The relation leaves no choice, so a run that meets it emits those symbols and no others.
 */
module LazyMatching {
  import opened DeflateHash
  import opened DeflateState
  import opened HashTable
  import opened Lz77

  const MIN_MATCH: nat := 3
  const MAX_MATCH: nat := 258
  const MIN_LOOKAHEAD: nat := 262
  const TOO_FAR: nat := 4096

  function Min(a: nat, b: nat): nat { if a < b then a else b }

  function Max(a: int, b: int): int { if a < b then b else a }

  // ---- the settings ----------------------------------------------------------------------------

  datatype Config = Config(bits: nat, wsize: nat, chain: nat, lazy: nat, good: nat, nice: nat, filtered: bool)

  function MaxDist(c: Config): int { c.wsize - MIN_LOOKAHEAD }

  // How many strings a chain length allows: it is decremented before it is compared with 0.
  function Visits(chain: nat): nat { if chain == 0 then 0x1_0000_0000 else chain }

  // A good pending match is worth less work.
  function Budget(c: Config, prev: nat): nat { Visits(if prev >= c.good then c.chain / 4 else c.chain) }

  // ---- one search ------------------------------------------------------------------------------

  // A search at a position: ahead bytes are known from there on; the strings at floor and before are out of reach, and
  // those before first and in gaps are not in the table.  The strings seen, the best length, and the match used.
  datatype Look = Look(at: nat, ahead: nat, floor: nat, origin: nat, first: nat, seen: seq<nat>, best: nat, len: nat, m: int)

  // a was entered, before b, and has its hash.
  ghost predicate Twin(c: Config, data: seq<bv8>, gaps: set<nat>, first: nat, a: nat, b: nat) {
    && first <= a < b && a !in gaps && b + 2 < |data| && BitsOk(c.bits)
    && Key(c.bits, data, a) == Key(c.bits, data, b)
  }

  // The distance allowed for the string that follows b in the chain: the first may be one farther away.
  function Reach(c: Config, k: Look, b: nat): int { if b == k.at then MaxDist(c) else MaxDist(c) - 1 }

  // a is the latest twin of b, and within reach.
  ghost predicate Follows(c: Config, data: seq<bv8>, gaps: set<nat>, k: Look, a: nat, b: nat) {
    && Twin(c, data, gaps, k.first, a, b) && k.floor < a && k.at - a <= Reach(c, k, b)
    && forall x: nat {:trigger Twin(c, data, gaps, k.first, x, b)} :: a < x ==> !Twin(c, data, gaps, k.first, x, b)
  }

  // No twin of b is within reach.
  ghost predicate Ends(c: Config, data: seq<bv8>, gaps: set<nat>, k: Look, b: nat) {
    forall x: nat {:trigger Twin(c, data, gaps, k.first, x, b)} ::
      Twin(c, data, gaps, k.first, x, b) && k.floor < x ==> k.at - x > Reach(c, k, b)
  }

  function Before(k: Look, i: nat): nat
    requires i <= |k.seen|
  {
    if i == 0 then k.at else k.seen[i - 1]
  }

  // The strings seen are a chain of twins.
  ghost predicate Chain(c: Config, data: seq<bv8>, gaps: set<nat>, k: Look) {
    forall i {:trigger k.seen[i]} :: 0 <= i < |k.seen| ==> Follows(c, data, gaps, k, k.seen[i], Before(k, i))
  }

  // The length that ends a search.
  function Nice(c: Config, k: Look): nat { Min(c.nice, k.ahead) }

  // No string seen has a longer match than best.
  ghost predicate NoneLonger(data: seq<bv8>, k: Look) {
    k.best < Min(MAX_MATCH, k.ahead) ==> forall i {:trigger k.seen[i]} :: 0 <= i < |k.seen| ==> Differs(data, k.seen[i], k.at, k.best)
  }

  // The match is seen[i], and no string before has one as long.
  ghost predicate FirstBest(data: seq<bv8>, k: Look, i: nat) {
    && i < |k.seen| && k.m == k.seen[i] && k.best >= 1 && k.at + k.best <= |data| && Alike(data, k.seen[i], k.at, k.best)
    && forall h {:trigger k.seen[h]} :: 0 <= h < i ==> Differs(data, k.seen[h], k.at, k.best - 1)
  }

  // The best length is the longest match, if that is longer than the pending one.
  ghost predicate BestIs(data: seq<bv8>, prev: nat, k: Look) {
    && Min(prev, k.ahead) <= k.best <= Min(MAX_MATCH, k.ahead)
    && NoneLonger(data, k)
    && (k.best > prev ==> exists i: nat {:trigger FirstBest(data, k, i)} :: FirstBest(data, k, i))
  }

  // Up to the last string seen there was no reason to stop, and there is one now: a nice match, the budget, or the chain.
  ghost predicate Stopped(c: Config, data: seq<bv8>, gaps: set<nat>, prev: nat, k: Look)
    requires k.seen != []
  {
    && |k.seen| <= Budget(c, prev)
    && (prev < k.ahead && Max(prev, Nice(c, k) - 1) < MAX_MATCH ==> forall i {:trigger k.seen[i]} :: 0 <= i < |k.seen| - 1 ==>
          Differs(data, k.seen[i], k.at, Max(prev, Nice(c, k) - 1)))
    && (|| (k.best >= Nice(c, k) && (k.best > prev || prev >= k.ahead))
        || |k.seen| == Budget(c, prev)
        || Ends(c, data, gaps, k, k.seen[|k.seen| - 1]))
  }

  // A short match is given up if the data is filtered, or it is far away.
  predicate Discarded(c: Config, k: Look) { k.best <= 5 && (c.filtered || (k.best == MIN_MATCH && k.at - k.m > TOO_FAR)) }

  // There is no search if there are too few bytes, the pending match is good enough, or no string is within reach.
  ghost predicate NotLooked(c: Config, data: seq<bv8>, gaps: set<nat>, prev: nat, k: Look) {
    k.len == MIN_MATCH - 1 && (k.ahead < MIN_MATCH || prev >= c.lazy || Ends(c, data, gaps, k, k.at))
  }

  ghost predicate Chosen(c: Config, data: seq<bv8>, gaps: set<nat>, prev: nat, k: Look)
    requires k.seen != []
  {
    && k.ahead >= MIN_MATCH && prev < c.lazy
    && Chain(c, data, gaps, k) && BestIs(data, prev, k) && Stopped(c, data, gaps, prev, k)
    && (if k.best > prev then k.len == if Discarded(c, k) then MIN_MATCH - 1 else k.best
        else k.len == MIN_MATCH - 1 || k.len == k.best)
  }

  // The search at k.at when a match of length prev is pending.
  ghost predicate LookOk(c: Config, data: seq<bv8>, gaps: set<nat>, prev: nat, k: Look) {
    && 1 <= k.ahead && k.at + k.ahead <= |data| && prev >= MIN_MATCH - 1
    && k.floor <= k.at && (k.floor == k.origin || k.at - k.floor >= MaxDist(c)) && k.origin <= k.first
    && if k.seen == [] then NotLooked(c, data, gaps, prev, k) else Chosen(c, data, gaps, prev, k)
  }

  // ---- whole runs ------------------------------------------------------------------------------

  // A step, or the end of the input.
  datatype Event = Looked(look: Look) | Ended(at: nat)

  // Whether the byte before at is pending, and the match found for it.
  datatype Pending = Pending(at: nat, avail: bool, len: nat, m: int)

  // The match is emitted unless there is a longer one at the next position.
  predicate Emitted(p: Pending, k: Look) { p.len >= MIN_MATCH && k.len <= p.len }

  function Start(): Pending { Pending(0, false, MIN_MATCH - 1, 0) }

  function Next(p: Pending, e: Event): Pending {
    match e
    case Looked(k) =>
      if Emitted(p, k) then Pending(p.at + p.len - 1, false, MIN_MATCH - 1, 0)
      else Pending(p.at + 1, true, k.len, if k.len >= MIN_MATCH then k.m else 0)
    case Ended(_) => p.(avail := false)
  }

  // The byte before at.
  function PendingByte(data: seq<bv8>, p: Pending): seq<Token<bv8>> {
    if p.avail && 1 <= p.at <= |data| then [Literal(data[p.at - 1])] else []
  }

  function Emits(data: seq<bv8>, p: Pending, e: Event): seq<Token<bv8>> {
    if e.Looked? && Emitted(p, e.look) then [Match(if p.at - 1 - p.m >= 0 then p.at - 1 - p.m else 0, p.len)] else PendingByte(data, p)
  }

  function After(log: seq<Event>): Pending {
    if log == [] then Start() else Next(After(log[..|log| - 1]), log[|log| - 1])
  }

  function Tokens(data: seq<bv8>, log: seq<Event>): seq<Token<bv8>> {
    if log == [] then []
    else Tokens(data, log[..|log| - 1]) + Emits(data, After(log[..|log| - 1]), log[|log| - 1])
  }

  ghost predicate EventOk(c: Config, data: seq<bv8>, gaps: set<nat>, p: Pending, e: Event) {
    match e
    case Looked(k) => k.at == p.at && LookOk(c, data, gaps, p.len, k)
    case Ended(at) => at == p.at <= |data|
  }

  // Every step does what the data asks for.
  ghost predicate Explained(c: Config, data: seq<bv8>, gaps: set<nat>, log: seq<Event>) {
    log == [] || (Explained(c, data, gaps, log[..|log| - 1]) && EventOk(c, data, gaps, After(log[..|log| - 1]), log[|log| - 1]))
  }

  lemma RunOn(c: Config, data: seq<bv8>, gaps: set<nat>, log: seq<Event>, e: Event)
    requires Explained(c, data, gaps, log) && EventOk(c, data, gaps, After(log), e)
    ensures Explained(c, data, gaps, log + [e]) && After(log + [e]) == Next(After(log), e)
    ensures Tokens(data, log + [e]) == Tokens(data, log) + Emits(data, After(log), e)
  {
    hide EventOk, Next, Emits;
    assert (log + [e])[..|log|] == log;
  }

  // The three outcomes of a step.
  lemma MatchNext(data: seq<bv8>, p: Pending, k: Look)
    requires p.len >= MIN_MATCH && k.len <= p.len && p.at - 1 - p.m >= 0
    ensures Emits(data, p, Looked(k)) == [Match(p.at - 1 - p.m, p.len)]
    ensures Next(p, Looked(k)) == Pending(p.at + p.len - 1, false, MIN_MATCH - 1, 0)
  {
  }

  lemma LiteralNext(data: seq<bv8>, p: Pending, k: Look)
    requires !(p.len >= MIN_MATCH && k.len <= p.len) && p.avail && 1 <= p.at <= |data|
    ensures Emits(data, p, Looked(k)) == [Literal(data[p.at - 1])]
    ensures Next(p, Looked(k)) == Pending(p.at + 1, true, k.len, if k.len >= MIN_MATCH then k.m else 0)
  {
  }

  lemma NothingNext(data: seq<bv8>, p: Pending, k: Look)
    requires !(p.len >= MIN_MATCH && k.len <= p.len) && !p.avail
    ensures Emits(data, p, Looked(k)) == []
    ensures Next(p, Looked(k)) == Pending(p.at + 1, true, k.len, if k.len >= MIN_MATCH then k.m else 0)
  {
  }

  // ---- more data -------------------------------------------------------------------------------

  // The same strings are left out, but for the last two.
  ghost predicate SameGaps(data: seq<bv8>, gaps: set<nat>, gaps': set<nat>) {
    forall a: nat {:trigger a in gaps} {:trigger a in gaps'} :: a + 2 < |data| ==> (a in gaps <==> a in gaps')
  }

  // Only strings without three bytes have been left out since.
  ghost predicate LeftOut(data: seq<bv8>, gaps: set<nat>, gaps': set<nat>) {
    gaps <= gaps' && forall g: nat | g in gaps' :: g in gaps || g + 2 >= |data|
  }

  lemma LeftOutSame(data: seq<bv8>, gaps: set<nat>, gaps': set<nat>)
    requires LeftOut(data, gaps, gaps')
    ensures SameGaps(data, gaps, gaps')
  {
  }

  lemma LeftOutNone(data: seq<bv8>, gaps: set<nat>)
    ensures LeftOut(data, gaps, gaps)
  {
  }

  lemma LeftOutTwice(data: seq<bv8>, a: set<nat>, b: set<nat>, c: set<nat>)
    requires LeftOut(data, a, b) && LeftOut(data, b, c)
    ensures LeftOut(data, a, c)
  {
  }

  lemma TwinStays(c: Config, data: seq<bv8>, more: seq<bv8>, gaps: set<nat>, gaps': set<nat>, first: nat, b: nat)
    requires b + 2 < |data| && SameGaps(data, gaps, gaps')
    ensures forall a: nat {:trigger Twin(c, data + more, gaps', first, a, b)} ::
              Twin(c, data, gaps, first, a, b) <==> Twin(c, data + more, gaps', first, a, b)
  {
    hide Hash3;
    if BitsOk(c.bits) {
      forall a: nat | a < b ensures Key(c.bits, data, a) == Key(c.bits, data + more, a) {
      }
    }
  }

  lemma FollowsStays(c: Config, data: seq<bv8>, more: seq<bv8>, gaps: set<nat>, gaps': set<nat>, k: Look, a: nat, b: nat)
    requires b + 2 < |data| && SameGaps(data, gaps, gaps') && Follows(c, data, gaps, k, a, b)
    ensures Follows(c, data + more, gaps', k, a, b)
  {
    TwinStays(c, data, more, gaps, gaps', k.first, b);
    hide Twin, SameGaps, Reach;
  }

  lemma EndsStays(c: Config, data: seq<bv8>, more: seq<bv8>, gaps: set<nat>, gaps': set<nat>, k: Look, b: nat)
    requires b + 2 < |data| && SameGaps(data, gaps, gaps') && Ends(c, data, gaps, k, b)
    ensures Ends(c, data + more, gaps', k, b)
  {
    TwinStays(c, data, more, gaps, gaps', k.first, b);
    hide Twin, SameGaps, Reach;
  }

  lemma FollowsBelow(c: Config, data: seq<bv8>, gaps: set<nat>, k: Look, a: nat, b: nat)
    requires Follows(c, data, gaps, k, a, b)
    ensures a < b
  {
    hide Key;
  }

  // The strings seen have three bytes.
  lemma {:induction false} ChainBelow(c: Config, data: seq<bv8>, gaps: set<nat>, k: Look, i: nat)
    requires Chain(c, data, gaps, k) && i <= |k.seen| && k.at + 2 < |data|
    ensures Before(k, i) <= k.at && Before(k, i) + 2 < |data|
  {
    hide Follows;
    if i > 0 {
      ChainBelow(c, data, gaps, k, i - 1);
      FollowsBelow(c, data, gaps, k, k.seen[i - 1], Before(k, i - 1));
    }
  }

  lemma ChainStays(c: Config, data: seq<bv8>, more: seq<bv8>, gaps: set<nat>, gaps': set<nat>, k: Look)
    requires k.at + 2 < |data| && SameGaps(data, gaps, gaps') && Chain(c, data, gaps, k)
    ensures Chain(c, data + more, gaps', k)
  {
    hide Follows, SameGaps;
    forall i | 0 <= i < |k.seen| ensures Follows(c, data + more, gaps', k, k.seen[i], Before(k, i)) {
      ChainBelow(c, data, gaps, k, i);
      FollowsStays(c, data, more, gaps, gaps', k, k.seen[i], Before(k, i));
    }
  }

  lemma DiffersStays(data: seq<bv8>, more: seq<bv8>, a: nat, b: nat, n: nat)
    requires Differs(data, a, b, n)
    ensures Differs(data + more, a, b, n)
  {
    var j :| b <= j <= b + n && j < |data| && data[j] != data[j - (b - a)];
    assert (data + more)[j] != (data + more)[j - (b - a)];
  }

  lemma BestStays(data: seq<bv8>, more: seq<bv8>, prev: nat, k: Look)
    requires BestIs(data, prev, k)
    ensures BestIs(data + more, prev, k)
  {
    hide Differs;
    if k.best < Min(MAX_MATCH, k.ahead) {
      forall i | 0 <= i < |k.seen| ensures Differs(data + more, k.seen[i], k.at, k.best) {
        DiffersStays(data, more, k.seen[i], k.at, k.best);
      }
    }
    if k.best > prev {
      var i: nat :| FirstBest(data, k, i);
      forall h | 0 <= h < i ensures Differs(data + more, k.seen[h], k.at, k.best - 1) {
        DiffersStays(data, more, k.seen[h], k.at, k.best - 1);
      }
      assert FirstBest(data + more, k, i);
    }
  }

  lemma StoppedStays(c: Config, data: seq<bv8>, more: seq<bv8>, gaps: set<nat>, gaps': set<nat>, prev: nat, k: Look)
    requires k.seen != [] && k.at + 2 < |data| && SameGaps(data, gaps, gaps') && Chain(c, data, gaps, k)
    requires Stopped(c, data, gaps, prev, k)
    ensures Stopped(c, data + more, gaps', prev, k)
  {
    hide Differs, SameGaps, Ends, Chain, Nice, Budget;
    var n := Max(prev, Nice(c, k) - 1);
    if prev < k.ahead && n < MAX_MATCH {
      forall i | 0 <= i < |k.seen| - 1 ensures n >= 0 && Differs(data + more, k.seen[i], k.at, n) {
        DiffersStays(data, more, k.seen[i], k.at, n);
      }
    }
    if Ends(c, data, gaps, k, k.seen[|k.seen| - 1]) {
      ChainBelow(c, data, gaps, k, |k.seen|);
      EndsStays(c, data, more, gaps, gaps', k, k.seen[|k.seen| - 1]);
    }
  }

  lemma LookStays(c: Config, data: seq<bv8>, more: seq<bv8>, gaps: set<nat>, gaps': set<nat>, prev: nat, k: Look)
    requires LookOk(c, data, gaps, prev, k) && SameGaps(data, gaps, gaps')
    ensures LookOk(c, data + more, gaps', prev, k)
  {
    hide SameGaps, Chain, BestIs, Stopped, Ends, Discarded;
    if k.seen == [] {
      if k.ahead >= MIN_MATCH && prev < c.lazy {
        EndsStays(c, data, more, gaps, gaps', k, k.at);
      }
    } else {
      ChainStays(c, data, more, gaps, gaps', k);
      BestStays(data, more, prev, k);
      StoppedStays(c, data, more, gaps, gaps', prev, k);
    }
  }

  // What was explained stays so when more data comes, and the last strings are entered.
  lemma {:induction false} ExplainedStays(c: Config, data: seq<bv8>, more: seq<bv8>, gaps: set<nat>, gaps': set<nat>, log: seq<Event>)
    requires Explained(c, data, gaps, log) && SameGaps(data, gaps, gaps')
    ensures Explained(c, data + more, gaps', log) && Tokens(data + more, log) == Tokens(data, log)
  {
    hide SameGaps, LookOk, Next, Emitted;
    if log != [] {
      var e := log[|log| - 1];
      ExplainedStays(c, data, more, gaps, gaps', log[..|log| - 1]);
      if e.Looked? {
        LookStays(c, data, more, gaps, gaps', After(log[..|log| - 1]).len, e.look);
        LookInside(c, data, gaps, After(log[..|log| - 1]).len, e.look);
      }
    }
  }

  lemma LookInside(c: Config, data: seq<bv8>, gaps: set<nat>, prev: nat, k: Look)
    requires LookOk(c, data, gaps, prev, k)
    ensures k.at < |data|
  {
  }

  // ---- the hash table --------------------------------------------------------------------------

  // Following a link of the hash table.
  lemma FollowsLink(c: Config, data: seq<bv8>, gaps: set<nat>, k: Look, keys: map<nat, nat>, end: int, q: nat, b: nat)
    requires KeysOk(keys, c.bits, data, end) && Complete(keys, k.first, gaps, end) && LinkOk(q, b, keys, k.floor)
    requires q != 0 && k.at - (k.floor + q) <= Reach(c, k, b)
    ensures Follows(c, data, gaps, k, k.floor + q, b)
  {
    hide Reach;
    forall x: nat {:trigger Twin(c, data, gaps, k.first, x, b)} | Twin(c, data, gaps, k.first, x, b) ensures x <= k.floor + q {
      TwinEntered(c, data, gaps, k.first, keys, end, x, b);
    }
    hide Key;
  }

  lemma TwinEntered(c: Config, data: seq<bv8>, gaps: set<nat>, first: nat, keys: map<nat, nat>, end: int, x: nat, b: nat)
    requires KeysOk(keys, c.bits, data, end) && Complete(keys, first, gaps, end) && b in keys && Twin(c, data, gaps, first, x, b)
    ensures x in keys && keys[x] == keys[b]
  {
    hide Key;
  }

  // A link that ends the chain, or leads out of reach.
  lemma EndsLink(c: Config, data: seq<bv8>, gaps: set<nat>, k: Look, keys: map<nat, nat>, end: int, q: nat, b: nat)
    requires KeysOk(keys, c.bits, data, end) && Complete(keys, k.first, gaps, end) && LinkOk(q, b, keys, k.floor)
    requires q != 0 ==> k.at - (k.floor + q) > Reach(c, k, b)
    ensures Ends(c, data, gaps, k, b)
  {
    hide Reach;
    forall x: nat {:trigger Twin(c, data, gaps, k.first, x, b)} | Twin(c, data, gaps, k.first, x, b) ensures x <= k.floor + q {
      TwinEntered(c, data, gaps, k.first, keys, end, x, b);
    }
    hide Key;
  }

  // ---- no choice is left -----------------------------------------------------------------------

  // Two searches at the same place in the same circumstances.
  predicate SameCase(k: Look, l: Look) {
    k.at == l.at && k.ahead == l.ahead && k.floor == l.floor && k.origin == l.origin && k.first == l.first
  }

  lemma LatestUnique(c: Config, data: seq<bv8>, gaps: set<nat>, k: Look, l: Look, a: nat, x: nat, b: nat)
    requires SameCase(k, l) && Follows(c, data, gaps, k, a, b) && Follows(c, data, gaps, l, x, b)
    ensures a == x
  {
    hide Twin, Reach;
    assert Twin(c, data, gaps, k.first, a, b) && Twin(c, data, gaps, k.first, x, b);
  }

  lemma NotBoth(c: Config, data: seq<bv8>, gaps: set<nat>, k: Look, l: Look, x: nat, b: nat)
    requires SameCase(k, l) && Ends(c, data, gaps, k, b)
    ensures !Follows(c, data, gaps, l, x, b)
  {
    hide Twin;
  }

  lemma {:induction false} ChainUnique(c: Config, data: seq<bv8>, gaps: set<nat>, k: Look, l: Look, i: nat)
    requires SameCase(k, l) && Chain(c, data, gaps, k) && Chain(c, data, gaps, l)
    requires i <= |k.seen| && i <= |l.seen|
    ensures Before(k, i) == Before(l, i)
  {
    hide Follows;
    if i > 0 {
      ChainUnique(c, data, gaps, k, l, i - 1);
      LatestUnique(c, data, gaps, k, l, k.seen[i - 1], l.seen[i - 1], Before(k, i - 1));
    }
  }

  lemma NotAlike(data: seq<bv8>, a: nat, b: nat, len: nat, n: nat)
    requires Alike(data, a, b, len) && n < len
    ensures !Differs(data, a, b, n)
  {
  }

  // One search cannot stop where the other goes on.
  lemma NotShorter(c: Config, data: seq<bv8>, gaps: set<nat>, prev: nat, k: Look, l: Look)
    requires SameCase(k, l) && k.seen != [] && l.seen != [] && prev < k.ahead
    requires Chosen(c, data, gaps, prev, k) && Chosen(c, data, gaps, prev, l)
    ensures |k.seen| >= |l.seen|
  {
    hide Follows, Ends, Differs, Alike, NoneLonger, Discarded, Budget;
    if |k.seen| < |l.seen| {
      var n := |k.seen|;
      ChainUnique(c, data, gaps, k, l, n);
      assert Follows(c, data, gaps, l, l.seen[n], Before(l, n));
      if Ends(c, data, gaps, k, k.seen[n - 1]) {
        NotBoth(c, data, gaps, k, l, l.seen[n], k.seen[n - 1]);
        assert false;
      } else {
        var i: nat :| FirstBest(data, k, i);
        ChainUnique(c, data, gaps, k, l, i + 1);
        assert Differs(data, l.seen[i], l.at, Max(prev, Nice(c, l) - 1));
        NotAlike(data, k.seen[i], k.at, k.best, Max(prev, Nice(c, k) - 1));
        assert false;
      }
    }
  }

  lemma NotLessGood(data: seq<bv8>, prev: nat, k: Look, l: Look)
    requires SameCase(k, l) && k.seen == l.seen && prev < k.ahead && BestIs(data, prev, k) && BestIs(data, prev, l)
    ensures k.best >= l.best
  {
    hide Differs, Alike;
    if k.best < l.best {
      var i: nat :| FirstBest(data, l, i);
      assert Differs(data, k.seen[i], k.at, k.best);
      NotAlike(data, l.seen[i], l.at, l.best, k.best);
      assert false;
    }
  }

  lemma SameMatch(data: seq<bv8>, k: Look, l: Look, i: nat, h: nat)
    requires SameCase(k, l) && k.seen == l.seen && k.best == l.best && FirstBest(data, k, i) && FirstBest(data, l, h)
    ensures k.m == l.m
  {
    hide Differs, Alike;
    NotAlike(data, k.seen[i], k.at, k.best, k.best - 1);
    NotAlike(data, l.seen[h], l.at, l.best, l.best - 1);
  }

  lemma SameBest(c: Config, data: seq<bv8>, gaps: set<nat>, prev: nat, k: Look, l: Look)
    requires SameCase(k, l) && k.seen != [] && l.seen != []
    requires Chosen(c, data, gaps, prev, k) && Chosen(c, data, gaps, prev, l)
    ensures k.best == l.best && (k.best > prev ==> k.m == l.m)
  {
    hide Stopped, Differs, Alike, NoneLonger, Discarded, Follows, FirstBest;
    if prev < k.ahead {
      NotShorter(c, data, gaps, prev, k, l);
      NotShorter(c, data, gaps, prev, l, k);
      forall i | 0 <= i < |k.seen| ensures k.seen[i] == l.seen[i] {
        ChainUnique(c, data, gaps, k, l, i + 1);
      }
      NotLessGood(data, prev, k, l);
      NotLessGood(data, prev, l, k);
      if k.best > prev {
        var i: nat :| FirstBest(data, k, i);
        var h: nat :| FirstBest(data, l, h);
        SameMatch(data, k, l, i, h);
      }
    }
  }

  // The relation leaves no choice: what a step emits and leaves pending follows from the data.
  lemma ChoiceUnique(c: Config, data: seq<bv8>, gaps: set<nat>, p: Pending, k: Look, l: Look)
    requires SameCase(k, l) && EventOk(c, data, gaps, p, Looked(k)) && EventOk(c, data, gaps, p, Looked(l))
    ensures Next(p, Looked(k)) == Next(p, Looked(l)) && Emits(data, p, Looked(k)) == Emits(data, p, Looked(l))
  {
    hide Stopped, NoneLonger, Follows, FirstBest, Ends;
    if k.seen == [] && l.seen != [] {
      OneLooked(c, data, gaps, p.len, k, l);
    } else if k.seen != [] && l.seen == [] {
      OneLooked(c, data, gaps, p.len, l, k);
    } else if k.seen != [] {
      SameBest(c, data, gaps, p.len, k, l);
      hide Chain;
    }
  }

  lemma OneLooked(c: Config, data: seq<bv8>, gaps: set<nat>, prev: nat, k: Look, l: Look)
    requires SameCase(k, l) && k.seen == [] && l.seen != [] && NotLooked(c, data, gaps, prev, k)
    ensures !Chosen(c, data, gaps, prev, l)
  {
    hide Stopped, BestIs, Follows, Ends, Discarded;
    if Chosen(c, data, gaps, prev, l) {
      assert Follows(c, data, gaps, l, l.seen[0], Before(l, 0));
      NotBoth(c, data, gaps, k, l, l.seen[0], k.at);
      assert false;
    }
  }

  // A repetition is found: if the latest string with the hash of the one at k.at is within reach and repeats n bytes, more
  // than the pending match, then the best match is as long, and used unless it is given up.
  lemma RepetitionFound(c: Config, data: seq<bv8>, gaps: set<nat>, prev: nat, k: Look, q: nat, n: nat)
    requires LookOk(c, data, gaps, prev, k) && prev < c.lazy && prev < n <= Min(MAX_MATCH, k.ahead)
    requires Follows(c, data, gaps, k, q, k.at) && Alike(data, q, k.at, n)
    ensures k.best >= n && (Discarded(c, k) || k.len == k.best)
  {
    hide Follows, Ends, Alike, Differs, Stopped, Discarded, FirstBest;
    if k.seen == [] {
      NotBoth(c, data, gaps, k, k, q, k.at);
      assert false;
    } else {
      LatestUnique(c, data, gaps, k, k, k.seen[0], q, Before(k, 0));
      if k.best < n {
        NotAlike(data, q, k.at, n, k.best);
        assert false;
      }
    }
  }

  predicate SameEvent(e: Event, f: Event) {
    match (e, f)
    case (Looked(k), Looked(l)) => SameCase(k, l)
    case (Ended(a), Ended(b)) => true
    case _ => false
  }

  // Two runs over the same data in the same circumstances emit the same symbols.
  lemma {:induction false} Determined(c: Config, data: seq<bv8>, gaps: set<nat>, log: seq<Event>, other: seq<Event>)
    requires Explained(c, data, gaps, log) && Explained(c, data, gaps, other)
    requires |log| == |other| && forall i {:trigger log[i]} :: 0 <= i < |log| ==> SameEvent(log[i], other[i])
    ensures After(log) == After(other) && Tokens(data, log) == Tokens(data, other)
  {
    hide EventOk, SameCase, Next, Emits;
    if log != [] {
      var n := |log| - 1;
      Determined(c, data, gaps, log[..n], other[..n]);
      assert SameEvent(log[n], other[n]);
      match log[n]
      case Looked(k) => ChoiceUnique(c, data, gaps, After(log[..n]), k, other[n].look);
      case Ended(at) => EndsAlike(data, After(log[..n]), at, other[n].at);
    }
  }

  lemma EndsAlike(data: seq<bv8>, p: Pending, a: nat, b: nat)
    ensures Next(p, Ended(a)) == Next(p, Ended(b)) && Emits(data, p, Ended(a)) == Emits(data, p, Ended(b))
  {
  }
}
