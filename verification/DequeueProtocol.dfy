/**
 * The optimistic dequeue protocol of moodycamel's ConcurrentQueue sub-queues: one producer that
 * publishes elements by advancing tailIndex, and any number of consumers that race through
 * dequeueOptimisticCount and dequeueOvercommit to claim indices by advancing headIndex.
 *
 * Counters are kept at their true (unbounded) values; every comparison the code makes is made on
 * the 64-bit words, with the code's own circular_less_than.  `slots` and `claims` are auxiliary:
 * slots[p] records what became of the p-th unit ever reserved on dequeueOptimisticCount, and
 * claims[i] which consumer got index i.
 */
module DequeueProtocol {

  const WORD: int := 0x1_0000_0000_0000_0000
  const HALF: int := 0x8000_0000_0000_0000

  type Tid = nat

  // circular_less_than on 64-bit words
  predicate CircularLess(a: int, b: int) { (a - b) % WORD > HALF }

  datatype Slot = Undecided(tid: Tid) | Success | Failed

  datatype Call = Single | Bulk(max: nat)      // dequeue or dequeue_bulk

  datatype Pc =
    | Idle
    | LoadOvercommit(call: Call, tail: nat)
    | LoadOptimistic(call: Call, tail: nat, overcommit: nat)
    | Reserve(call: Call, want: nat, overcommit: nat)                   // fetch_add on dequeueOptimisticCount
    | ReloadTail(call: Call, mine: nat, want: nat, overcommit: nat)     // mine: the value before the fetch_add
    | ReturnExcess(take: nat, excess: nat)                  // fetch_add on dequeueOvercommit, then claim
    | Claim(take: nat)                                      // fetch_add on headIndex
    | GiveBack(excess: nat)                                 // fetch_add on dequeueOvercommit, then fail

  datatype State = State(
    tail: nat, head: nat, optimistic: nat, overcommit: nat,
    threads: seq<Pc>,
    slots: seq<Slot>,
    claims: seq<Tid>)

  datatype Action =
    | Publish(n: nat)                   // the producer stores a larger tailIndex
    | CallDequeue(t: Tid, call: Call)
    | Run(t: Tid)

  function Min(a: nat, b: nat): nat { if a < b then a else b }

  function Goto(s: State, t: Tid, p: Pc): State
    requires t < |s.threads|
  {
    s.(threads := s.threads[t := p])
  }

  function Repeat<T>(x: T, n: nat): seq<T> { seq(n, _ => x) }

  // How many elements the words say are available: tail - (count - overcommit), as a size_t.
  function Available(tail: nat, count: nat, overcommit: nat): nat { (tail - (count - overcommit)) % WORD }

  // The tests that there is something to dequeue: dequeue compares count - overcommit with tail, dequeue_bulk
  // compares 0 with the difference.
  predicate SomeLeft(call: Call, tail: nat, count: nat, overcommit: nat) {
    match call
    case Single => CircularLess((count - overcommit) % WORD, tail % WORD)
    case Bulk(_) => CircularLess(0, Available(tail, count, overcommit))
  }

  // A snapshot is never so old that the true difference leaves the signed range of a word.
  predicate Fresh(tail: nat, count: nat, overcommit: nat) { -HALF < tail - (count - overcommit) < HALF }

  predicate Enabled(s: State, a: Action) {
    match a
    case Publish(n) => true
    case CallDequeue(t, _) => t < |s.threads| && s.threads[t] == Idle
    case Run(t) =>
      t < |s.threads| && s.threads[t] != Idle &&
      (match s.threads[t]
       case LoadOptimistic(_, tail, oc) => Fresh(tail, s.optimistic, oc)
       case ReloadTail(_, mine, _, oc) => Fresh(s.tail, mine, oc)
       case _ => true)
  }

  function Apply(s: State, a: Action): State
    requires Enabled(s, a)
  {
    match a
    case Publish(n) => s.(tail := s.tail + n)
    case CallDequeue(t, call) => Goto(s, t, LoadOvercommit(call, s.tail))
    case Run(t) => Step(s, t)
  }

  function Step(s: State, t: Tid): State
    requires t < |s.threads|
  {
    match s.threads[t]
    case Idle => s
    case LoadOvercommit(call, tail) => Goto(s, t, LoadOptimistic(call, tail, s.overcommit))
    case LoadOptimistic(call, tail, oc) =>
      if !SomeLeft(call, tail, s.optimistic, oc) then Goto(s, t, Idle)
      else Goto(s, t, Reserve(call, if call.Single? then 1 else Min(Available(tail, s.optimistic, oc), call.max), oc))
    case Reserve(call, want, oc) =>
      Goto(s, t, ReloadTail(call, s.optimistic, want, oc))
        .(optimistic := s.optimistic + want, slots := s.slots + Repeat(Undecided(t), want))
    case ReloadTail(call, mine, want, oc) =>
      if SomeLeft(call, s.tail, mine, oc) then
        var take := if call.Single? then want else Min(want, Available(s.tail, mine, oc));
        Goto(s, t, if take < want then ReturnExcess(take, want - take) else Claim(take))
          .(slots := Decide(s.slots, mine, take, want - take))
      else
        Goto(s, t, GiveBack(want)).(slots := Decide(s.slots, mine, 0, want))
    case ReturnExcess(take, excess) => Goto(s, t, Claim(take)).(overcommit := s.overcommit + excess)
    case Claim(take) =>
      Goto(s, t, Idle).(head := s.head + take, claims := s.claims + Repeat(t, take))
    case GiveBack(excess) => Goto(s, t, Idle).(overcommit := s.overcommit + excess)
  }

  // Record the outcome of the take + excess units reserved from position mine on.
  function Decide(slots: seq<Slot>, mine: nat, take: nat, excess: nat): seq<Slot> {
    if mine + take + excess > |slots| then slots
    else slots[..mine] + Repeat(Success, take) + Repeat(Failed, excess) + slots[mine + take + excess..]
  }

  // ---- circular comparison ---------------------------------------------------------------------

  // On true values less than half the range apart, the word comparison is the true comparison.
  lemma CircularLessIsLess(a: int, b: int)
    requires -HALF < a - b < HALF
    ensures CircularLess(a % WORD, b % WORD) <==> a < b
  {
    assert (a % WORD - b % WORD) % WORD == (a - b) % WORD by { ModDiff(a, b); }
    if a < b {
      assert (a - b + WORD) % WORD == a - b + WORD;
      assert (a - b) % WORD == a - b + WORD;
    } else {
      assert (a - b) % WORD == a - b;
    }
  }

  lemma ModDiff(a: int, b: int)
    ensures (a % WORD - b % WORD) % WORD == (a - b) % WORD
  {
    var k := a / WORD - b / WORD;
    assert a - b == (a % WORD - b % WORD) + WORD * k;
    ModAdd(a % WORD - b % WORD, k);
  }

  lemma ModAdd(x: int, k: int)
    ensures (x + WORD * k) % WORD == x % WORD
  {
  }

  // The two tests agree.
  lemma SingleTestIsBulkTest(tail: nat, count: nat, oc: nat)
    ensures CircularLess((count - oc) % WORD, tail % WORD) <==> CircularLess(0, Available(tail, count, oc))
  {
    ModDiff(count - oc, tail);
    ModDiff(0, tail - (count - oc));
  }

  lemma SomeLeftIsTrue(call: Call, tail: nat, count: nat, oc: nat)
    requires Fresh(tail, count, oc)
    ensures SomeLeft(call, tail, count, oc) <==> count - oc < tail
    ensures count - oc < tail ==> Available(tail, count, oc) == tail - (count - oc)
  {
    var d := tail - (count - oc);
    ModDiff(0, d);
    CircularLessIsLess(0, d);
    SingleTestIsBulkTest(tail, count, oc);
  }

  // ---- counting --------------------------------------------------------------------------------

  function Count(x: Slot, slots: seq<Slot>): nat {
    if slots == [] then 0 else Count(x, slots[..|slots| - 1]) + (if slots[|slots| - 1] == x then 1 else 0)
  }

  lemma {:induction false} CountConcat(x: Slot, a: seq<Slot>, b: seq<Slot>)
    ensures Count(x, a + b) == Count(x, a) + Count(x, b)
  {
    if b == [] {
      assert a + b == a;
    } else {
      assert (a + b)[..|a + b| - 1] == a + b[..|b| - 1];
      CountConcat(x, a, b[..|b| - 1]);
    }
  }

  lemma {:induction false} CountRepeat(x: Slot, y: Slot, n: nat)
    ensures Count(x, Repeat(y, n)) == if x == y then n else 0
  {
    if n > 0 {
      assert Repeat(y, n)[..n - 1] == Repeat(y, n - 1);
      CountRepeat(x, y, n - 1);
    }
  }

  lemma {:induction false} CountBound(x: Slot, y: Slot, slots: seq<Slot>)
    requires x != y
    ensures Count(x, slots) + Count(y, slots) <= |slots|
  {
    if slots != [] {
      CountBound(x, y, slots[..|slots| - 1]);
    }
  }

  function Total(f: Pc -> nat, threads: seq<Pc>): nat {
    if threads == [] then 0 else f(threads[0]) + Total(f, threads[1..])
  }

  lemma {:induction false} TotalUpdate(f: Pc -> nat, threads: seq<Pc>, t: nat, p: Pc)
    requires t < |threads|
    ensures Total(f, threads[t := p]) == Total(f, threads) - f(threads[t]) + f(p)
  {
    if t == 0 {
      assert threads[t := p][1..] == threads[1..];
    } else {
      assert threads[t := p][1..] == threads[1..][t - 1 := p];
      TotalUpdate(f, threads[1..], t - 1, p);
    }
  }

  lemma {:induction false} TotalZero(f: Pc -> nat, threads: seq<Pc>)
    requires forall p :: p in threads ==> f(p) == 0
    ensures Total(f, threads) == 0
  {
    if threads != [] {
      TotalZero(f, threads[1..]);
    }
  }

  // Units won but not yet added to headIndex; units lost but not yet added to dequeueOvercommit.
  function ToClaim(p: Pc): nat { if p.ReturnExcess? || p.Claim? then p.take else 0 }

  function ToReturn(p: Pc): nat { if p.ReturnExcess? || p.GiveBack? then p.excess else 0 }

  // ---- the invariant ---------------------------------------------------------------------------

  // The rank argument: even if every earlier unit that has not failed yet were to succeed, the unit
  // at position p would still get an index below tail.
  predicate Justified(s: State, p: nat)
    requires p < |s.slots|
  {
    && (s.slots[p] == Success ==> p + 1 - Count(Failed, s.slots[..p]) <= s.tail)
    && (s.slots[p].Undecided? ==> Reserves(s, s.slots[p].tid, p))
  }

  predicate Reserves(s: State, t: Tid, p: nat) {
    && t < |s.threads| && s.threads[t].ReloadTail?
    && s.threads[t].mine <= p < s.threads[t].mine + s.threads[t].want
  }

  predicate PcOk(s: State, t: Tid)
    requires t < |s.threads|
  {
    match s.threads[t]
    case LoadOptimistic(_, _, oc) => oc <= s.overcommit
    case Reserve(call, want, oc) => oc <= s.overcommit && (call.Single? ==> want == 1)
    case ReloadTail(call, mine, want, oc) =>
      && (call.Single? ==> want == 1) && mine + want <= |s.slots|
      && oc <= Count(Failed, s.slots[..mine])
      && s.slots[mine..mine + want] == Repeat(Undecided(t), want)
    case _ => true
  }

  predicate Inv(s: State) {
    && |s.slots| == s.optimistic
    && |s.claims| == s.head
    && s.overcommit + Total(ToReturn, s.threads) == Count(Failed, s.slots)
    && s.head + Total(ToClaim, s.threads) == Count(Success, s.slots)
    && (forall p {:trigger Justified(s, p)} :: 0 <= p < |s.slots| ==> Justified(s, p))
    && (forall t {:trigger PcOk(s, t)} :: 0 <= t < |s.threads| ==> PcOk(s, t))
  }

  // ---- deciding reserved units -----------------------------------------------------------------

  lemma {:induction false} CountMono(x: Slot, a: seq<Slot>, b: seq<Slot>)
    requires |a| == |b| && forall i :: 0 <= i < |a| && a[i] == x ==> b[i] == x
    ensures Count(x, a) <= Count(x, b)
  {
    if a != [] {
      CountMono(x, a[..|a| - 1], b[..|b| - 1]);
    }
  }

  // Deciding units only turns undecided slots, those of the range, into decided ones.
  lemma DecideSlots(slots: seq<Slot>, t: Tid, mine: nat, take: nat, excess: nat)
    requires mine + take + excess <= |slots|
    requires slots[mine..mine + take + excess] == Repeat(Undecided(t), take + excess)
    ensures var d := Decide(slots, mine, take, excess);
            && |d| == |slots|
            && (forall i :: 0 <= i < |slots| ==> d[i] == if mine <= i < mine + take then Success
                                                 else if mine + take <= i < mine + take + excess then Failed
                                                 else slots[i])
            && (forall i :: mine <= i < mine + take + excess ==> slots[i] == Undecided(t))
  {
    forall i | mine <= i < mine + take + excess ensures slots[i] == Undecided(t) {
      assert slots[i] == slots[mine..mine + take + excess][i - mine];
    }
  }

  lemma DecideCount(x: Slot, slots: seq<Slot>, t: Tid, mine: nat, take: nat, excess: nat)
    requires x == Success || x == Failed
    requires mine + take + excess <= |slots|
    requires slots[mine..mine + take + excess] == Repeat(Undecided(t), take + excess)
    ensures Count(x, Decide(slots, mine, take, excess))
            == Count(x, slots) + if x == Success then take else excess
  {
    var a, c := slots[..mine], slots[mine + take + excess..];
    assert slots == a + Repeat(Undecided(t), take + excess) + c;
    CountConcat(x, a + Repeat(Undecided(t), take + excess), c);
    CountConcat(x, a, Repeat(Undecided(t), take + excess));
    CountRepeat(x, Undecided(t), take + excess);
    CountConcat(x, a + Repeat(Success, take) + Repeat(Failed, excess), c);
    CountConcat(x, a + Repeat(Success, take), Repeat(Failed, excess));
    CountConcat(x, a, Repeat(Success, take));
    CountRepeat(x, Success, take);
    CountRepeat(x, Failed, excess);
  }

  lemma DecidePrefix(slots: seq<Slot>, t: Tid, mine: nat, take: nat, excess: nat, q: nat)
    requires mine + take + excess <= |slots| && q <= |slots|
    requires slots[mine..mine + take + excess] == Repeat(Undecided(t), take + excess)
    ensures var d := Decide(slots, mine, take, excess);
            |d| == |slots| && Count(Failed, slots[..q]) <= Count(Failed, d[..q])
  {
    DecideSlots(slots, t, mine, take, excess);
    CountMono(Failed, slots[..q], Decide(slots, mine, take, excess)[..q]);
  }

  lemma {:induction false} PrefixMono(x: Slot, slots: seq<Slot>, p: nat, q: nat)
    requires p <= q <= |slots|
    ensures Count(x, slots[..p]) <= Count(x, slots[..q])
  {
    assert slots[..q] == slots[..p] + slots[p..q];
    CountConcat(x, slots[..p], slots[p..q]);
  }

  // ---- every action keeps the invariant --------------------------------------------------------

  // A step of t that leaves the slots alone.
  lemma SimpleStepKeeps(s: State, s': State, t: Tid)
    requires Inv(s) && t < |s.threads| == |s'.threads| && s'.threads == s.threads[t := s'.threads[t]]
    requires s'.slots == s.slots && s'.optimistic == s.optimistic && s'.tail == s.tail
    requires s'.overcommit - s.overcommit == ToReturn(s.threads[t]) - ToReturn(s'.threads[t])
    requires s'.head - s.head == |s'.claims| - |s.claims| == ToClaim(s.threads[t]) - ToClaim(s'.threads[t])
    requires s'.overcommit >= s.overcommit && PcOk(s', t) && !s.threads[t].ReloadTail?
    ensures Inv(s')
  {
    TotalUpdate(ToReturn, s.threads, t, s'.threads[t]);
    TotalUpdate(ToClaim, s.threads, t, s'.threads[t]);
    forall p | 0 <= p < |s'.slots| ensures Justified(s', p) {
      assert Justified(s, p);
    }
    forall u | 0 <= u < |s'.threads| ensures PcOk(s', u) {
      if u != t { assert PcOk(s, u); }
    }
  }

  lemma ReserveKeeps(s: State, t: Tid)
    requires Inv(s) && t < |s.threads| && s.threads[t].Reserve?
    ensures Inv(Step(s, t))
  {
    var s', want, oc := Step(s, t), s.threads[t].want, s.threads[t].overcommit;
    var more := Repeat(Undecided(t), want);
    assert PcOk(s, t);
    assert s'.slots == s.slots + more;
    TotalUpdate(ToReturn, s.threads, t, s'.threads[t]);
    TotalUpdate(ToClaim, s.threads, t, s'.threads[t]);
    CountConcat(Failed, s.slots, more);
    CountRepeat(Failed, Undecided(t), want);
    CountConcat(Success, s.slots, more);
    CountRepeat(Success, Undecided(t), want);
    forall p | 0 <= p < |s'.slots| ensures Justified(s', p) {
      if p < |s.slots| {
        assert Justified(s, p);
        assert s'.slots[..p] == s.slots[..p];
      }
    }
    forall u | 0 <= u < |s'.threads| ensures PcOk(s', u) {
      assert PcOk(s, u);
      ReservePc(s, t, u);
    }
  }

  lemma ReservePc(s: State, t: Tid, u: Tid)
    requires t < |s.threads| && s.threads[t].Reserve? && u < |s.threads|
    requires |s.slots| == s.optimistic && s.overcommit <= Count(Failed, s.slots)
    requires PcOk(s, t) && PcOk(s, u)
    ensures PcOk(Step(s, t), u)
  {
    var s', want := Step(s, t), s.threads[t].want;
    if u == t {
      assert s'.slots[..|s.slots|] == s.slots;
      assert s'.slots[|s.slots|..|s.slots| + want] == Repeat(Undecided(t), want);
    } else if s.threads[u].ReloadTail? {
      var m, w := s.threads[u].mine, s.threads[u].want;
      assert s'.slots[..m] == s.slots[..m];
      assert s'.slots[m..m + w] == s.slots[m..m + w];
    }
  }

  // Deciding `take` successes out of the units reserved by t, when the words said so.
  lemma DecideKeeps(s: State, s': State, t: Tid, take: nat, excess: nat)
    requires Inv(s) && t < |s.threads| && s.threads[t].ReloadTail?
    requires take + excess == s.threads[t].want
    requires s'.slots == Decide(s.slots, s.threads[t].mine, take, excess)
    requires take == 0 || s.threads[t].mine + take - s.threads[t].overcommit <= s.tail
    requires |s'.threads| == |s.threads| && s'.threads == s.threads[t := s'.threads[t]]
    requires ToClaim(s'.threads[t]) == take && ToReturn(s'.threads[t]) == excess
    requires s'.threads[t].Claim? || s'.threads[t].ReturnExcess? || s'.threads[t].GiveBack?
    requires s' == s.(slots := s'.slots, threads := s'.threads)
    ensures Inv(s')
  {
    var mine := s.threads[t].mine;
    assert PcOk(s, t);
    TotalUpdate(ToReturn, s.threads, t, s'.threads[t]);
    TotalUpdate(ToClaim, s.threads, t, s'.threads[t]);
    DecideCount(Failed, s.slots, t, mine, take, excess);
    DecideCount(Success, s.slots, t, mine, take, excess);
    DecideSlots(s.slots, t, mine, take, excess);
    forall p | 0 <= p < |s'.slots| ensures Justified(s', p) {
      assert Justified(s, p);
      DecidePrefix(s.slots, t, mine, take, excess, p);
      if mine <= p < mine + take {
        PrefixMono(Failed, s.slots, mine, p);
      }
    }
    forall u | 0 <= u < |s'.threads| ensures PcOk(s', u) {
      assert PcOk(s, u);
      if u != t && s.threads[u].ReloadTail? {
        OtherReservation(s, s', t, take, excess, u);
      }
    }
  }

  lemma OthersStay(slots: seq<Slot>, slots': seq<Slot>, t: Tid, u: Tid, m: nat, w: nat)
    requires m + w <= |slots| == |slots'| && t != u && slots[m..m + w] == Repeat(Undecided(u), w)
    requires forall i :: 0 <= i < |slots| ==> slots'[i] == slots[i] || slots[i] == Undecided(t)
    ensures slots'[m..m + w] == Repeat(Undecided(u), w)
  {
    forall i | m <= i < m + w ensures slots'[i] == Undecided(u) {
      assert slots[i] == slots[m..m + w][i - m];
    }
  }

  // The units other threads have reserved and not decided are untouched: slots name their owner.
  lemma OtherReservation(s: State, s': State, t: Tid, take: nat, excess: nat, u: Tid)
    requires t < |s.threads| && s.threads[t].ReloadTail? && take + excess == s.threads[t].want
    requires u < |s.threads| && u != t && s.threads[u].ReloadTail? && PcOk(s, t) && PcOk(s, u)
    requires s'.slots == Decide(s.slots, s.threads[t].mine, take, excess)
    requires |s'.threads| == |s.threads| && s'.threads == s.threads[t := s'.threads[t]]
    ensures PcOk(s', u)
  {
    var m, w := s.threads[u].mine, s.threads[u].want;
    var mine := s.threads[t].mine;
    DecideSlots(s.slots, t, mine, take, excess);
    DecidePrefix(s.slots, t, mine, take, excess, m);
    hide Decide, Count;
    OthersStay(s.slots, s'.slots, t, u, m, w);
  }

  lemma ReloadTailKeeps(s: State, t: Tid)
    requires Inv(s) && Enabled(s, Run(t)) && s.threads[t].ReloadTail?
    ensures Inv(Step(s, t))
  {
    var s', p := Step(s, t), s.threads[t];
    assert PcOk(s, t);
    SomeLeftIsTrue(p.call, s.tail, p.mine, p.overcommit);
    if SomeLeft(p.call, s.tail, p.mine, p.overcommit) {
      var take := if p.call.Single? then p.want else Min(p.want, Available(s.tail, p.mine, p.overcommit));
      DecideKeeps(s, s', t, take, p.want - take);
    } else {
      DecideKeeps(s, s', t, 0, p.want);
    }
  }

  lemma ApplyKeeps(s: State, a: Action)
    requires Inv(s) && Enabled(s, a)
    ensures Inv(Apply(s, a))
  {
    var s' := Apply(s, a);
    match a
    case Publish(n) =>
      forall p | 0 <= p < |s'.slots| ensures Justified(s', p) {
        assert Justified(s, p);
      }
      forall u | 0 <= u < |s'.threads| ensures PcOk(s', u) {
        assert PcOk(s, u);
      }
    case CallDequeue(t, call) => SimpleStepKeeps(s, s', t);
    case Run(t) =>
      assert PcOk(s, t);
      if s.threads[t].Reserve? {
        ReserveKeeps(s, t);
      } else if s.threads[t].ReloadTail? {
        ReloadTailKeeps(s, t);
      } else {
        SimpleStepKeeps(s, s', t);
      }
  }

  ghost predicate Init(s: State) {
    && s.tail == s.head == s.optimistic == s.overcommit == 0
    && s.slots == [] && s.claims == [] && forall p :: p in s.threads ==> p == Idle
  }

  ghost predicate Next(s: State, s': State) { exists a :: Enabled(s, a) && s' == Apply(s, a) }

  ghost predicate IsRun(run: seq<State>) {
    run != [] && Init(run[0]) && forall i :: 0 <= i < |run| - 1 ==> Next(run[i], run[i + 1])
  }

  lemma {:induction false} RunKeepsInv(run: seq<State>, i: nat)
    requires IsRun(run) && i < |run|
    ensures Inv(run[i])
  {
    if i == 0 {
      TotalZero(ToReturn, run[0].threads);
      TotalZero(ToClaim, run[0].threads);
      forall t | 0 <= t < |run[0].threads| ensures PcOk(run[0], t) {
        assert run[0].threads[t] in run[0].threads;
      }
    } else {
      RunKeepsInv(run, i - 1);
      assert Next(run[i - 1], run[i - 1 + 1]);
      var a :| Enabled(run[i - 1], a) && run[i] == Apply(run[i - 1], a);
      ApplyKeeps(run[i - 1], a);
    }
  }

  // ---- what every run guarantees ---------------------------------------------------------------

  // The successes, claimed or not, never outnumber the published elements.
  lemma {:induction false} SuccessesWithinTail(s: State, q: nat)
    requires Inv(s) && q <= |s.slots|
    ensures Count(Success, s.slots[..q]) <= s.tail
  {
    if q > 0 {
      assert s.slots[..q][..q - 1] == s.slots[..q - 1];
      if s.slots[q - 1] == Success {
        assert Justified(s, q - 1);
        CountBound(Success, Failed, s.slots[..q - 1]);
      } else {
        SuccessesWithinTail(s, q - 1);
      }
    }
  }

  // headIndex never passes tailIndex, even counting the units already won and not claimed yet.
  lemma HeadNeverPassesTail(run: seq<State>, i: nat)
    requires IsRun(run) && i < |run|
    ensures run[i].head + Total(ToClaim, run[i].threads) <= run[i].tail
  {
    RunKeepsInv(run, i);
    assert run[i].slots[..|run[i].slots|] == run[i].slots;
    SuccessesWithinTail(run[i], |run[i].slots|);
  }

  // The indices a consumer is about to claim exist: they are published, and nobody else's.
  lemma ClaimIsPublished(run: seq<State>, i: nat, t: Tid)
    requires IsRun(run) && i < |run| && t < |run[i].threads| && run[i].threads[t].Claim?
    ensures run[i].head + run[i].threads[t].take <= run[i].tail
    ensures var s' := Step(run[i], t);
            && run[i].claims <= s'.claims
            && |s'.claims| == s'.head == run[i].head + run[i].threads[t].take
            && forall k :: run[i].head <= k < s'.head ==> s'.claims[k] == t
  {
    HeadNeverPassesTail(run, i);
    RunKeepsInv(run, i);
    TotalAtLeast(ToClaim, run[i].threads, t);
  }

  lemma {:induction false} TotalAtLeast(f: Pc -> nat, threads: seq<Pc>, t: nat)
    requires t < |threads|
    ensures Total(f, threads) >= f(threads[t])
  {
    if t > 0 {
      TotalAtLeast(f, threads[1..], t - 1);
    }
  }

  // Each index below headIndex is claimed by exactly one consumer, once and for all.
  lemma {:induction false} ClaimsAreFinal(run: seq<State>, i: nat, j: nat)
    requires IsRun(run) && i <= j < |run|
    ensures |run[i].claims| == run[i].head && run[i].claims <= run[j].claims
  {
    RunKeepsInv(run, i);
    if i < j {
      ClaimsAreFinal(run, i, j - 1);
      assert Next(run[j - 1], run[j - 1 + 1]);
      var a :| Enabled(run[j - 1], a) && run[j] == Apply(run[j - 1], a);
      StepAppendsClaims(run[j - 1], a);
    }
  }

  lemma StepAppendsClaims(s: State, a: Action)
    requires Enabled(s, a)
    ensures s.claims <= Apply(s, a).claims
  {
  }

  predicate AllIdle(s: State) { forall t :: 0 <= t < |s.threads| ==> s.threads[t] == Idle }

  // Eventually consistent: with no dequeue in progress the effective count is the head again.
  lemma QuiescentCount(s: State)
    requires Inv(s) && AllIdle(s)
    ensures s.optimistic - s.overcommit == s.head
  {
    TotalZero(ToReturn, s.threads);
    TotalZero(ToClaim, s.threads);
    forall p | 0 <= p < |s.slots| ensures !s.slots[p].Undecided? {
      assert Justified(s, p);
    }
    AllDecided(s.slots);
  }

  function StepN(s: State, t: Tid, n: nat): State
    requires t < |s.threads|
    ensures |StepN(s, t, n).threads| == |s.threads|
  {
    if n == 0 then s else Step(StepN(s, t, n - 1), t)
  }

  function AtMost(call: Call): nat { if call.Single? then 1 else call.max }

  lemma QuietFacts(s: State)
    requires Inv(s) && AllIdle(s)
    ensures s.optimistic - s.overcommit == s.head <= s.tail && |s.slots| == s.optimistic
  {
    QuiescentCount(s);
    assert s.slots[..|s.slots|] == s.slots;
    SuccessesWithinTail(s, |s.slots|);
    TotalZero(ToClaim, s.threads);
  }

  lemma OneMore(s: State, t: Tid, n: nat)
    requires t < |s.threads|
    ensures StepN(s, t, 0) == s && StepN(s, t, n + 1) == Step(StepN(s, t, n), t)
  {
  }

  // ... so that a dequeue running alone takes exactly what is there, up to its maximum.
  lemma SoloDequeue(s: State, t: Tid, call: Call)
    requires Inv(s) && AllIdle(s) && t < |s.threads|
    requires s.tail - s.head < HALF
    ensures var s' := StepN(Apply(s, CallDequeue(t, call)), t, 5);
            && s'.threads[t] == Idle
            && s.head <= s.tail
            && s'.head == s.head + Min(AtMost(call), s.tail - s.head)
            && s'.claims == s.claims + Repeat(t, Min(AtMost(call), s.tail - s.head))
  {
    QuietFacts(s);
    SomeLeftIsTrue(call, s.tail, s.optimistic, s.overcommit);
    var s0 := Apply(s, CallDequeue(t, call));
    hide Inv, SomeLeft, Available, Decide, StepN;
    OneMore(s0, t, 0);
    OneMore(s0, t, 1);
    OneMore(s0, t, 2);
    OneMore(s0, t, 3);
    OneMore(s0, t, 4);
    var s2 := StepN(s0, t, 2);
    var take := Min(AtMost(call), s.tail - s.head);
    if s.head == s.tail {
      assert s2.threads[t] == Idle && Repeat(t, 0) == [];
    } else {
      assert s2.threads[t] == Reserve(call, take, s.overcommit);
      assert StepN(s0, t, 4).threads[t] == Claim(take);
    }
  }

  lemma {:induction false} AllDecided(slots: seq<Slot>)
    requires forall k :: 0 <= k < |slots| ==> !slots[k].Undecided?
    ensures Count(Success, slots) + Count(Failed, slots) == |slots|
  {
    if slots != [] {
      AllDecided(slots[..|slots| - 1]);
    }
  }
}
