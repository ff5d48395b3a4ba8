/**
 * moodycamel::BlockingReaderWriterCircularBuffer over two spsc_sema::LightweightSemaphores, as a
 * step machine with one producer and one consumer.  Every atomic operation on a semaphore's
 * m_count and every kernel call is one step; nextSlot, nextItem and the slot they index belong to
 * one side only and are accessed in the step that uses them.  A kernel wait may give up at any
 * moment: a timeout of zero, a timeout that expires, and a failing wait all take that branch.
 *
 * `enqueued` and `dequeued` are auxiliary histories: no step branches on them.
 */
module CircularBuffer {
  import opened Wrappers
  import Bits

  const SPINS: nat := 1024

  // size_t arithmetic is modulo 2^64.
  function Word(): nat { Bits.Pow2(64) }

  datatype Sema = Sema(count: int, kernel: nat)

  // Where a thread is inside LightweightSemaphore::wait or tryWait.
  datatype Wait =
    | WTry                 // tryWait: load m_count
    | WTake                // m_count was seen positive: fetch_add(-1)
    | WSpin(left: nat)     // waitWithPartialSpinning: load m_count
    | WSub                 // fetch_add(-1)
    | WKernel              // m_sema.wait or timed_wait
    | WRestore             // gave up: fetch_add(1)
    | WRetake              // signalled after all: fetch_add(-1)
    | WKernelTry           // m_sema.try_wait

  datatype Mode = Try | Timed | Block

  datatype Outcome = Going(w: Wait) | Acquired | GaveUp

  function WaitStep(s: Sema, w: Wait, mode: Mode, luck: bool): (Sema, Outcome)
    requires w.WKernel? && luck ==> s.kernel > 0
  {
    match w
    case WTry => (s, if s.count > 0 then Going(WTake) else if mode == Try then GaveUp else Going(WSpin(SPINS)))
    case WTake => (s.(count := s.count - 1), Acquired)
    case WSpin(left) =>
      (s, if left == 0 then Going(WSub) else if s.count > 0 then Going(WTake) else Going(WSpin(left - 1)))
    case WSub => (s.(count := s.count - 1), if s.count > 0 then Acquired else Going(WKernel))
    case WKernel => if luck then (s.(kernel := s.kernel - 1), Acquired) else (s, Going(WRestore))
    case WRestore => (s.(count := s.count + 1), if s.count < 0 then GaveUp else Going(WRetake))
    case WRetake => (s.(count := s.count - 1), if s.count > 0 then Going(WKernelTry) else Going(WRestore))
    case WKernelTry => if s.kernel > 0 then (s.(kernel := s.kernel - 1), Acquired) else (s, Going(WRestore))
  }

  datatype Prod<T> =
    | PIdle
    | PWait(w: Wait, mode: Mode, x: T)
    | PWrite(x: T)         // i = nextSlot++; construct at i & mask
    | PSignal              // items->signal(): fetch_add(1)
    | PPost                // items->signal(): m_sema.signal

  datatype Cons<T> =
    | CIdle
    | CWait(w: Wait, mode: Mode)
    | CTake                // i = nextItem++; move out of i & mask, destroy
    | CSignal
    | CPost

  datatype State<T> = State(
    maxcap: nat, mask: nat, data: seq<Option<T>>,
    nextSlot: nat, nextItem: nat,
    slots: Sema, items: Sema,
    prod: Prod<T>, cons: Cons<T>,
    enqueued: seq<T>, dequeued: seq<T>)

  datatype Action<T> =
    | CallEnqueue(x: T, mode: Mode)
    | CallDequeue(mode: Mode)
    | RunProd(luck: bool)
    | RunCons(luck: bool)

  predicate Enabled<T>(s: State<T>, a: Action<T>) {
    match a
    case CallEnqueue(_, _) => s.prod.PIdle?
    case CallDequeue(_) => s.cons.CIdle?
    case RunProd(luck) => !s.prod.PIdle? && (s.prod.PWait? && s.prod.w.WKernel? && luck ==> s.slots.kernel > 0)
    case RunCons(luck) => !s.cons.CIdle? && (s.cons.CWait? && s.cons.w.WKernel? && luck ==> s.items.kernel > 0)
  }

  // The slot of the i-th index: i & mask.
  function Slot<T>(s: State<T>, i: nat): nat { Bits.And(i, s.mask) }

  function ProdStep<T>(s: State<T>, luck: bool): State<T>
    requires s.prod.PWait? && s.prod.w.WKernel? && luck ==> s.slots.kernel > 0
  {
    match s.prod
    case PIdle => s
    case PWait(w, mode, x) =>
      var (slots', out) := WaitStep(s.slots, w, mode, luck);
      s.(slots := slots', prod :=
        match out
        case Going(w') => PWait(w', mode, x)
        case Acquired => PWrite(x)
        case GaveUp => if mode == Block then PWait(WTry, mode, x) else PIdle)
    case PWrite(x) =>
      var i := Slot(s, s.nextSlot);
      s.(data := if i < |s.data| then s.data[i := Some(x)] else s.data,
         nextSlot := (s.nextSlot + 1) % Word(), enqueued := s.enqueued + [x], prod := PSignal)
    case PSignal =>
      s.(items := s.items.(count := s.items.count + 1), prod := if s.items.count < 0 then PPost else PIdle)
    case PPost => s.(items := s.items.(kernel := s.items.kernel + 1), prod := PIdle)
  }

  function ConsStep<T>(s: State<T>, luck: bool): State<T>
    requires s.cons.CWait? && s.cons.w.WKernel? && luck ==> s.items.kernel > 0
  {
    match s.cons
    case CIdle => s
    case CWait(w, mode) =>
      var (items', out) := WaitStep(s.items, w, mode, luck);
      s.(items := items', cons :=
        match out
        case Going(w') => CWait(w', mode)
        case Acquired => CTake
        case GaveUp => if mode == Block then CWait(WTry, mode) else CIdle)
    case CTake =>
      var i := Slot(s, s.nextItem);
      if i < |s.data| && s.data[i].Some? then
        s.(data := s.data[i := None], nextItem := (s.nextItem + 1) % Word(),
           dequeued := s.dequeued + [s.data[i].value], cons := CSignal)
      else s
    case CSignal =>
      s.(slots := s.slots.(count := s.slots.count + 1), cons := if s.slots.count < 0 then CPost else CIdle)
    case CPost => s.(slots := s.slots.(kernel := s.slots.kernel + 1), cons := CIdle)
  }

  function Apply<T>(s: State<T>, a: Action<T>): State<T>
    requires Enabled(s, a)
  {
    match a
    case CallEnqueue(x, mode) => s.(prod := PWait(WTry, mode, x))
    case CallDequeue(mode) => s.(cons := CWait(WTry, mode))
    case RunProd(luck) => ProdStep(s, luck)
    case RunCons(luck) => ConsStep(s, luck)
  }

  // ---- one semaphore with one waiter and one signaller -----------------------------------------

  // The waiter has decremented m_count for a unit it does not have yet.
  predicate Owed(w: Option<Wait>) { w.Some? && (w.value.WKernel? || w.value.WRestore? || w.value.WKernelTry?) }

  // Units nobody has acquired.
  function Units(s: Sema, w: Option<Wait>): int { s.count + if Owed(w) then 1 else 0 }

  // m_count never drops below -1, and the kernel semaphore is posted only for a waiter that is
  // still going to consume the post.
  predicate SemaOk(s: Sema, w: Option<Wait>, posting: bool) {
    var posts := s.kernel + if posting then 1 else 0;
    && s.count >= -1
    && (if Owed(w) then posts == (if s.count < 0 then 0 else 1)
        else if w == Some(WRetake) then posts == 1 && s.count >= 1
        else posts == 0 && s.count >= 0)
    && (w == Some(WTake) ==> s.count >= 1)
  }

  // The call's progress: a unit is acquired exactly when one leaves, and giving up leaves nothing behind.
  lemma WaitStepOk(s: Sema, w: Wait, mode: Mode, luck: bool, posting: bool)
    requires SemaOk(s, Some(w), posting) && (w.WKernel? && luck ==> s.kernel > 0)
    ensures var (s', out) := WaitStep(s, w, mode, luck);
      match out
      case Going(w') => SemaOk(s', Some(w'), posting) && Units(s', Some(w')) == Units(s, Some(w))
      case Acquired => SemaOk(s', None, posting) && Units(s', None) == Units(s, Some(w)) - 1 >= 0
      case GaveUp => SemaOk(s', None, posting) && Units(s', None) == Units(s, Some(w)) == 0 && !posting
  {
  }

  // signal's own assert, oldCount >= -1, holds, and the post it makes has a taker.
  lemma SignalOk(s: Sema, w: Option<Wait>)
    requires SemaOk(s, w, false)
    ensures s.count >= -1
    ensures SemaOk(s.(count := s.count + 1), w, s.count < 0)
    ensures Units(s.(count := s.count + 1), w) == Units(s, w) + 1
  {
  }

  lemma PostOk(s: Sema, w: Option<Wait>)
    requires SemaOk(s, w, true)
    ensures SemaOk(s.(kernel := s.kernel + 1), w, false)
  {
  }

  // ---- the invariant ---------------------------------------------------------------------------

  function ProdWait<T>(s: State<T>): Option<Wait> { if s.prod.PWait? then Some(s.prod.w) else None }

  function ConsWait<T>(s: State<T>): Option<Wait> { if s.cons.CWait? then Some(s.cons.w) else None }

  function Contents<T>(s: State<T>): seq<T> {
    if |s.dequeued| <= |s.enqueued| then s.enqueued[|s.dequeued|..] else []
  }

  function Inc(i: nat, size: nat): nat { if i + 1 >= size then 0 else i + 1 }

  function Adv(i: nat, k: nat, size: nat): nat { if i + k < size then i + k else if i + k < size + size then i + k - size else 0 }

  // Slots, starting at `head`, hold the contents; all others are unconstructed.
  ghost predicate Holds<T>(data: seq<Option<T>>, head: nat, contents: seq<T>) {
    && head < |data| && |contents| <= |data|
    && forall k {:trigger Adv(head, k, |data|)} :: 0 <= k < |data| ==>
         data[Adv(head, k, |data|)] == if k < |contents| then Some(contents[k]) else None
  }

  ghost predicate BufferOk<T>(s: State<T>) {
    && Bits.IsPow2(|s.data|) && s.mask == |s.data| - 1 && s.maxcap <= |s.data| <= Word()
    && s.nextSlot < Word() && s.nextItem < Word()
    && Holds(s.data, Slot(s, s.nextItem), Contents(s))
    && Slot(s, s.nextSlot) == Adv(Slot(s, s.nextItem), |Contents(s)|, |s.data|)
  }

  predicate SemasOk<T>(s: State<T>) {
    && SemaOk(s.slots, ProdWait(s), s.cons.CPost?)
    && SemaOk(s.items, ConsWait(s), s.prod.PPost?)
  }

  // Every slot is free, claimed, full, or emptied but not yet signalled; every element likewise.
  predicate UnitsOk<T>(s: State<T>) {
    && Units(s.slots, ProdWait(s)) + (if s.prod.PWrite? then 1 else 0) + |Contents(s)|
       + (if s.cons.CSignal? then 1 else 0) == s.maxcap
    && Units(s.items, ConsWait(s)) + (if s.cons.CTake? then 1 else 0) + (if s.prod.PSignal? then 1 else 0)
       == |Contents(s)|
  }

  ghost predicate Inv<T>(s: State<T>) {
    BufferOk(s) && SemasOk(s) && UnitsOk(s) && s.dequeued <= s.enqueued
  }

  // ---- indices ---------------------------------------------------------------------------------

  lemma {:induction false} Pow2Sum(a: nat, b: nat)
    ensures Bits.Pow2(a + b) == Bits.Pow2(a) * Bits.Pow2(b)
  {
    if a > 0 {
      Pow2Sum(a - 1, b);
      assert Bits.Pow2(a + b) == 2 * Bits.Pow2(a - 1 + b);
    }
  }

  lemma {:induction false} Pow2Below(k: nat, n: nat)
    requires Bits.Pow2(k) <= Bits.Pow2(n)
    ensures k <= n
  {
    if k > n {
      Bits.Pow2Mono(n, k);
    }
  }

  lemma RemSucc(n: nat, m: nat)
    requires m > 0
    ensures Bits.Rem(n + 1, m) == Inc(Bits.Rem(n, m), m)
  {
    var q, r := n / m, n % m;
    assert n == q * m + r;
    if r + 1 < m {
      Bits.ModUnique(n + 1, m, q, r + 1);
    } else {
      assert (q + 1) * m == q * m + m;
      Bits.ModUnique(n + 1, m, q + 1, 0);
    }
  }

  // A power of two that fits in a word divides the word size, so the index survives wrap-around.
  lemma WordRem(k: nat)
    requires Bits.Pow2(k) <= Word()
    ensures Bits.Rem(Word(), Bits.Pow2(k)) == 0
  {
    hide Bits.Pow2;
    Pow2Below(k, 64);
    Pow2Sum(64 - k, k);
    Bits.ModUnique(Word(), Bits.Pow2(k), Bits.Pow2(64 - k), 0);
  }

  lemma NextIndex(n: nat, size: nat)
    requires Bits.IsPow2(size) && size <= Word() && n < Word()
    ensures Bits.And((n + 1) % Word(), size - 1) == Inc(Bits.And(n, size - 1), size)
    ensures (n + 1) % Word() < Word()
  {
    var k: nat :| size == Bits.Pow2(k);
    hide Bits.And, Bits.Pow2, Bits.Rem, Bits.IsPow2, Word;
    Bits.AndRem(n, k);
    RemSucc(n, size);
    if n + 1 < Word() {
      Bits.AndRem(n + 1, k);
      Bits.ModUnique(n + 1, Word(), 0, n + 1);
    } else {
      Bits.AndRem(0, k);
      Bits.RemZero(0, size);
      WordRem(k);
      Bits.ModUnique(n + 1, Word(), 1, 0);
    }
  }

  // ---- the buffer ------------------------------------------------------------------------------

  // The slot claimed by the producer is free: no live element is overwritten.
  lemma PutHolds<T>(data: seq<Option<T>>, head: nat, contents: seq<T>, x: T)
    requires Holds(data, head, contents) && |contents| < |data|
    ensures var i := Adv(head, |contents|, |data|);
      i < |data| && data[i] == None && Holds(data[i := Some(x)], head, contents + [x])
      && Inc(i, |data|) == Adv(head, |contents| + 1, |data|)
  {
    var i := Adv(head, |contents|, |data|);
    var data' := data[i := Some(x)];
    forall k | 0 <= k < |data|
      ensures data'[Adv(head, k, |data|)] == if k < |contents| + 1 then Some((contents + [x])[k]) else None
    {
      assert k != |contents| ==> Adv(head, k, |data|) != i;
    }
  }

  lemma TakeHolds<T>(data: seq<Option<T>>, head: nat, contents: seq<T>)
    requires Holds(data, head, contents) && |contents| > 0
    ensures data[head] == Some(contents[0])
    ensures Holds(data[head := None], Inc(head, |data|), contents[1..])
    ensures Adv(Inc(head, |data|), |contents| - 1, |data|) == Adv(head, |contents|, |data|)
  {
    assert Adv(head, 0, |data|) == head;
    var data', head' := data[head := None], Inc(head, |data|);
    forall k | 0 <= k < |data|
      ensures data'[Adv(head', k, |data|)] == if k < |contents| - 1 then Some(contents[1..][k]) else None
    {
      var j := if k + 1 < |data| then k + 1 else 0;
      assert Adv(head', k, |data|) == Adv(head, j, |data|);
    }
  }

  // ---- every step keeps the invariant ----------------------------------------------------------

  lemma ProdWaitKeeps<T>(s: State<T>, luck: bool)
    requires Inv(s) && s.prod.PWait? && (s.prod.w.WKernel? && luck ==> s.slots.kernel > 0)
    ensures Inv(ProdStep(s, luck))
  {
    hide Bits.IsPow2, Bits.And, Holds, SemaOk, WaitStep;
    WaitStepOk(s.slots, s.prod.w, s.prod.mode, luck, s.cons.CPost?);
    RestartOk(ProdStep(s, luck).slots, s.cons.CPost?);
  }

  // A blocking wait that gave up starts over.
  lemma RestartOk(s: Sema, posting: bool)
    ensures SemaOk(s, None, posting) ==> SemaOk(s, Some(WTry), posting)
  {
  }

  lemma ConsWaitKeeps<T>(s: State<T>, luck: bool)
    requires Inv(s) && s.cons.CWait? && (s.cons.w.WKernel? && luck ==> s.items.kernel > 0)
    ensures Inv(ConsStep(s, luck))
  {
    hide Bits.IsPow2, Bits.And, Holds, SemaOk, WaitStep;
    WaitStepOk(s.items, s.cons.w, s.cons.mode, luck, s.prod.PPost?);
    RestartOk(ConsStep(s, luck).items, s.prod.PPost?);
  }

  lemma ProdWriteKeeps<T>(s: State<T>, luck: bool)
    requires Inv(s) && s.prod.PWrite?
    ensures Inv(ProdStep(s, luck))
    ensures Contents(ProdStep(s, luck)) == Contents(s) + [s.prod.x]
  {
    WriteBuffer(s, luck);
    hide BufferOk, Contents, SemaOk;
  }

  lemma WriteBuffer<T>(s: State<T>, luck: bool)
    requires BufferOk(s) && SemasOk(s) && UnitsOk(s) && s.dequeued <= s.enqueued && s.prod.PWrite?
    ensures BufferOk(ProdStep(s, luck)) && Contents(ProdStep(s, luck)) == Contents(s) + [s.prod.x]
  {
    hide Bits.IsPow2, Bits.And, Holds, Word, SemaOk;
    Room(s);
    assert |Contents(s)| < |s.data|;
    PutHolds(s.data, Slot(s, s.nextItem), Contents(s), s.prod.x);
    NextIndex(s.nextSlot, |s.data|);
    assert Contents(ProdStep(s, luck)) == Contents(s) + [s.prod.x];
  }

  // The slot the producer has claimed exists.
  lemma Room<T>(s: State<T>)
    requires SemasOk(s) && UnitsOk(s) && s.prod.PWrite?
    ensures |Contents(s)| < s.maxcap
  {
  }

  lemma ConsTakeKeeps<T>(s: State<T>, luck: bool)
    requires Inv(s) && s.cons.CTake?
    ensures Inv(ConsStep(s, luck))
    ensures Contents(s) != [] && Contents(ConsStep(s, luck)) == Contents(s)[1..]
  {
    hide Bits.IsPow2, Bits.And, Holds, Word, SemaOk;
    assert |Contents(s)| > 0 by { ItemThere(s); }
    TakeHolds(s.data, Slot(s, s.nextItem), Contents(s));
    NextIndex(s.nextItem, |s.data|);
    HeadInRange(s);
  }

  lemma HeadInRange<T>(s: State<T>)
    requires BufferOk(s)
    ensures Slot(s, s.nextItem) < |s.data|
  {
  }

  lemma ItemThere<T>(s: State<T>)
    requires SemasOk(s) && UnitsOk(s) && s.cons.CTake?
    ensures |Contents(s)| > 0
  {
  }

  lemma ProdSignalKeeps<T>(s: State<T>, luck: bool)
    requires Inv(s) && (s.prod.PSignal? || s.prod.PPost?)
    ensures Inv(ProdStep(s, luck))
  {
    hide Bits.IsPow2, Bits.And, Holds, SemaOk;
    if s.prod.PSignal? {
      SignalOk(s.items, ConsWait(s));
    } else {
      PostOk(s.items, ConsWait(s));
    }
  }

  lemma ConsSignalKeeps<T>(s: State<T>, luck: bool)
    requires Inv(s) && (s.cons.CSignal? || s.cons.CPost?)
    ensures Inv(ConsStep(s, luck))
  {
    hide Bits.IsPow2, Bits.And, Holds, SemaOk;
    if s.cons.CSignal? {
      SignalOk(s.slots, ProdWait(s));
    } else {
      PostOk(s.slots, ProdWait(s));
    }
  }

  lemma CallKeeps<T>(s: State<T>, a: Action<T>)
    requires Inv(s) && Enabled(s, a) && (a.CallEnqueue? || a.CallDequeue?)
    ensures Inv(Apply(s, a))
  {
    hide Bits.IsPow2, Bits.And, Holds, SemaOk;
    RestartOk(s.slots, s.cons.CPost?);
    RestartOk(s.items, s.prod.PPost?);
  }

  lemma ApplyKeeps<T>(s: State<T>, a: Action<T>)
    requires Inv(s) && Enabled(s, a)
    ensures Inv(Apply(s, a))
  {
    hide Inv, ProdStep, ConsStep;
    match a
    case CallEnqueue(_, _) => CallKeeps(s, a);
    case CallDequeue(_) => CallKeeps(s, a);
    case RunProd(luck) =>
      if s.prod.PWait? {
        ProdWaitKeeps(s, luck);
      } else if s.prod.PWrite? {
        ProdWriteKeeps(s, luck);
      } else {
        ProdSignalKeeps(s, luck);
      }
    case RunCons(luck) =>
      if s.cons.CWait? {
        ConsWaitKeeps(s, luck);
      } else if s.cons.CTake? {
        ConsTakeKeeps(s, luck);
      } else {
        ConsSignalKeeps(s, luck);
      }
  }

  // ---- construction and runs -------------------------------------------------------------------

  ghost predicate Initial<T>(s: State<T>, capacity: nat) {
    && s.maxcap == capacity && Bits.IsPow2(|s.data|) && capacity <= |s.data| <= Word() && s.mask == |s.data| - 1
    && (forall i :: 0 <= i < |s.data| ==> s.data[i] == None)
    && s.nextSlot == 0 && s.nextItem == 0
    && s.slots == Sema(capacity, 0) && s.items == Sema(0, 0)
    && s.prod == PIdle && s.cons == CIdle && s.enqueued == [] && s.dequeued == []
  }

  method Construct<T>(capacity: nat) returns (s: State<T>)
    requires 1 <= capacity < Bits.Pow2(63)
    ensures Initial(s, capacity) && |s.data| < 2 * capacity
  {
    hide Bits.Pow2, Bits.IsPow2;
    var size := Bits.CeilToPow2(capacity);
    assert size <= Word() by { Doubling(); }
    s := State(capacity, size - 1, seq(size, i => None), 0, 0, Sema(capacity, 0), Sema(0, 0), PIdle, CIdle, [], []);
  }

  lemma Doubling()
    ensures Word() == 2 * Bits.Pow2(63)
  {
    var k: nat := 63;
    assert Bits.Pow2(k + 1) == 2 * Bits.Pow2(k);
  }

  lemma InitialInv<T>(s: State<T>, capacity: nat)
    requires Initial(s, capacity)
    ensures Inv(s)
  {
    hide Bits.IsPow2, Word;
    assert Slot(s, 0) == 0;
    assert Contents(s) == [];
  }

  ghost predicate Next<T(!new)>(s: State<T>, t: State<T>) { exists a :: Enabled(s, a) && t == Apply(s, a) }

  ghost predicate IsRun<T(!new)>(run: seq<State<T>>, capacity: nat) {
    |run| > 0 && Initial(run[0], capacity) && forall i {:trigger run[i]} :: 0 <= i < |run| - 1 ==> Next(run[i], run[i + 1])
  }

  lemma {:induction false} RunKeepsInv<T(!new)>(run: seq<State<T>>, capacity: nat, i: nat)
    requires IsRun(run, capacity) && i < |run|
    ensures Inv(run[i]) && run[i].maxcap == capacity
  {
    hide Inv, Initial, Next;
    if i == 0 {
      InitialInv(run[0], capacity);
      InitialCap(run[0], capacity);
    } else {
      RunKeepsInv(run, capacity, i - 1);
      assert Next(run[i - 1], run[i - 1 + 1]);
      NextKeeps(run[i - 1], run[i]);
    }
  }

  lemma InitialCap<T>(s: State<T>, capacity: nat)
    requires Initial(s, capacity)
    ensures s.maxcap == capacity
  {
  }

  lemma NextKeeps<T(!new)>(s: State<T>, t: State<T>)
    requires Inv(s) && Next(s, t)
    ensures Inv(t) && t.maxcap == s.maxcap
  {
    hide Inv;
    var a :| Enabled(s, a) && t == Apply(s, a);
    ApplyKeeps(s, a);
  }

  // ---- the theorems ----------------------------------------------------------------------------

  // A FIFO that never holds more than maxcap elements, in every interleaving, timeouts included.
  lemma BoundedFifo<T(!new)>(run: seq<State<T>>, capacity: nat, i: nat)
    requires IsRun(run, capacity) && i < |run|
    ensures run[i].dequeued <= run[i].enqueued
    ensures |run[i].enqueued| - |run[i].dequeued| <= capacity
  {
    hide IsRun;
    RunKeepsInv(run, capacity, i);
  }

  // The element constructed goes into a free slot, and the element taken is the oldest one, also
  // after nextSlot and nextItem have wrapped around.
  lemma SlotsAreRight<T(!new)>(run: seq<State<T>>, capacity: nat, i: nat)
    requires IsRun(run, capacity) && i < |run|
    ensures var s := run[i];
      && (s.prod.PWrite? ==> Slot(s, s.nextSlot) < |s.data| && s.data[Slot(s, s.nextSlot)] == None)
      && (s.cons.CTake? ==>
            Contents(s) != [] && Slot(s, s.nextItem) < |s.data| && s.data[Slot(s, s.nextItem)] == Some(Contents(s)[0]))
  {
    hide IsRun;
    RunKeepsInv(run, capacity, i);
    var s := run[i];
    hide Bits.And, Holds, SemaOk, Bits.IsPow2;
    if s.prod.PWrite? {
      Room(s);
      PutHolds(s.data, Slot(s, s.nextItem), Contents(s), s.prod.x);
    }
    if s.cons.CTake? {
      ItemThere(s);
      HeadInRange(s);
      TakeHolds(s.data, Slot(s, s.nextItem), Contents(s));
    }
  }

  // signal's assert never fails, and a post is only ever made for a waiter that will consume it.
  lemma SignalAsserts<T(!new)>(run: seq<State<T>>, capacity: nat, i: nat)
    requires IsRun(run, capacity) && i < |run|
    ensures run[i].slots.count >= -1 && run[i].items.count >= -1
    ensures run[i].slots.kernel <= 1 && run[i].items.kernel <= 1
    ensures run[i].prod.PIdle? ==> run[i].slots.kernel == 0
    ensures run[i].cons.CIdle? ==> run[i].items.kernel == 0
  {
    hide IsRun;
    RunKeepsInv(run, capacity, i);
    hide BufferOk;
  }

  // An enqueue that reports failure saw a full buffer: every slot holds an element, or was emptied
  // by a dequeue that has not signalled yet.
  lemma EnqueueFailsFull<T(!new)>(run: seq<State<T>>, capacity: nat, i: nat, luck: bool)
    requires IsRun(run, capacity) && i < |run| && run[i].prod.PWait?
    requires Enabled(run[i], RunProd(luck)) && ProdStep(run[i], luck).prod.PIdle?
    ensures |Contents(run[i])| + (if run[i].cons.CSignal? then 1 else 0) == capacity
  {
    hide IsRun;
    RunKeepsInv(run, capacity, i);
    var s := run[i];
    hide BufferOk, SemaOk;
    WaitStepOk(s.slots, s.prod.w, s.prod.mode, luck, s.cons.CPost?);
  }

  // A dequeue that reports failure saw an empty buffer, but for an element not signalled yet.
  lemma DequeueFailsEmpty<T(!new)>(run: seq<State<T>>, capacity: nat, i: nat, luck: bool)
    requires IsRun(run, capacity) && i < |run| && run[i].cons.CWait?
    requires Enabled(run[i], RunCons(luck)) && ConsStep(run[i], luck).cons.CIdle?
    ensures |Contents(run[i])| == if run[i].prod.PSignal? then 1 else 0
  {
    hide IsRun;
    RunKeepsInv(run, capacity, i);
    var s := run[i];
    hide BufferOk, SemaOk;
    WaitStepOk(s.items, s.cons.w, s.cons.mode, luck, s.prod.PPost?);
  }

  // The destructor's bound: with no call in progress, availableApprox counts the live elements.
  lemma QuiescentCount<T(!new)>(run: seq<State<T>>, capacity: nat, i: nat)
    requires IsRun(run, capacity) && i < |run| && run[i].prod.PIdle? && run[i].cons.CIdle?
    ensures run[i].items.count == |Contents(run[i])| && run[i].slots.count == capacity - |Contents(run[i])|
  {
    hide IsRun;
    RunKeepsInv(run, capacity, i);
    hide BufferOk;
  }
}
