/**
 * moodycamel::ReaderWriterQueue as a step machine: one producer and one consumer over a ring of
 * circular blocks, each with stale shadow copies (localTail, localFront) of the other side's index.
 * Loads and stores of shared fields are single steps; fields that only the running side ever writes
 * are read together with the step that uses them.
 *
 * `ring`, `tailPos`, `items`, `seen`, `slack`, `enqueued` and `dequeued` are auxiliary: no step
 * branches on them.  `ring` lists the blocks in link order starting at the front block.
 * With `blocking` set the machine is BlockingReaderWriterQueue: `credits` is its semaphore.
 */
module ReaderWriterQueue {
  import opened Wrappers
  import Bits

  type Id = nat

  datatype Block<T> = Block(
    size: nat,                    // sizeMask + 1
    front: nat, localTail: nat,   // consumer's side
    tail: nat, localFront: nat,   // producer's side
    next: Id,
    data: seq<Option<T>>,         // a slot is None when no object is constructed in it
    items: seq<T>,                // the elements from front to tail
    seen: nat,                    // how many of them localTail covers
    slack: nat)                   // how far localFront lags behind front

  datatype Op = Dequeue | Peek

  datatype Prod<T> =
    | PIdle
    | PLoadFront(x: T, alloc: bool)     // localFront = front.load()
    | PCheckNext(x: T, alloc: bool)     // next != frontBlock ?
    | PWrite(x: T)                      // construct the element in the tail block
    | PStoreTail(x: T)
    | PNextFront(x: T, n: Id)           // next block: localFront = front.load()
    | PNextWrite(x: T, n: Id)
    | PNextTail(x: T, n: Id)
    | PAdvance(x: T, n: Id)             // tailBlock = n
    | PAlloc(x: T)                      // make_block
    | PLink(x: T, n: Id)                // tailBlock->next = n
    | PSignal                           // blocking queue: sema->signal()

  datatype Cons<T> =
    | CIdle
    | CLoadTail(op: Op)                        // localTail = tail.load()
    | CLoadTailBlock(op: Op, had: bool)        // had: auxiliary, the queue was not empty at CLoadTail
    | CReloadTail(op: Op)
    | CNext(op: Op)                            // load next
    | CNextTail(op: Op, n: Id)                 // next block: localTail = tail.load()
    | CAdvance(n: Id)                          // frontBlock = n
    | CTake                                    // move the element out and destroy it
    | CStoreFront(x: T)
    | CLook(n: Id)                             // peek: the element at the front of block n

  datatype State<T> = State(
    blocks: map<Id, Block<T>>,
    frontBlock: Id, tailBlock: Id,
    largest: nat, maxBlock: nat,               // largestBlockSize, MAX_BLOCK_SIZE
    blocking: bool, credits: nat, holding: bool,
    prod: Prod<T>, cons: Cons<T>,
    result: Option<T>,                         // what the last consumer call returned
    ring: seq<Id>, tailPos: nat,
    enqueued: seq<T>, dequeued: seq<T>)

  // (i + 1) & sizeMask, for a power-of-two size
  function Inc(i: nat, size: nat): nat { if i + 1 >= size then 0 else i + 1 }

  // (i + k) & sizeMask for k up to one turn
  function Adv(i: nat, k: nat, size: nat): nat { if i + k >= size then Sub(i + k, size) else i + k }

  function Sub(a: nat, b: nat): nat { if a >= b then a - b else 0 }

  // ---- the steps -------------------------------------------------------------------------------

  datatype Action<T> =
    | CallEnqueue(x: T, alloc: bool)           // enqueue (alloc) or try_enqueue
    | CallConsumer(op: Op)                     // try_dequeue / pop, or peek
    | RunProd(addr: Id, ok: bool)             // make_block returns `addr`, or fails when !ok
    | RunCons

  predicate Enabled<T>(s: State<T>, a: Action<T>) {
    match a
    case CallEnqueue(_, _) => s.prod.PIdle?
    case CallConsumer(op) => s.cons.CIdle? && (s.blocking && op == Dequeue ==> s.credits > 0)
    case RunProd(addr, ok) => !s.prod.PIdle? && (s.prod.PAlloc? ==> addr !in s.blocks)
    case RunCons => !s.cons.CIdle?
  }

  // All the blocks the two sides are about to touch exist.
  predicate Known<T>(s: State<T>) {
    && s.frontBlock in s.blocks && s.tailBlock in s.blocks
    && s.blocks[s.frontBlock].next in s.blocks && s.blocks[s.tailBlock].next in s.blocks
    && (s.prod.PNextFront? || s.prod.PNextWrite? || s.prod.PNextTail? || s.prod.PAdvance? || s.prod.PLink?
        ==> s.prod.n in s.blocks)
    && (s.cons.CNextTail? || s.cons.CAdvance? || s.cons.CLook? ==> s.cons.n in s.blocks)
  }

  function SetBlock<T>(s: State<T>, i: Id, b: Block<T>): State<T> { s.(blocks := s.blocks[i := b]) }

  // Construct x in the slot at the block's tail.
  function WriteAtTail<T>(b: Block<T>, x: T): Block<T> {
    if b.tail < |b.data| then b.(data := b.data[b.tail := Some(x)]) else b
  }

  // Publish the slot at the tail: tail = (tail + 1) & sizeMask.
  function BumpTail<T>(b: Block<T>, x: T): Block<T> {
    b.(tail := Inc(b.tail, b.size), items := b.items + [x])
  }

  function LoadFront<T>(b: Block<T>): Block<T> { b.(localFront := b.front, slack := 0) }

  function LoadTail<T>(b: Block<T>): Block<T> { b.(localTail := b.tail, seen := |b.items|) }

  function Done<T>(s: State<T>): Prod<T> { if s.blocking then PSignal else PIdle }

  function NewBlock<T>(size: nat, next: Id, x: T): Block<T> {
    Block(size, 0, 1, 1, 0, next, seq(size, i => if i == 0 then Some(x) else None), [x], 1, 0)
  }

  function NewSize<T>(s: State<T>): nat { if s.largest >= s.maxBlock then s.largest else s.largest * 2 }

  function CallEnq<T>(s: State<T>, x: T, alloc: bool): State<T>
    requires Known(s)
  {
    var b := s.blocks[s.tailBlock];
    s.(prod := if Inc(b.tail, b.size) != b.localFront then PWrite(x) else PLoadFront(x, alloc))
  }

  function ProdStep<T>(s: State<T>, addr: Id, ok: bool): State<T>
    requires Known(s)
  {
    var t := s.tailBlock;
    var b := s.blocks[t];
    match s.prod
    case PIdle => s
    case PLoadFront(x, alloc) =>
      SetBlock(s, t, LoadFront(b)).(prod := if Inc(b.tail, b.size) != b.front then PWrite(x) else PCheckNext(x, alloc))
    case PCheckNext(x, alloc) =>
      if b.next != s.frontBlock then s.(prod := PNextFront(x, b.next))
      else s.(prod := if alloc then PAlloc(x) else PIdle)
    case PWrite(x) => SetBlock(s, t, WriteAtTail(b, x)).(prod := PStoreTail(x))
    case PStoreTail(x) => SetBlock(s, t, BumpTail(b, x)).(prod := Done(s), enqueued := s.enqueued + [x])
    case PNextFront(x, n) => SetBlock(s, n, LoadFront(s.blocks[n])).(prod := PNextWrite(x, n))
    case PNextWrite(x, n) => SetBlock(s, n, WriteAtTail(s.blocks[n], x)).(prod := PNextTail(x, n))
    case PNextTail(x, n) => SetBlock(s, n, BumpTail(s.blocks[n], x)).(prod := PAdvance(x, n))
    case PAdvance(x, n) =>
      s.(tailBlock := n, tailPos := s.tailPos + 1, prod := Done(s), enqueued := s.enqueued + [x])
    case PAlloc(x) =>
      if !ok then s.(prod := PIdle)
      else SetBlock(s, addr, NewBlock(NewSize(s), b.next, x)).(largest := NewSize(s), prod := PLink(x, addr))
    case PLink(x, n) =>
      SetBlock(s, t, b.(next := n)).(ring := Insert(s.ring, s.tailPos + 1, n), prod := PAdvance(x, n))
    case PSignal => s.(credits := s.credits + 1, prod := PIdle)
  }

  function Insert(ring: seq<Id>, at: nat, n: Id): seq<Id> {
    if at <= |ring| then ring[..at] + [n] + ring[at..] else ring
  }

  function CallCons<T>(s: State<T>, op: Op): State<T>
    requires Known(s) && (s.blocking && op == Dequeue ==> s.credits > 0)
  {
    var b := s.blocks[s.frontBlock];
    var s1 := if s.blocking && op == Dequeue then s.(credits := s.credits - 1, holding := true) else s;
    s1.(cons := if b.front != b.localTail then Serve(s.frontBlock, op) else CLoadTail(op))
  }

  // The front block is not empty.
  function Serve<T>(front: Id, op: Op): Cons<T> { if op == Dequeue then CTake else CLook(front) }

  function Fail<T>(s: State<T>): State<T> { s.(cons := CIdle, result := None) }

  function ConsStep<T>(s: State<T>): State<T>
    requires Known(s)
  {
    var f := s.frontBlock;
    var b := s.blocks[f];
    match s.cons
    case CIdle => s
    case CLoadTail(op) =>
      SetBlock(s, f, LoadTail(b))
        .(cons := if b.front != b.tail then Serve(f, op) else CLoadTailBlock(op, Contents(s) != []))
    case CLoadTailBlock(op, _) => if f != s.tailBlock then s.(cons := CReloadTail(op)) else Fail(s)
    case CReloadTail(op) =>
      SetBlock(s, f, LoadTail(b)).(cons := if b.front != b.tail then Serve(f, op) else CNext(op))
    case CNext(op) => s.(cons := CNextTail(op, b.next))
    case CNextTail(op, n) =>
      if op == Peek then s.(cons := CLook(n))
      else SetBlock(s, n, LoadTail(s.blocks[n])).(cons := CAdvance(n))
    case CAdvance(n) =>
      s.(frontBlock := n, cons := CTake, tailPos := Sub(s.tailPos, 1), ring := Rotate(s.ring))
    case CTake =>
      if b.front < |b.data| && b.data[b.front].Some? then
        SetBlock(s, f, b.(data := b.data[b.front := None])).(cons := CStoreFront(b.data[b.front].value))
      else s
    case CStoreFront(x) =>
      var b1 := b.(front := Inc(b.front, b.size), items := if b.items == [] then [] else b.items[1..],
                   seen := Sub(b.seen, 1), slack := b.slack + 1);
      SetBlock(s, f, b1).(cons := CIdle, result := Some(x), holding := false, dequeued := s.dequeued + [x])
    case CLook(n) =>
      var bn := s.blocks[n];
      s.(cons := CIdle, result := if bn.front < |bn.data| then bn.data[bn.front] else None)
  }

  function Rotate(ring: seq<Id>): seq<Id> { if ring == [] then [] else ring[1..] + [ring[0]] }

  function Apply<T>(s: State<T>, a: Action<T>): State<T>
    requires Known(s) && Enabled(s, a)
  {
    match a
    case CallEnqueue(x, alloc) => CallEnq(s, x, alloc)
    case CallConsumer(op) => CallCons(s, op)
    case RunProd(addr, ok) => ProdStep(s, addr, ok)
    case RunCons => ConsStep(s)
  }

  // ---- the abstract queue ----------------------------------------------------------------------

  // The elements of the blocks listed, in order.
  function Cat<T>(blocks: map<Id, Block<T>>, ids: seq<Id>): seq<T> {
    if ids == [] then [] else (if ids[0] in blocks then blocks[ids[0]].items else []) + Cat(blocks, ids[1..])
  }

  // What the queue holds: the blocks from the front block to the tail block.
  function Contents<T>(s: State<T>): seq<T> {
    Cat(s.blocks, if s.tailPos < |s.ring| then s.ring[..s.tailPos + 1] else s.ring)
  }

  // ---- the invariant ---------------------------------------------------------------------------

  // The consumer has moved the front element out and not yet stored the new front.
  predicate Taken<T>(s: State<T>, i: Id) { s.cons.CStoreFront? && i == s.frontBlock }

  // The element constructed at a block's tail and not yet published by storing the new tail.
  function Pending<T>(s: State<T>, i: Id): Option<T> {
    if s.prod.PStoreTail? && i == s.tailBlock then Some(s.prod.x)
    else if s.prod.PNextTail? && i == s.prod.n then Some(s.prod.x)
    else None
  }

  // What the k-th slot after the front must contain.
  function Slot<T>(items: seq<T>, taken: bool, pending: Option<T>, k: nat): Option<T> {
    if k < |items| then (if taken && k == 0 then None else Some(items[k]))
    else if k == |items| then pending
    else None
  }

  ghost predicate BlockOk<T>(b: Block<T>, taken: bool, pending: Option<T>) {
    if b.size == 1 then OneOk(b, taken, pending) else ManyOk(b, taken, pending)
  }

  // The first block of a queue constructed for no elements: its indices never show an element, but
  // it holds one when it is not the front block.
  ghost predicate OneOk<T>(b: Block<T>, taken: bool, pending: Option<T>) {
    && b.size == 1 && |b.data| == 1 && |b.items| <= 1 && b.seen <= |b.items|
    && (taken ==> b.seen >= 1) && (pending.Some? ==> b.items == [])
    && b.front == b.tail == b.localFront == b.localTail == 0
    && b.data[0] == Slot(b.items, taken, pending, 0)
  }

  ghost predicate ManyOk<T>(b: Block<T>, taken: bool, pending: Option<T>) {
    && b.size >= 2 && |b.data| == b.size
    && |b.items| + b.slack < b.size && b.seen <= |b.items|
    && (taken ==> b.seen >= 1)
    && b.front < b.size && b.localFront < b.size
    && b.tail == Adv(b.front, |b.items|, b.size)
    && b.localTail == Adv(b.front, b.seen, b.size)
    && b.front == Adv(b.localFront, b.slack, b.size)
    && (forall k {:trigger Adv(b.front, k, b.size)} :: 0 <= k < b.size ==>
          b.data[Adv(b.front, k, b.size)] == Slot(b.items, taken, pending, k))
  }

  predicate HasRoom<T>(b: Block<T>) { |b.items| + b.slack + 1 < b.size }

  // The slot at the tail is free.
  predicate CanWrite<T>(b: Block<T>) { HasRoom(b) || (b.size == 1 && b.items == []) }

  // The ring, as seen through the links.
  predicate RingOk<T>(s: State<T>) {
    && s.tailPos < |s.ring|
    && s.ring[0] == s.frontBlock && s.ring[s.tailPos] == s.tailBlock
    && (forall i, j :: 0 <= i < j < |s.ring| ==> s.ring[i] != s.ring[j])
    && (forall i {:trigger s.ring[i]} :: 0 <= i < |s.ring| ==> s.ring[i] in s.blocks)
    && (forall i {:trigger LinkOk(s, i)} :: 0 <= i < |s.ring| ==> LinkOk(s, i))
  }

  predicate LinkOk<T>(s: State<T>, i: nat)
    requires i < |s.ring| && s.ring[i] in s.blocks
  {
    s.blocks[s.ring[i]].next == s.ring[Inc(i, |s.ring|)]
  }

  // Blocks behind the front up to the tail are not empty; the free blocks after it are.
  ghost predicate FillOk<T>(s: State<T>)
    requires RingOk(s)
  {
    forall i {:trigger s.ring[i]} :: 1 <= i < |s.ring| ==>
      if i <= s.tailPos then s.blocks[s.ring[i]].items != []
      else s.blocks[s.ring[i]].items == (if s.prod.PAdvance? && s.ring[i] == s.prod.n then [s.prod.x] else [])
  }

  ghost predicate ProdOk<T>(s: State<T>)
    requires RingOk(s)
  {
    match s.prod
    case PWrite(x) => HasRoom(s.blocks[s.tailBlock])
    case PStoreTail(x) => HasRoom(s.blocks[s.tailBlock])
    case PNextFront(x, n) => IsNext(s, n)
    case PNextWrite(x, n) => IsNext(s, n) && s.blocks[n].slack == 0
    case PNextTail(x, n) => IsNext(s, n) && s.blocks[n].slack == 0
    case PAdvance(x, n) => IsNext(s, n)
    case PLink(x, n) =>
      && n in s.blocks && n !in s.ring && s.blocks[n].items == [x]
      && s.blocks[n].next == s.blocks[s.tailBlock].next
    case PSignal => s.blocking
    case _ => true
  }

  // n is the block after the tail block, and not the front block.
  predicate IsNext<T>(s: State<T>, n: Id) { s.tailPos + 1 < |s.ring| && n == s.ring[s.tailPos + 1] }

  ghost predicate ConsOk<T>(s: State<T>)
    requires RingOk(s)
  {
    var items, seen := s.blocks[s.frontBlock].items, s.blocks[s.frontBlock].seen;
    match s.cons
    case CIdle => true
    case CLoadTail(op) => true
    case CLoadTailBlock(op, had) => (had ==> s.tailPos >= 1) && (s.blocking && op == Dequeue ==> had)
    case CReloadTail(op) => s.tailPos >= 1
    case CNext(op) => s.tailPos >= 1 && items == []
    case CNextTail(op, n) => s.tailPos >= 1 && items == [] && n == s.ring[1]
    case CAdvance(n) => s.tailPos >= 1 && items == [] && n == s.ring[1] && s.blocks[n].seen >= 1
    case CTake => seen >= 1
    case CStoreFront(x) => items != [] && x == items[0]
    case CLook(n) =>
      (n == s.frontBlock && items != []) || (s.tailPos >= 1 && items == [] && n == s.ring[1])
  }

  // A front block of size 1 holds only an element that is being taken.
  predicate FrontOk<T>(s: State<T>) {
    s.frontBlock in s.blocks && s.blocks[s.frontBlock].size == 1 && !s.cons.CTake? && !s.cons.CStoreFront? ==>
      s.blocks[s.frontBlock].items == []
  }

  predicate Dequeuing<T>(c: Cons<T>) {
    match c
    case CLoadTail(op) => op == Dequeue
    case CLoadTailBlock(op, _) => op == Dequeue
    case CReloadTail(op) => op == Dequeue
    case CNext(op) => op == Dequeue
    case CNextTail(op, _) => op == Dequeue
    case CAdvance(_) => true
    case CTake => true
    case CStoreFront(_) => true
    case _ => false
  }

  // The semaphore of the blocking queue counts the elements nobody has claimed.
  predicate CreditsOk<T>(s: State<T>) {
    && (s.holding <==> s.blocking && Dequeuing(s.cons))
    && (s.blocking ==>
          s.credits + (if s.holding then 1 else 0) + (if s.prod.PSignal? then 1 else 0) == |Contents(s)|)
  }

  ghost predicate BlocksOk<T>(s: State<T>) {
    forall i {:trigger s.blocks[i]} :: i in s.blocks ==> BlockOk(s.blocks[i], Taken(s, i), Pending(s, i))
  }

  ghost predicate Inv<T>(s: State<T>) {
    && s.maxBlock >= 2 && s.largest >= 1
    && RingOk(s) && BlocksOk(s) && FillOk(s) && ProdOk(s) && ConsOk(s) && FrontOk(s)
    && s.enqueued == s.dequeued + Contents(s)
    && CreditsOk(s)
  }

  // ---- block lemmas ----------------------------------------------------------------------------

  lemma LoadFrontOk<T>(b: Block<T>, taken: bool, pending: Option<T>)
    requires BlockOk(b, taken, pending)
    ensures BlockOk(LoadFront(b), taken, pending)
  {
  }

  lemma LoadTailOk<T>(b: Block<T>, taken: bool, pending: Option<T>)
    requires BlockOk(b, taken, pending)
    ensures BlockOk(LoadTail(b), taken, pending)
    ensures b.size != 1 || b.items == [] ==> (b.front != b.tail <==> b.items != [])
  {
  }

  // The slot written is free: nothing constructed is overwritten.
  lemma WriteAtTailOk<T>(b: Block<T>, taken: bool, x: T)
    requires BlockOk(b, taken, None) && CanWrite(b)
    ensures b.tail < |b.data| && b.data[b.tail] == None
    ensures BlockOk(WriteAtTail(b, x), taken, Some(x)) && CanWrite(WriteAtTail(b, x))
    ensures HasRoom(b) ==> HasRoom(WriteAtTail(b, x))
  {
    var b' := WriteAtTail(b, x);
    if b.size == 1 {
      return;
    }
    forall k | 0 <= k < b.size
      ensures b'.data[Adv(b.front, k, b.size)] == Slot(b.items, taken, Some(x), k)
    {
      assert b.data[Adv(b.front, k, b.size)] == Slot(b.items, taken, None, k);
      assert k != |b.items| ==> Adv(b.front, k, b.size) != b.tail;
    }
  }

  lemma BumpTailOk<T>(b: Block<T>, taken: bool, x: T)
    requires BlockOk(b, taken, Some(x)) && CanWrite(b)
    ensures BlockOk(BumpTail(b, x), taken, None)
  {
    var b' := BumpTail(b, x);
    if b.size == 1 {
      return;
    }
    forall k | 0 <= k < b.size
      ensures b'.data[Adv(b.front, k, b.size)] == Slot(b'.items, taken, None, k)
    {
      assert b.data[Adv(b.front, k, b.size)] == Slot(b.items, taken, Some(x), k);
    }
  }

  lemma TakeOk<T>(b: Block<T>, pending: Option<T>)
    requires BlockOk(b, false, pending) && b.seen >= 1
    ensures b.front < |b.data| && b.items != [] && b.data[b.front] == Some(b.items[0])
    ensures BlockOk(b.(data := b.data[b.front := None]), true, pending)
  {
    if b.size == 1 {
      return;
    }
    assert Adv(b.front, 0, b.size) == b.front;
    forall k | 0 <= k < b.size
      ensures b.data[b.front := None][Adv(b.front, k, b.size)] == Slot(b.items, true, pending, k)
    {
      assert b.data[Adv(b.front, k, b.size)] == Slot(b.items, false, pending, k);
      assert k != 0 ==> Adv(b.front, k, b.size) != b.front;
    }
  }

  lemma StoreFrontOk<T>(b: Block<T>, pending: Option<T>)
    requires BlockOk(b, true, pending)
    ensures b.items != [] && (b.size == 1 ==> b.items[1..] == [])
    ensures BlockOk(b.(front := Inc(b.front, b.size), items := b.items[1..],
                       seen := Sub(b.seen, 1), slack := b.slack + 1), false, pending)
  {
    var b' := b.(front := Inc(b.front, b.size), items := b.items[1..], seen := Sub(b.seen, 1), slack := b.slack + 1);
    if b.size == 1 {
      return;
    }
    forall k | 0 <= k < b.size
      ensures b'.data[Adv(b'.front, k, b.size)] == Slot(b'.items, false, pending, k)
    {
      var j := if k + 1 < b.size then k + 1 else 0;
      assert Adv(b'.front, k, b.size) == Adv(b.front, j, b.size);
      assert b.data[Adv(b.front, j, b.size)] == Slot(b.items, true, pending, j);
    }
  }

  // ---- the abstract contents -------------------------------------------------------------------

  lemma {:induction false} CatFrame<T>(blocks: map<Id, Block<T>>, blocks': map<Id, Block<T>>, ids: seq<Id>)
    requires forall i :: i in ids ==> i in blocks && i in blocks' && blocks'[i].items == blocks[i].items
    ensures Cat(blocks', ids) == Cat(blocks, ids)
  {
    if ids != [] {
      assert ids[0] in ids;
      CatFrame(blocks, blocks', ids[1..]);
    }
  }

  lemma {:induction false} CatSnoc<T>(blocks: map<Id, Block<T>>, ids: seq<Id>, n: Id)
    requires n in blocks
    ensures Cat(blocks, ids + [n]) == Cat(blocks, ids) + blocks[n].items
  {
    if ids == [] {
      assert ids + [n] == [n];
      assert [n][1..] == [];
    } else {
      var first := if ids[0] in blocks then blocks[ids[0]].items else [];
      assert (ids + [n])[1..] == ids[1..] + [n] && (ids + [n])[0] == ids[0];
      CatSnoc(blocks, ids[1..], n);
      assert first + (Cat(blocks, ids[1..]) + blocks[n].items) == (first + Cat(blocks, ids[1..])) + blocks[n].items;
    }
  }

  // Contents with the front block split off.
  lemma ContentsSplit<T>(s: State<T>)
    requires RingOk(s)
    ensures Contents(s) == s.blocks[s.frontBlock].items + Cat(s.blocks, s.ring[1..s.tailPos + 1])
  {
    assert s.ring[..s.tailPos + 1][0] == s.ring[0];
    assert s.ring[..s.tailPos + 1][1..] == s.ring[1..s.tailPos + 1];
  }

  // The front block's elements come first.
  lemma ContentsFront<T>(s: State<T>)
    requires RingOk(s)
    ensures s.blocks[s.frontBlock].items <= Contents(s)
    ensures s.tailPos == 0 ==> Contents(s) == s.blocks[s.frontBlock].items
  {
    ContentsSplit(s);
    if s.tailPos == 0 {
      assert s.ring[1..1] == [];
    }
  }

  // Contents with the tail block split off.
  lemma ContentsTail<T>(s: State<T>)
    requires RingOk(s)
    ensures Contents(s) == Cat(s.blocks, s.ring[..s.tailPos]) + s.blocks[s.tailBlock].items
  {
    assert s.ring[..s.tailPos + 1] == s.ring[..s.tailPos] + [s.tailBlock];
    CatSnoc(s.blocks, s.ring[..s.tailPos], s.tailBlock);
  }

  // ---- steps that leave links and elements alone -----------------------------------------------

  ghost predicate SameShape<T>(s: State<T>, s': State<T>) {
    && s'.ring == s.ring && s'.tailPos == s.tailPos
    && s'.frontBlock == s.frontBlock && s'.tailBlock == s.tailBlock
    && s'.blocks.Keys == s.blocks.Keys
    && (forall i {:trigger s'.blocks[i]} :: i in s.blocks ==>
          s'.blocks[i].next == s.blocks[i].next && s'.blocks[i].items == s.blocks[i].items)
  }

  lemma ShapeKeeps<T>(s: State<T>, s': State<T>)
    requires RingOk(s) && FillOk(s) && SameShape(s, s')
    requires s'.prod == s.prod || (!s.prod.PAdvance? && !s'.prod.PAdvance?)
    ensures RingOk(s') && FillOk(s') && Contents(s') == Contents(s)
  {
    forall i | 0 <= i < |s'.ring| ensures LinkOk(s', i) {
      assert LinkOk(s, i);
    }
    CatFrame(s.blocks, s'.blocks, s.ring[..s.tailPos + 1]);
  }

  // The block table after a step that rewrites block i only.
  lemma BlocksKeep<T>(s: State<T>, s': State<T>, i: Id)
    requires BlocksOk(s) && i in s'.blocks && s'.blocks == s.blocks[i := s'.blocks[i]]
    requires forall j {:trigger Taken(s', j)} :: j != i && j in s.blocks ==> Taken(s', j) == Taken(s, j)
    requires forall j {:trigger Pending(s', j)} :: j != i && j in s.blocks ==> Pending(s', j) == Pending(s, j)
    requires BlockOk(s'.blocks[i], Taken(s', i), Pending(s', i))
    ensures BlocksOk(s')
  {
    forall j | j in s'.blocks ensures BlockOk(s'.blocks[j], Taken(s', j), Pending(s', j)) {
      if j != i {
        assert BlockOk(s.blocks[j], Taken(s, j), Pending(s, j));
        assert Taken(s', j) == Taken(s, j) && Pending(s', j) == Pending(s, j);
      }
    }
  }

  lemma InvKnown<T>(s: State<T>)
    requires RingOk(s) && ProdOk(s) && ConsOk(s)
    ensures Known(s)
  {
    assert s.ring[0] in s.blocks && s.ring[s.tailPos] in s.blocks;
    assert LinkOk(s, 0) && LinkOk(s, s.tailPos);
    assert s.ring[Inc(0, |s.ring|)] in s.blocks && s.ring[Inc(s.tailPos, |s.ring|)] in s.blocks;
  }

  lemma BlockIsOk<T>(s: State<T>, i: Id)
    requires BlocksOk(s) && i in s.blocks
    ensures BlockOk(s.blocks[i], Taken(s, i), Pending(s, i))
  {
  }

  // A producer step that changes only its own view: no element, no link, no credit.
  lemma QuietProd<T>(s: State<T>, s': State<T>, i: Id)
    requires Inv(s) && i in s.blocks && i in s'.blocks
    requires s' == s.(blocks := s.blocks[i := s'.blocks[i]], prod := s'.prod)
    requires s'.blocks[i].next == s.blocks[i].next && s'.blocks[i].items == s.blocks[i].items
    requires s'.blocks[i].seen == s.blocks[i].seen && s'.blocks[i].size == s.blocks[i].size
    requires !s.prod.PAdvance? && !s'.prod.PAdvance? && !s.prod.PSignal? && !s'.prod.PSignal?
    requires BlockOk(s'.blocks[i], Taken(s', i), Pending(s', i))
    requires forall j {:trigger Pending(s', j)} :: j != i ==> Pending(s', j) == Pending(s, j)
    requires RingOk(s') ==> ProdOk(s')
    ensures Inv(s')
  {
    hide RingOk, BlocksOk, FillOk, ProdOk, ConsOk, CreditsOk, Contents, BlockOk;
    ShapeKeeps(s, s');
    BlocksKeep(s, s', i);
    SameCons(s, s');
  }

  // The consumer's situation depends only on links, elements and what it has seen.
  lemma SameCons<T>(s: State<T>, s': State<T>)
    requires RingOk(s) && RingOk(s') && SameShape(s, s') && ConsOk(s) && CreditsOk(s)
    requires s'.cons == s.cons && s'.blocking == s.blocking && s'.holding == s.holding && s'.credits == s.credits
    requires s'.prod.PSignal? == s.prod.PSignal? && Contents(s') == Contents(s)
    requires forall i {:trigger s'.blocks[i]} :: i in s.blocks ==> s'.blocks[i].seen == s.blocks[i].seen
    ensures ConsOk(s') && CreditsOk(s')
  {
  }

  // The producer moves between program points that have written nothing.
  ghost predicate Uncommitted<T>(s: State<T>, p: Prod<T>)
    requires RingOk(s)
  {
    match p
    case PWrite(x) => HasRoom(s.blocks[s.tailBlock])
    case PNextFront(x, n) => IsNext(s, n)
    case _ => p.PIdle? || p.PLoadFront? || p.PCheckNext? || p.PAlloc?
  }

  lemma ProdMoves<T>(s: State<T>, p: Prod<T>)
    requires Inv(s) && Uncommitted(s, s.prod) && Uncommitted(s, p)
    ensures Inv(s.(prod := p))
  {
    hide FillOk, CreditsOk, ConsOk, Contents, BlockOk;
    var s', i := s.(prod := p), s.tailBlock;
    assert s.ring[s.tailPos] in s.blocks;
    assert BlockOk(s.blocks[i], Taken(s, i), Pending(s, i));
    assert s'.blocks == s.blocks[i := s'.blocks[i]];
    QuietProd(s, s', i);
  }

  lemma CallEnqKeeps<T>(s: State<T>, x: T, alloc: bool)
    requires Inv(s) && s.prod.PIdle?
    ensures Known(s) && Inv(CallEnq(s, x, alloc))
  {
    InvKnown(s);
    assert BlockOk(s.blocks[s.tailBlock], Taken(s, s.tailBlock), Pending(s, s.tailBlock));
    RoomTest(s.blocks[s.tailBlock], Taken(s, s.tailBlock));
    ProdMoves(s, CallEnq(s, x, alloc).prod);
  }

  // The room test against the stale front errs on the safe side.
  lemma RoomTest<T>(b: Block<T>, taken: bool)
    requires BlockOk(b, taken, None)
    ensures Inc(b.tail, b.size) != b.localFront <==> HasRoom(b)
  {
  }

  lemma ProdLoadFrontKeeps<T>(s: State<T>, addr: Id, ok: bool)
    requires Inv(s) && s.prod.PLoadFront?
    ensures Known(s) && Inv(ProdStep(s, addr, ok))
  {
    InvKnown(s);
    hide FillOk, CreditsOk, ConsOk, Contents, RingOk;
    var s', i := ProdStep(s, addr, ok), s.tailBlock;
    assert BlockOk(s.blocks[i], Taken(s, i), Pending(s, i));
    LoadFrontOk(s.blocks[i], Taken(s, i), None);
    RoomTest(LoadFront(s.blocks[i]), Taken(s, i));
    QuietProd(s, s', i);
  }

  lemma ProdCheckNextKeeps<T>(s: State<T>, addr: Id, ok: bool)
    requires Inv(s) && s.prod.PCheckNext?
    ensures Known(s) && Inv(ProdStep(s, addr, ok))
  {
    InvKnown(s);
    hide Inv;
    NextIsFreeInv(s);
    hide RingOk;
    ProdMoves(s, ProdStep(s, addr, ok).prod);
  }

  lemma NextIsFreeInv<T>(s: State<T>)
    requires Inv(s)
    ensures RingOk(s) && s.tailBlock in s.blocks && s.frontBlock in s.blocks
    ensures s.blocks[s.tailBlock].next != s.frontBlock <==> s.tailPos + 1 < |s.ring|
    ensures s.tailPos + 1 < |s.ring| ==> IsNext(s, s.blocks[s.tailBlock].next)
  {
    NextIsFree(s);
  }

  // The block after the tail block is the front block exactly when no block is free.
  lemma NextIsFree<T>(s: State<T>)
    requires RingOk(s)
    ensures s.tailBlock in s.blocks && s.frontBlock in s.blocks
    ensures s.blocks[s.tailBlock].next != s.frontBlock <==> s.tailPos + 1 < |s.ring|
    ensures s.tailPos + 1 < |s.ring| ==> IsNext(s, s.blocks[s.tailBlock].next)
  {
    assert LinkOk(s, s.tailPos);
  }

  lemma ProdWriteKeeps<T>(s: State<T>, addr: Id, ok: bool)
    requires Inv(s) && s.prod.PWrite?
    ensures Known(s) && Inv(ProdStep(s, addr, ok))
  {
    InvKnown(s);
    hide FillOk, CreditsOk, ConsOk, Contents;
    var s', i := ProdStep(s, addr, ok), s.tailBlock;
    assert BlockOk(s.blocks[i], Taken(s, i), Pending(s, i));
    WriteAtTailOk(s.blocks[i], Taken(s, i), s.prod.x);
    QuietProd(s, s', i);
  }

  lemma ProdNextFrontKeeps<T>(s: State<T>, addr: Id, ok: bool)
    requires Inv(s) && s.prod.PNextFront?
    ensures Known(s) && Inv(ProdStep(s, addr, ok))
  {
    hide RingOk, BlocksOk, FillOk, CreditsOk, ConsOk, Contents;
    InvKnown(s);
    var s', i := ProdStep(s, addr, ok), s.prod.n;
    BlockIsOk(s, i);
    hide BlockOk, Known;
    LoadFrontOk(s.blocks[i], Taken(s, i), None);
    QuietProd(s, s', i);
  }

  lemma NextFacts<T>(s: State<T>)
    requires RingOk(s) && BlocksOk(s) && FillOk(s) && ProdOk(s)
    requires s.prod.PNextWrite? || s.prod.PNextTail?
    ensures IsNext(s, s.prod.n) && s.prod.n in s.blocks
    ensures s.blocks[s.prod.n].items == [] && s.blocks[s.prod.n].slack == 0
    ensures BlockOk(s.blocks[s.prod.n], Taken(s, s.prod.n), Pending(s, s.prod.n))
  {
    assert s.ring[s.tailPos + 1] in s.blocks;
    assert BlockOk(s.blocks[s.prod.n], Taken(s, s.prod.n), Pending(s, s.prod.n));
  }

  lemma NextRoom<T>(b: Block<T>, taken: bool)
    requires BlockOk(b, taken, None) && b.items == [] && b.slack == 0
    ensures CanWrite(b)
  {
  }

  lemma ProdNextWriteKeeps<T>(s: State<T>, addr: Id, ok: bool)
    requires Inv(s) && s.prod.PNextWrite?
    ensures Known(s) && Inv(ProdStep(s, addr, ok))
  {
    hide RingOk, BlocksOk, FillOk, CreditsOk, ConsOk, Contents;
    InvKnown(s);
    NextFacts(s);
    var s', i := ProdStep(s, addr, ok), s.prod.n;
    NextRoom(s.blocks[i], Taken(s, i));
    WriteAtTailOk(s.blocks[i], Taken(s, i), s.prod.x);
    hide BlockOk, Known;
    QuietProd(s, s', i);
  }

  // Publishing an element in the tail block appends it to the queue.
  lemma ProdStoreTailKeeps<T>(s: State<T>, addr: Id, ok: bool)
    requires Inv(s) && s.prod.PStoreTail?
    ensures Known(s) && Inv(ProdStep(s, addr, ok))
  {
    hide RingOk, BlocksOk, FillOk, ConsOk, Contents;
    InvKnown(s);
    assert s.tailBlock in s.blocks && HasRoom(s.blocks[s.tailBlock]);
    var s', x := ProdStep(s, addr, ok), s.prod.x;
    ManySized(s.blocks[s.tailBlock]);
    hide ProdOk, Known, HasRoom;
    TailGrows(s, s', x);
    StoreTailBlocks(s, s');
    ConsGrows(s, s');
    DoneOk(s');
  }

  lemma ManySized<T>(b: Block<T>)
    requires HasRoom(b)
    ensures b.size != 1
  {
  }

  lemma DoneOk<T>(s: State<T>)
    requires RingOk(s) && s.prod == Done(s)
    ensures ProdOk(s)
  {
  }

  lemma StoreTailBlocks<T>(s: State<T>, s': State<T>)
    requires s.tailBlock in s.blocks && BlocksOk(s) && s.prod.PStoreTail?
    requires HasRoom(s.blocks[s.tailBlock])
    requires s'.blocks == s.blocks[s.tailBlock := BumpTail(s.blocks[s.tailBlock], s.prod.x)]
    requires s'.frontBlock == s.frontBlock && s'.cons == s.cons && (s'.prod.PIdle? || s'.prod.PSignal?)
    ensures BlocksOk(s')
  {
    var i := s.tailBlock;
    assert BlockOk(s.blocks[i], Taken(s, i), Pending(s, i));
    BumpTailOk(s.blocks[i], Taken(s, i), s.prod.x);
    BlocksKeep(s, s', i);
  }

  // Appending to the tail block never takes anything away from the consumer.
  lemma ConsGrows<T>(s: State<T>, s': State<T>)
    requires RingOk(s) && RingOk(s') && ConsOk(s) && s.tailBlock in s.blocks
    requires s'.ring == s.ring && s'.tailPos == s.tailPos && s'.frontBlock == s.frontBlock && s'.cons == s.cons
    requires s'.blocking == s.blocking && s.prod.PStoreTail?
    requires s'.blocks == s.blocks[s.tailBlock := BumpTail(s.blocks[s.tailBlock], s.prod.x)]
    ensures ConsOk(s')
  {
  }

  lemma TailGrows<T>(s: State<T>, s': State<T>, x: T)
    requires RingOk(s) && FillOk(s) && !s.prod.PAdvance? && !s'.prod.PAdvance?
    requires s'.ring == s.ring && s'.tailPos == s.tailPos && s'.frontBlock == s.frontBlock && s'.tailBlock == s.tailBlock
    requires s'.blocks == s.blocks[s.tailBlock := BumpTail(s.blocks[s.tailBlock], x)]
    ensures RingOk(s') && FillOk(s') && Contents(s') == Contents(s) + [x]
  {
    forall i | 0 <= i < |s'.ring| ensures LinkOk(s', i) {
      assert LinkOk(s, i);
    }
    forall i | i in s.ring[..s.tailPos] ensures i in s.blocks && i != s.tailBlock {
      var k :| 0 <= k < s.tailPos && s.ring[k] == i;
    }
    CatFrame(s.blocks, s'.blocks, s.ring[..s.tailPos]);
    ContentsTail(s);
    ContentsTail(s');
  }

  // The free block ahead receives the element before the producer advances to it.
  lemma ProdNextTailKeeps<T>(s: State<T>, addr: Id, ok: bool)
    requires Inv(s) && s.prod.PNextTail?
    ensures Known(s) && Inv(ProdStep(s, addr, ok))
  {
    hide RingOk, BlocksOk, FillOk, ConsOk, Contents;
    InvKnown(s);
    var s' := ProdStep(s, addr, ok);
    NextFacts(s);
    hide ProdOk, IsNext, Known;
    NextTailRing(s, s');
    NextTailBlocks(s, s');
    NextTailCons(s, s');
  }

  lemma NextTailRing<T>(s: State<T>, s': State<T>)
    requires RingOk(s) && FillOk(s) && s.prod.PNextTail? && IsNext(s, s.prod.n)
    requires s' == s.(blocks := s.blocks[s.prod.n := BumpTail(s.blocks[s.prod.n], s.prod.x)],
                      prod := PAdvance(s.prod.x, s.prod.n))
    ensures RingOk(s') && FillOk(s') && ProdOk(s') && Contents(s') == Contents(s)
  {
    var n := s.prod.n;
    forall i | 0 <= i < |s'.ring| ensures LinkOk(s', i) {
      assert LinkOk(s, i);
    }
    forall i | i in s.ring[..s.tailPos + 1] ensures i in s.blocks && i != n {
      var k :| 0 <= k < s.tailPos + 1 && s.ring[k] == i;
    }
    CatFrame(s.blocks, s'.blocks, s.ring[..s.tailPos + 1]);
  }

  lemma NextTailBlocks<T>(s: State<T>, s': State<T>)
    requires s.prod.PNextTail? && s.prod.n in s.blocks && BlocksOk(s)
    requires s.blocks[s.prod.n].items == [] && s.blocks[s.prod.n].slack == 0
    requires s' == s.(blocks := s.blocks[s.prod.n := BumpTail(s.blocks[s.prod.n], s.prod.x)],
                      prod := PAdvance(s.prod.x, s.prod.n))
    ensures BlocksOk(s')
  {
    var n := s.prod.n;
    assert BlockOk(s.blocks[n], Taken(s, n), Pending(s, n));
    BumpTailOk(s.blocks[n], Taken(s, n), s.prod.x);
    BlocksKeep(s, s', n);
  }

  lemma NextTailCons<T>(s: State<T>, s': State<T>)
    requires RingOk(s) && RingOk(s') && ConsOk(s) && s.prod.PNextTail? && IsNext(s, s.prod.n)
    requires s' == s.(blocks := s.blocks[s.prod.n := BumpTail(s.blocks[s.prod.n], s.prod.x)],
                      prod := PAdvance(s.prod.x, s.prod.n))
    ensures ConsOk(s')
  {
  }

  // Advancing tailBlock makes the element visible: this is where it joins the queue.
  lemma ProdAdvanceKeeps<T>(s: State<T>, addr: Id, ok: bool)
    requires Inv(s) && s.prod.PAdvance?
    ensures Known(s) && Inv(ProdStep(s, addr, ok))
  {
    hide RingOk, BlocksOk, FillOk, ProdOk, ConsOk, Contents, IsNext;
    InvKnown(s);
    AdvanceFact(s);
    var s' := ProdStep(s, addr, ok);
    hide Known;
    AdvanceRing(s, s');
    AdvanceCons(s, s');
    SamePending(s, s');
  }

  lemma SamePending<T>(s: State<T>, s': State<T>)
    requires BlocksOk(s) && s'.blocks == s.blocks
    requires forall j {:trigger Taken(s', j)} :: j in s.blocks ==> Taken(s', j) == Taken(s, j)
    requires forall j {:trigger Pending(s', j)} :: j in s.blocks ==> Pending(s', j) == Pending(s, j)
    ensures BlocksOk(s')
  {
    forall j | j in s'.blocks ensures BlockOk(s'.blocks[j], Taken(s', j), Pending(s', j)) {
      assert BlockOk(s.blocks[j], Taken(s, j), Pending(s, j));
      assert Taken(s', j) == Taken(s, j) && Pending(s', j) == Pending(s, j);
    }
  }

  lemma AdvanceRing<T>(s: State<T>, s': State<T>)
    requires RingOk(s) && FillOk(s) && s.prod.PAdvance? && IsNext(s, s.prod.n)
    requires s' == s.(tailBlock := s.prod.n, tailPos := s.tailPos + 1, prod := Done(s),
                      enqueued := s.enqueued + [s.prod.x])
    ensures RingOk(s') && FillOk(s') && ProdOk(s') && Contents(s') == Contents(s) + [s.prod.x]
  {
    forall i | 0 <= i < |s'.ring| ensures LinkOk(s', i) {
      assert LinkOk(s, i);
    }
    ContentsTail(s');
    assert s'.ring[..s'.tailPos] == s.ring[..s.tailPos + 1];
  }

  lemma AdvanceCons<T>(s: State<T>, s': State<T>)
    requires RingOk(s) && RingOk(s') && ConsOk(s) && s.prod.PAdvance?
    requires s' == s.(tailBlock := s.prod.n, tailPos := s.tailPos + 1, prod := Done(s),
                      enqueued := s.enqueued + [s.prod.x])
    ensures ConsOk(s')
  {
  }

  // A new block is private to the producer until it is linked in.
  lemma ProdAllocKeeps<T>(s: State<T>, addr: Id, ok: bool)
    requires Inv(s) && s.prod.PAlloc? && addr !in s.blocks
    ensures Known(s) && Inv(ProdStep(s, addr, ok))
  {
    InvKnown(s);
    if !ok {
      ProdMoves(s, PIdle);
    } else {
      var s' := ProdStep(s, addr, ok);
      hide RingOk, BlocksOk, FillOk, ConsOk, Contents;
      AllocRing(s, s', addr);
      AllocBlocks(s, s', addr);
    }
  }

  lemma AllocRing<T>(s: State<T>, s': State<T>, addr: Id)
    requires RingOk(s) && FillOk(s) && ConsOk(s) && s.prod.PAlloc? && addr !in s.blocks
    requires s.tailBlock in s.blocks
    requires s' == s.(blocks := s.blocks[addr := NewBlock(NewSize(s), s.blocks[s.tailBlock].next, s.prod.x)],
                      largest := NewSize(s), prod := PLink(s.prod.x, addr))
    ensures RingOk(s') && FillOk(s') && ProdOk(s') && ConsOk(s') && Contents(s') == Contents(s)
  {
    forall i | 0 <= i < |s'.ring| ensures LinkOk(s', i) {
      assert LinkOk(s, i);
    }
    CatFrame(s.blocks, s'.blocks, s.ring[..s.tailPos + 1]);
  }

  lemma AllocBlocks<T>(s: State<T>, s': State<T>, addr: Id)
    requires BlocksOk(s) && s.prod.PAlloc? && addr !in s.blocks && s.frontBlock in s.blocks
    requires s.tailBlock in s.blocks && NewSize(s) >= 2
    requires s' == s.(blocks := s.blocks[addr := NewBlock(NewSize(s), s.blocks[s.tailBlock].next, s.prod.x)],
                      largest := NewSize(s), prod := PLink(s.prod.x, addr))
    ensures BlocksOk(s')
  {
    BlocksKeep(s, s', addr);
  }

  lemma ProdLinkKeeps<T>(s: State<T>, addr: Id, ok: bool)
    requires Inv(s) && s.prod.PLink?
    ensures Known(s) && Inv(ProdStep(s, addr, ok))
  {
    InvKnown(s);
    var s' := ProdStep(s, addr, ok);
    hide RingOk, BlocksOk, FillOk, ConsOk, Contents;
    LinkRing(s, s');
    LinkFill(s, s');
    LinkBlocks(s, s');
  }

  lemma InsertAt(ring: seq<Id>, at: nat, n: Id)
    requires at <= |ring|
    ensures |Insert(ring, at, n)| == |ring| + 1
    ensures forall i {:trigger Insert(ring, at, n)[i]} :: 0 <= i <= |ring| ==>
              Insert(ring, at, n)[i] == if i < at then ring[i] else if i == at then n else ring[i - 1]
  {
  }

  ghost predicate Linked<T>(s: State<T>, s': State<T>) {
    && s.prod.PLink? && s.prod.n in s.blocks && s.prod.n !in s.ring && s.tailBlock in s.blocks
    && s.blocks[s.prod.n].next == s.blocks[s.tailBlock].next
    && s' == s.(blocks := s.blocks[s.tailBlock := s.blocks[s.tailBlock].(next := s.prod.n)],
                ring := Insert(s.ring, s.tailPos + 1, s.prod.n), prod := PAdvance(s.prod.x, s.prod.n))
  }

  lemma LinkRing<T>(s: State<T>, s': State<T>)
    requires RingOk(s) && Linked(s, s')
    ensures RingOk(s') && ProdOk(s')
  {
    hide LinkOk, Insert;
    InsertAt(s.ring, s.tailPos + 1, s.prod.n);
    InsertDistinct(s.ring, s.tailPos + 1, s.prod.n);
    LinkAll(s, s');
  }

  lemma LinkAll<T>(s: State<T>, s': State<T>)
    requires RingOk(s) && Linked(s, s')
    ensures forall i {:trigger s'.ring[i]} :: 0 <= i < |s'.ring| ==> s'.ring[i] in s'.blocks
    ensures forall i {:trigger LinkOk(s', i)} :: 0 <= i < |s'.ring| ==> LinkOk(s', i)
  {
    forall i | 0 <= i < |s'.ring| ensures s'.ring[i] in s'.blocks && LinkOk(s', i) {
      hide *;
      LinkInserted(s, s', i);
    }
  }

  lemma InsertDistinct(ring: seq<Id>, at: nat, n: Id)
    requires at <= |ring| && n !in ring && forall i, j :: 0 <= i < j < |ring| ==> ring[i] != ring[j]
    ensures var r := Insert(ring, at, n); forall i, j :: 0 <= i < j < |r| ==> r[i] != r[j]
  {
  }

  lemma LinkInserted<T>(s: State<T>, s': State<T>, i: nat)
    requires RingOk(s) && Linked(s, s') && i < |s'.ring|
    ensures s'.ring[i] in s'.blocks && LinkOk(s', i)
  {
    var at := s.tailPos + 1;
    InsertAt(s.ring, at, s.prod.n);
    if i < at {
      assert LinkOk(s, i);
    } else if i == at {
      assert LinkOk(s, s.tailPos);
    } else {
      assert LinkOk(s, i - 1);
    }
  }

  lemma LinkFill<T>(s: State<T>, s': State<T>)
    requires RingOk(s) && RingOk(s') && FillOk(s) && ConsOk(s) && s.prod.PLink?
    requires s.prod.n in s.blocks && s.prod.n !in s.ring && s.blocks[s.prod.n].items == [s.prod.x]
    requires s.tailBlock in s.blocks
    requires s' == s.(blocks := s.blocks[s.tailBlock := s.blocks[s.tailBlock].(next := s.prod.n)],
                      ring := Insert(s.ring, s.tailPos + 1, s.prod.n), prod := PAdvance(s.prod.x, s.prod.n))
    ensures FillOk(s') && ConsOk(s') && Contents(s') == Contents(s)
  {
    var at := s.tailPos + 1;
    forall i | 1 <= i < |s'.ring|
      ensures if i <= s.tailPos then s'.blocks[s'.ring[i]].items != []
              else s'.blocks[s'.ring[i]].items == (if s'.ring[i] == s.prod.n then [s.prod.x] else [])
    {
      assert s'.ring[i] == if i < at then s.ring[i] else if i == at then s.prod.n else s.ring[i - 1];
    }
    assert s'.ring[..at] == s.ring[..at];
    CatFrame(s.blocks, s'.blocks, s.ring[..at]);
  }

  lemma LinkBlocks<T>(s: State<T>, s': State<T>)
    requires BlocksOk(s) && s.prod.PLink? && s.tailBlock in s.blocks
    requires s' == s.(blocks := s.blocks[s.tailBlock := s.blocks[s.tailBlock].(next := s.prod.n)],
                      ring := Insert(s.ring, s.tailPos + 1, s.prod.n), prod := PAdvance(s.prod.x, s.prod.n))
    ensures BlocksOk(s')
  {
    var t := s.tailBlock;
    assert BlockOk(s.blocks[t], Taken(s, t), Pending(s, t));
    assert BlockOk(s'.blocks[t], Taken(s', t), Pending(s', t)) by { SameView(s.blocks[t], s'.blocks[t], Taken(s, t), None); }
    BlocksKeep(s, s', t);
  }

  lemma SameView<T>(b: Block<T>, b': Block<T>, taken: bool, pending: Option<T>)
    requires BlockOk(b, taken, pending) && b' == b.(next := b'.next)
    ensures BlockOk(b', taken, pending)
  {
  }

  lemma ProdSignalKeeps<T>(s: State<T>, addr: Id, ok: bool)
    requires Inv(s) && s.prod.PSignal?
    ensures Known(s) && Inv(ProdStep(s, addr, ok))
  {
    InvKnown(s);
    var s' := ProdStep(s, addr, ok);
    assert SameShape(s, s');
    ShapeKeeps(s, s');
    hide RingOk, BlocksOk, FillOk, Contents;
    SamePending(s, s');
  }

  // ---- the consumer's steps --------------------------------------------------------------------

  // What the producer relies on: links, elements, and the room it has seen.
  lemma SameProd<T>(s: State<T>, s': State<T>)
    requires RingOk(s) && RingOk(s') && SameShape(s, s') && ProdOk(s) && s'.prod == s.prod && s'.blocking == s.blocking
    requires forall i {:trigger s'.blocks[i]} :: i in s.blocks ==>
               s'.blocks[i].size == s.blocks[i].size && s'.blocks[i].slack == s.blocks[i].slack
    ensures ProdOk(s')
  {
  }

  ghost predicate SameRoom<T>(b: Block<T>, b': Block<T>) {
    b'.next == b.next && b'.items == b.items && b'.size == b.size && b'.slack == b.slack
  }

  // A consumer step that removes nothing: it may change its own view of block i and claim a credit.
  lemma QuietCons<T>(s: State<T>, s': State<T>, i: Id)
    requires Inv(s) && i in s.blocks && i in s'.blocks && SameRoom(s.blocks[i], s'.blocks[i])
    requires s' == s.(blocks := s.blocks[i := s'.blocks[i]], cons := s'.cons, result := s'.result,
                      credits := s'.credits, holding := s'.holding)
    requires BlockOk(s'.blocks[i], Taken(s', i), Pending(s', i))
    requires forall j {:trigger Taken(s', j)} :: j != i ==> Taken(s', j) == Taken(s, j)
    requires RingOk(s') && Contents(s') == Contents(s) ==> ConsOk(s') && CreditsOk(s')
    requires FrontOk(s')
    ensures Inv(s')
  {
    hide RingOk, BlocksOk, FillOk, ProdOk, ConsOk, CreditsOk, Contents, BlockOk, Taken;
    ShapeKeeps(s, s');
    SameProd(s, s');
    BlocksKeep(s, s', i);
  }

  lemma FrontKnown<T>(s: State<T>)
    requires RingOk(s) && BlocksOk(s)
    ensures s.frontBlock in s.blocks
    ensures BlockOk(s.blocks[s.frontBlock], Taken(s, s.frontBlock), Pending(s, s.frontBlock))
  {
    assert s.ring[0] in s.blocks;
    assert BlockOk(s.blocks[s.frontBlock], Taken(s, s.frontBlock), Pending(s, s.frontBlock));
  }

  // The shadow copy of the tail never promises an element that is not there.
  lemma SeenTest<T>(b: Block<T>, taken: bool, pending: Option<T>)
    requires BlockOk(b, taken, pending) && (b.size == 1 ==> b.items == [])
    ensures b.front != b.localTail <==> b.seen >= 1
    ensures b.front != b.tail <==> b.items != []
  {
  }

  lemma CallConsKeeps<T>(s: State<T>, op: Op)
    requires Inv(s) && s.cons.CIdle? && (s.blocking && op == Dequeue ==> s.credits > 0)
    ensures Known(s) && Inv(CallCons(s, op))
  {
    hide RingOk, FillOk, BlockOk, ProdOk, BlocksOk, Contents;
    InvKnown(s);
    FrontKnown(s);
    var f := s.frontBlock;
    var s' := CallCons(s, op);
    SeenTest(s.blocks[f], false, Pending(s, f));
    SeenBound(s.blocks[f], false, Pending(s, f));
    assert s'.blocks == s.blocks[f := s.blocks[f]];
    hide Known;
    QuietCons(s, s', f);
  }

  lemma SeenBound<T>(b: Block<T>, taken: bool, pending: Option<T>)
    requires BlockOk(b, taken, pending)
    ensures b.seen <= |b.items|
  {
  }

  lemma ConsLoadTailKeeps<T>(s: State<T>)
    requires Inv(s) && s.cons.CLoadTail?
    ensures Known(s) && Inv(ConsStep(s))
  {
    InvKnown(s);
    FrontKnown(s);
    ContentsFront(s);
    hide RingOk, FillOk, BlockOk, ProdOk, BlocksOk, Contents, Known;
    var f, s' := s.frontBlock, ConsStep(s);
    LoadTailOk(s.blocks[f], false, Pending(s, f));
    LoadTailSees(s, s');
    QuietCons(s, s', f);
  }

  lemma LoadTailSees<T>(s: State<T>, s': State<T>)
    requires s.cons.CLoadTail? && Known(s) && s' == ConsStep(s) && RingOk(s)
    requires CreditsOk(s) && s.blocks[s.frontBlock].items <= Contents(s)
    requires s.tailPos == 0 ==> Contents(s) == s.blocks[s.frontBlock].items
    requires s.blocks[s.frontBlock].front != s.blocks[s.frontBlock].tail <==> s.blocks[s.frontBlock].items != []
    ensures RingOk(s') && Contents(s') == Contents(s) ==> ConsOk(s') && CreditsOk(s')
  {
    hide RingOk, Contents;
  }

  lemma ConsLoadTailBlockKeeps<T>(s: State<T>)
    requires Inv(s) && s.cons.CLoadTailBlock?
    ensures Known(s) && Inv(ConsStep(s))
  {
    InvKnown(s);
    FrontKnown(s);
    assert s.tailPos >= 1 <==> s.frontBlock != s.tailBlock;
    hide RingOk, FillOk, BlockOk, ProdOk, BlocksOk, Contents;
    var f, s' := s.frontBlock, ConsStep(s);
    assert s'.blocks == s.blocks[f := s.blocks[f]];
    QuietCons(s, s', f);
  }

  lemma ConsReloadTailKeeps<T>(s: State<T>)
    requires Inv(s) && s.cons.CReloadTail?
    ensures Known(s) && Inv(ConsStep(s))
  {
    hide RingOk, FillOk, BlockOk, ProdOk, BlocksOk, Contents;
    InvKnown(s);
    FrontKnown(s);
    var f, s' := s.frontBlock, ConsStep(s);
    LoadTailOk(s.blocks[f], false, Pending(s, f));
    hide Known;
    QuietCons(s, s', f);
  }

  lemma ConsNextKeeps<T>(s: State<T>)
    requires Inv(s) && s.cons.CNext?
    ensures Known(s) && Inv(ConsStep(s))
  {
    InvKnown(s);
    FrontKnown(s);
    assert LinkOk(s, 0);
    hide RingOk, FillOk, BlockOk, ProdOk, BlocksOk, Contents;
    var f, s' := s.frontBlock, ConsStep(s);
    assert s'.blocks == s.blocks[f := s.blocks[f]];
    QuietCons(s, s', f);
  }

  // The block after an empty front block that is not the tail block holds an element.
  lemma NextHasItem<T>(s: State<T>)
    requires RingOk(s) && FillOk(s) && BlocksOk(s) && s.tailPos >= 1 && !s.cons.CStoreFront?
    ensures s.ring[1] in s.blocks && s.ring[1] != s.frontBlock && s.blocks[s.ring[1]].items != []
    ensures BlockOk(s.blocks[s.ring[1]], false, Pending(s, s.ring[1]))
  {
    assert s.ring[1] in s.blocks;
    assert BlockOk(s.blocks[s.ring[1]], Taken(s, s.ring[1]), Pending(s, s.ring[1]));
  }

  lemma ConsNextTailKeeps<T>(s: State<T>)
    requires Inv(s) && s.cons.CNextTail?
    ensures Known(s) && Inv(ConsStep(s))
  {
    hide RingOk, FillOk, BlockOk, ProdOk, BlocksOk, Contents;
    InvKnown(s);
    NextHasItem(s);
    var n, s' := s.cons.n, ConsStep(s);
    LoadTailOk(s.blocks[n], false, Pending(s, n));
    assert s'.blocks == s.blocks[n := s'.blocks[n]];
    hide Known;
    QuietCons(s, s', n);
  }

  // Advancing frontBlock hands the empty block to the producer.
  lemma ConsAdvanceKeeps<T>(s: State<T>)
    requires Inv(s) && s.cons.CAdvance?
    ensures Known(s) && Inv(ConsStep(s))
  {
    hide RingOk, BlocksOk, FillOk, ProdOk, Contents;
    InvKnown(s);
    FrontKnown(s);
    var s' := ConsStep(s);
    hide Known;
    AdvanceFact(s);
    RotateRing(s, s');
    RotateFill(s, s');
    RotateProd(s, s');
    SamePending(s, s');
  }

  lemma AdvanceFact<T>(s: State<T>)
    requires RingOk(s) && ProdOk(s)
    ensures s.prod.PAdvance? ==> IsNext(s, s.prod.n)
  {
  }

  lemma RotateRing<T>(s: State<T>, s': State<T>)
    requires RingOk(s) && s.tailPos >= 1
    requires s'.blocks == s.blocks && s'.ring == Rotate(s.ring) && s'.tailPos == s.tailPos - 1
    requires s'.frontBlock == s.ring[1] && s'.tailBlock == s.tailBlock
    ensures RingOk(s')
  {
    var n := |s.ring|;
    forall i | 0 <= i < n ensures s'.ring[i] == s.ring[Inc(i, n)] && s'.ring[i] in s'.blocks {
      assert s.ring[Inc(i, n)] in s.blocks;
    }
    forall i | 0 <= i < n ensures LinkOk(s', i) {
      assert LinkOk(s, Inc(i, n));
      assert s'.ring[Inc(i, n)] == s.ring[Inc(Inc(i, n), n)];
    }
  }

  lemma RotateFill<T>(s: State<T>, s': State<T>)
    requires RingOk(s) && FillOk(s) && s.tailPos >= 1 && s.blocks[s.frontBlock].items == [] && RingOk(s')
    requires s.prod.PAdvance? ==> IsNext(s, s.prod.n)
    requires s'.blocks == s.blocks && s'.ring == Rotate(s.ring) && s'.tailPos == s.tailPos - 1 && s'.prod == s.prod
    requires s'.frontBlock == s.ring[1] && s'.tailBlock == s.tailBlock
    ensures FillOk(s') && Contents(s') == Contents(s)
  {
    forall i | 0 <= i < |s.ring| ensures s'.ring[i] == s.ring[Inc(i, |s.ring|)] {
    }
    ContentsSplit(s);
    assert s'.ring[..s'.tailPos + 1] == s.ring[1..s.tailPos + 1];
  }

  lemma RotateProd<T>(s: State<T>, s': State<T>)
    requires RingOk(s) && ProdOk(s) && s.tailPos >= 1 && RingOk(s')
    requires s'.blocks == s.blocks && s'.ring == Rotate(s.ring) && s'.tailPos == s.tailPos - 1 && s'.prod == s.prod
    requires s'.tailBlock == s.tailBlock && s'.blocking == s.blocking
    ensures ProdOk(s')
  {
    if s.tailPos + 1 < |s.ring| {
      assert s'.ring[s.tailPos] == s.ring[s.tailPos + 1];
    }
    if s.prod.PLink? {
      assert forall i :: i in s'.ring ==> i in s.ring;
    }
  }

  lemma ConsTakeKeeps<T>(s: State<T>)
    requires Inv(s) && s.cons.CTake?
    ensures Known(s) && Inv(ConsStep(s))
    ensures ConsStep(s).cons.CStoreFront?
  {
    hide RingOk, FillOk, BlockOk, ProdOk, BlocksOk, Contents;
    InvKnown(s);
    FrontKnown(s);
    var f := s.frontBlock;
    TakeOk(s.blocks[f], Pending(s, f));
    QuietCons(s, ConsStep(s), f);
  }

  // Storing the new front removes the first element of the queue.
  lemma ConsStoreFrontKeeps<T>(s: State<T>)
    requires Inv(s) && s.cons.CStoreFront?
    ensures Known(s) && Inv(ConsStep(s))
    ensures Contents(s) == [s.cons.x] + Contents(ConsStep(s))
  {
    hide RingOk, BlocksOk, FillOk, ProdOk, Contents, BlockOk;
    InvKnown(s);
    FrontKnown(s);
    var f, s' := s.frontBlock, ConsStep(s);
    StoreFrontOk(s.blocks[f], Pending(s, f));
    assert s'.blocks == s.blocks[f := s'.blocks[f]];
    hide Known;
    FrontShrinks(s, s');
    SlackGrows(s, s');
    BlocksKeep(s, s', f);
  }

  lemma BehindFront<T>(s: State<T>)
    requires RingOk(s)
    ensures forall i :: i in s.ring[1..s.tailPos + 1] ==> i in s.blocks && i != s.frontBlock
  {
    forall i | i in s.ring[1..s.tailPos + 1] ensures i in s.blocks && i != s.frontBlock {
      var k :| 1 <= k < s.tailPos + 1 && s.ring[k] == i;
    }
  }

  ghost predicate FrontPopped<T>(s: State<T>, s': State<T>) {
    && s.frontBlock in s.blocks && s.blocks[s.frontBlock].items != []
    && s.frontBlock in s'.blocks && s'.blocks == s.blocks[s.frontBlock := s'.blocks[s.frontBlock]]
    && s'.blocks[s.frontBlock].next == s.blocks[s.frontBlock].next
    && s'.blocks[s.frontBlock].items == s.blocks[s.frontBlock].items[1..]
    && s'.ring == s.ring && s'.tailPos == s.tailPos && s'.prod == s.prod
    && s'.frontBlock == s.frontBlock && s'.tailBlock == s.tailBlock
  }

  lemma FrontShrinks<T>(s: State<T>, s': State<T>)
    requires RingOk(s) && FillOk(s) && FrontPopped(s, s')
    ensures RingOk(s') && FillOk(s')
    ensures Contents(s) == [s.blocks[s.frontBlock].items[0]] + Contents(s')
  {
    hide RingOk, FillOk, Contents;
    FrontRing(s, s');
    var items, rest := s.blocks[s.frontBlock].items, Cat(s.blocks, s.ring[1..s.tailPos + 1]);
    ContentsSplit(s);
    ContentsSplit(s');
    BehindFront(s);
    CatFrame(s.blocks, s'.blocks, s.ring[1..s.tailPos + 1]);
    assert Contents(s') == items[1..] + rest;
    hide *;
    assert items + rest == [items[0]] + (items[1..] + rest);
  }

  lemma FrontRing<T>(s: State<T>, s': State<T>)
    requires RingOk(s) && FillOk(s) && FrontPopped(s, s')
    ensures RingOk(s') && FillOk(s')
  {
    forall i | 0 <= i < |s'.ring| ensures LinkOk(s', i) {
      assert LinkOk(s, i);
    }
  }

  // Room the producer has not seen yet changes nothing for it.
  lemma SlackGrows<T>(s: State<T>, s': State<T>)
    requires RingOk(s) && RingOk(s') && ProdOk(s) && s.frontBlock in s.blocks && s.blocks[s.frontBlock].items != []
    requires s.frontBlock in s'.blocks && s'.blocks == s.blocks[s.frontBlock := s'.blocks[s.frontBlock]]
    requires var b, b' := s.blocks[s.frontBlock], s'.blocks[s.frontBlock];
             b'.next == b.next && b'.items == b.items[1..] && b'.slack == b.slack + 1 && b'.size == b.size
    requires s'.ring == s.ring && s'.tailPos == s.tailPos && s'.prod == s.prod && s'.blocking == s.blocking
    requires s'.frontBlock == s.frontBlock && s'.tailBlock == s.tailBlock
    ensures ProdOk(s')
  {
    assert s.ring[0] == s.frontBlock;
  }

  lemma ConsLookKeeps<T>(s: State<T>)
    requires Inv(s) && s.cons.CLook?
    ensures Known(s) && Inv(ConsStep(s))
    ensures Contents(s) != [] && ConsStep(s).result == Some(Contents(s)[0])
  {
    InvKnown(s);
    FrontKnown(s);
    LookSees(s);
    hide RingOk, FillOk, BlockOk, ProdOk, BlocksOk, Contents;
    var f, s' := s.frontBlock, ConsStep(s);
    assert s'.blocks == s.blocks[f := s.blocks[f]];
    QuietCons(s, s', f);
  }

  lemma LookSees<T>(s: State<T>)
    requires RingOk(s) && FillOk(s) && BlocksOk(s) && ConsOk(s) && s.cons.CLook? && s.cons.n in s.blocks
    ensures Contents(s) != []
    ensures var b := s.blocks[s.cons.n]; b.front < |b.data| && b.data[b.front] == Some(Contents(s)[0])
  {
    ContentsSplit(s);
    if s.cons.n == s.frontBlock && s.blocks[s.frontBlock].items != [] {
      FrontKnown(s);
      FrontSlot(s.blocks[s.cons.n], Pending(s, s.cons.n));
    } else {
      NextHasItem(s);
      FrontSlot(s.blocks[s.cons.n], Pending(s, s.cons.n));
      assert s.ring[1..s.tailPos + 1][0] == s.ring[1];
    }
  }

  lemma FrontSlot<T>(b: Block<T>, pending: Option<T>)
    requires BlockOk(b, false, pending) && b.items != []
    ensures b.front < |b.data| && b.data[b.front] == Some(b.items[0])
  {
    if b.size != 1 {
      assert Adv(b.front, 0, b.size) == b.front;
      assert b.data[Adv(b.front, 0, b.size)] == Slot(b.items, false, pending, 0);
    }
  }

  // ---- every step keeps the invariant ----------------------------------------------------------

  lemma ApplyKeeps<T>(s: State<T>, a: Action<T>)
    requires Inv(s) && Enabled(s, a)
    ensures Known(s) && Inv(Apply(s, a))
  {
    InvKnown(s);
    hide Inv, Known, CallEnq, ProdStep, CallCons, ConsStep;
    match a
    case CallEnqueue(x, alloc) => CallEnqKeeps(s, x, alloc);
    case CallConsumer(op) => CallConsKeeps(s, op);
    case RunProd(addr, ok) => ProdKeeps(s, addr, ok);
    case RunCons => ConsKeeps(s);
  }

  lemma ProdKeeps<T>(s: State<T>, addr: Id, ok: bool)
    requires Inv(s) && !s.prod.PIdle? && (s.prod.PAlloc? ==> addr !in s.blocks)
    ensures Known(s) && Inv(ProdStep(s, addr, ok))
  {
    hide Inv, Known, ProdStep;
    match s.prod
    case PLoadFront(_, _) => ProdLoadFrontKeeps(s, addr, ok);
    case PCheckNext(_, _) => ProdCheckNextKeeps(s, addr, ok);
    case PWrite(_) => ProdWriteKeeps(s, addr, ok);
    case PStoreTail(_) => ProdStoreTailKeeps(s, addr, ok);
    case PNextFront(_, _) => ProdNextFrontKeeps(s, addr, ok);
    case PNextWrite(_, _) => ProdNextWriteKeeps(s, addr, ok);
    case PNextTail(_, _) => ProdNextTailKeeps(s, addr, ok);
    case PAdvance(_, _) => ProdAdvanceKeeps(s, addr, ok);
    case PAlloc(_) => ProdAllocKeeps(s, addr, ok);
    case PLink(_, _) => ProdLinkKeeps(s, addr, ok);
    case PSignal => ProdSignalKeeps(s, addr, ok);
  }

  lemma ConsKeeps<T>(s: State<T>)
    requires Inv(s) && !s.cons.CIdle?
    ensures Known(s) && Inv(ConsStep(s))
  {
    hide Inv, Known, ConsStep;
    match s.cons
    case CLoadTail(_) => ConsLoadTailKeeps(s);
    case CLoadTailBlock(_, _) => ConsLoadTailBlockKeeps(s);
    case CReloadTail(_) => ConsReloadTailKeeps(s);
    case CNext(_) => ConsNextKeeps(s);
    case CNextTail(_, _) => ConsNextTailKeeps(s);
    case CAdvance(_) => ConsAdvanceKeeps(s);
    case CTake => ConsTakeKeeps(s);
    case CStoreFront(_) => ConsStoreFrontKeeps(s);
    case CLook(_) => ConsLookKeeps(s);
  }

  // ---- construction ----------------------------------------------------------------------------

  function EmptyBlock<T>(size: nat, next: Id): Block<T> {
    Block(size, 0, 0, 0, 0, next, seq(size, i => None), [], 0, 0)
  }

  // n empty blocks of the same size, linked in a circle; front and tail at the first.
  function EmptyQueue<T>(n: nat, blockSize: nat, maxBlock: nat, blocking: bool): State<T> {
    State(map i | 0 <= i < n :: EmptyBlock(blockSize, Inc(i, n)), 0, 0, blockSize, maxBlock, blocking, 0, false,
          PIdle, CIdle, None, seq(n, i => i), 0, [], [])
  }

  // How many blocks, of which size, for a requested capacity.
  ghost predicate Sized(n: nat, blockSize: nat, size: nat, maxBlock: nat) {
    && n >= 1 && Bits.IsPow2(blockSize) && (blockSize >= 2 <==> size >= 1)
    && (if n == 1 then blockSize - 1 >= size else (n - 1) * (blockSize - 1) >= size && blockSize == maxBlock)
  }

  ghost predicate Initial<T>(s: State<T>, size: nat, maxBlock: nat, blocking: bool) {
    && maxBlock >= 2
    && exists n: nat, bs: nat :: Sized(n, bs, size, maxBlock) && s == EmptyQueue(n, bs, maxBlock, blocking)
  }

  // The loop that allocates the first blocks, each linked in before the first one.
  method MakeBlocks<T>(n: nat, blockSize: nat) returns (blocks: map<Id, Block<T>>)
    ensures blocks == map i | 0 <= i < n :: EmptyBlock(blockSize, Inc(i, n))
  {
    hide EmptyBlock;
    blocks := map[];
    var i := 0;
    while i != n
      invariant 0 <= i <= n
      invariant forall k {:trigger k in blocks} :: k in blocks <==> 0 <= k < i
      invariant forall k {:trigger blocks[k]} :: 0 <= k < i ==> blocks[k] == EmptyBlock(blockSize, Inc(k, i))
    {
      if i > 0 {
        Relink<T>(blockSize, 0, i);
        blocks := blocks[i - 1 := blocks[i - 1].(next := i)];
      }
      blocks := blocks[i := EmptyBlock(blockSize, 0)];
      i := i + 1;
    }
  }

  lemma Relink<T>(size: nat, next: Id, next': Id)
    ensures EmptyBlock<T>(size, next).(next := next') == EmptyBlock<T>(size, next')
  {
  }

  method Construct<T>(size: nat, maxBlock: nat, blocking: bool) returns (s: State<T>)
    requires maxBlock >= 2 && Bits.IsPow2(maxBlock) && size + 1 <= Bits.Pow2(63)
    ensures Initial(s, size, maxBlock, blocking)
  {
    hide Bits.IsPow2, Bits.Pow2, EmptyBlock;
    var largest := Bits.CeilToPow2(size + 1);
    var n := 1;
    if largest > maxBlock * 2 {
      n := (size + maxBlock * 2 - 3) / (maxBlock - 1);
      largest := maxBlock;
      EnoughBlocks(size, maxBlock, n);
    }
    assert Sized(n, largest, size, maxBlock);
    hide Sized;
    var blocks := MakeBlocks(n, largest);
    s := State(blocks, 0, 0, largest, maxBlock, blocking, 0, false, PIdle, CIdle, None, seq(n, i => i), 0, [], []);
    assert s == EmptyQueue(n, largest, maxBlock, blocking);
  }

  // Rounding up, the blocks other than one hold the size asked for.
  lemma EnoughBlocks(size: nat, maxBlock: nat, n: nat)
    requires maxBlock >= 2 && size >= maxBlock && n == (size + maxBlock * 2 - 3) / (maxBlock - 1)
    ensures n >= 2 && (n - 1) * (maxBlock - 1) >= size
  {
    var m := maxBlock - 1;
    assert n * m > size + 2 * m - 1 - m;
    assert (n - 1) * m == n * m - m;
    assert n <= 1 ==> n * m <= m;
  }

  lemma {:induction false} EmptyCat<T>(blocks: map<Id, Block<T>>, ids: seq<Id>)
    requires forall i :: i in ids ==> i in blocks && blocks[i].items == []
    ensures Cat(blocks, ids) == []
  {
    if ids != [] {
      assert ids[0] in ids;
      EmptyCat(blocks, ids[1..]);
    }
  }

  lemma InitialInv<T>(s: State<T>, size: nat, maxBlock: nat, blocking: bool)
    requires Initial(s, size, maxBlock, blocking)
    ensures Inv(s)
  {
    var n: nat, bs: nat :| Sized(n, bs, size, maxBlock) && s == EmptyQueue(n, bs, maxBlock, blocking);
    forall i | i in s.blocks ensures BlockOk(s.blocks[i], Taken(s, i), Pending(s, i)) {
      EmptyBlockOk<T>(bs, Inc(i, n));
    }
    EmptyCat(s.blocks, s.ring[..1]);
  }

  lemma EmptyBlockOk<T>(size: nat, next: Id)
    requires size >= 1
    ensures BlockOk(EmptyBlock<T>(size, next), false, None)
  {
  }

  // ---- runs ------------------------------------------------------------------------------------

  ghost predicate Step<T(!new)>(s: State<T>, t: State<T>) {
    Known(s) && exists a :: Enabled(s, a) && t == Apply(s, a)
  }

  ghost predicate IsRun<T(!new)>(run: seq<State<T>>) {
    |run| > 0 && forall i {:trigger run[i]} :: 0 <= i < |run| - 1 ==> Step(run[i], run[i + 1])
  }

  ghost predicate RunFrom<T(!new)>(run: seq<State<T>>, s: State<T>, t: State<T>) {
    |run| > 0 && IsRun(run) && run[0] == s && run[|run| - 1] == t
  }

  ghost predicate Reaches<T(!new)>(s: State<T>, t: State<T>) {
    exists run: seq<State<T>> :: RunFrom(run, s, t)
  }

  lemma {:induction false} RunKeepsInv<T(!new)>(run: seq<State<T>>)
    requires IsRun(run) && Inv(run[0])
    ensures Inv(run[|run| - 1])
  {
    if |run| > 1 {
      hide Inv, Step;
      RunKeepsInv(run[..|run| - 1]);
      assert Step(run[|run| - 2], run[|run| - 2 + 1]);
      StepKeepsInv(run[|run| - 2], run[|run| - 1]);
    }
  }

  lemma StepKeepsInv<T(!new)>(s: State<T>, t: State<T>)
    requires Inv(s) && Step(s, t)
    ensures Inv(t)
  {
    hide Inv, Known, Enabled, Apply;
    var a :| Enabled(s, a) && t == Apply(s, a);
    ApplyKeeps(s, a);
  }

  // No slot is overwritten, none is read unconstructed, a reused block is empty (the assert of line 588),
  // and a dequeue of the blocking queue that has its credit does not find the queue empty.
  ghost predicate Sound<T>(s: State<T>) {
    && Known(s)
    && (s.prod.PNextFront? ==> s.blocks[s.prod.n].front == s.blocks[s.prod.n].tail && s.blocks[s.prod.n].items == [])
    && (s.prod.PWrite? ==> Free(s.blocks[s.tailBlock]))
    && (s.prod.PNextWrite? ==> Free(s.blocks[s.prod.n]))
    && (s.cons.CTake? ==> Live(s.blocks[s.frontBlock]))
    && (s.cons.CLook? ==> Live(s.blocks[s.cons.n]))
    && (s.cons.CNextTail? ==> Live(s.blocks[s.cons.n]))
    && (s.blocking && s.cons.CLoadTailBlock? && s.cons.op == Dequeue ==> s.frontBlock != s.tailBlock)
  }

  // The asserts that the next block is not empty, which compare its indices.
  predicate NextAssert<T>(s: State<T>) {
    s.cons.CNextTail? && s.cons.n in s.blocks ==> s.blocks[s.cons.n].front != s.blocks[s.cons.n].tail
  }

  predicate Free<T>(b: Block<T>) { b.tail < |b.data| && b.data[b.tail].None? }

  predicate Live<T>(b: Block<T>) { b.front < |b.data| && b.data[b.front].Some? }

  lemma InvSound<T>(s: State<T>)
    requires Inv(s)
    ensures Sound(s)
  {
    hide RingOk, FillOk, BlockOk, ProdOk, BlocksOk, Contents;
    InvKnown(s);
    ConsSound(s);
    ProdSound(s);
  }

  // The next block always holds an element; its indices show that unless its size is 1.
  lemma NextShows<T>(s: State<T>)
    requires Inv(s) && s.cons.CNextTail?
    ensures s.cons.n in s.blocks && s.blocks[s.cons.n].items != [] && Live(s.blocks[s.cons.n])
    ensures NextAssert(s) <==> s.blocks[s.cons.n].size != 1
  {
    hide ProdOk, CreditsOk, Contents;
    NextHasItem(s);
    FrontSlot(s.blocks[s.cons.n], Pending(s, s.cons.n));
  }

  lemma ConsSound<T>(s: State<T>)
    requires Inv(s) && Known(s)
    ensures s.cons.CNextTail? ==> Live(s.blocks[s.cons.n])
    ensures s.cons.CTake? ==> Live(s.blocks[s.frontBlock])
    ensures s.cons.CLook? ==> Live(s.blocks[s.cons.n])
    ensures s.blocking && s.cons.CLoadTailBlock? && s.cons.op == Dequeue ==> s.frontBlock != s.tailBlock
  {
    FrontKnown(s);
    if s.cons.CNextTail? {
      NextShows(s);
    }
    hide FillOk, ProdOk, BlocksOk, CreditsOk, Contents;
    if s.cons.CTake? {
      hide RingOk;
      TakeOk(s.blocks[s.frontBlock], Pending(s, s.frontBlock));
    } else if s.cons.CLook? {
      hide RingOk, BlockOk;
      LookSees(s);
    }
  }

  lemma ProdSound<T>(s: State<T>)
    requires Inv(s) && Known(s)
    ensures s.prod.PNextFront? ==> s.blocks[s.prod.n].front == s.blocks[s.prod.n].tail && s.blocks[s.prod.n].items == []
    ensures s.prod.PWrite? ==> Free(s.blocks[s.tailBlock])
    ensures s.prod.PNextWrite? ==> Free(s.blocks[s.prod.n])
  {
    hide ConsOk, CreditsOk, Contents;
    if s.prod.PNextFront? {
      var n := s.prod.n;
      assert s.ring[s.tailPos + 1] in s.blocks && s.blocks[n].items == [];
      assert BlockOk(s.blocks[n], Taken(s, n), Pending(s, n));
    } else if s.prod.PWrite? {
      assert BlockOk(s.blocks[s.tailBlock], Taken(s, s.tailBlock), Pending(s, s.tailBlock));
      hide RingOk, FillOk, BlockOk, BlocksOk;
      WriteAtTailOk(s.blocks[s.tailBlock], Taken(s, s.tailBlock), s.prod.x);
    } else if s.prod.PNextWrite? {
      hide RingOk, FillOk, BlockOk, BlocksOk, ProdOk;
      NextFacts(s);
      NextRoom(s.blocks[s.prod.n], Taken(s, s.prod.n));
      WriteAtTailOk(s.blocks[s.prod.n], Taken(s, s.prod.n), s.prod.x);
    }
  }

  // ---- the theorems ----------------------------------------------------------------------------

  // FIFO, in every interleaving, for every size: what has been dequeued is a prefix of what has been
  // enqueued, and the rest is what the queue holds.
  lemma Fifo<T(!new)>(s: State<T>, t: State<T>, size: nat, maxBlock: nat, blocking: bool)
    requires Initial(s, size, maxBlock, blocking) && Reaches(s, t)
    ensures t.dequeued <= t.enqueued && t.enqueued == t.dequeued + Contents(t)
    ensures Sound(t)
  {
    hide Inv, Initial, Reaches, Sound;
    ReachedInv(s, t, size, maxBlock, blocking);
    InvSound(t);
    InvContents(t);
  }

  lemma InvContents<T>(s: State<T>)
    requires Inv(s)
    ensures s.enqueued == s.dequeued + Contents(s)
  {
  }

  // try_dequeue, pop and peek report "empty" only if the queue was empty when they read the tail.
  lemma EmptyWasTrue<T>(s: State<T>)
    requires Inv(s) && s.cons.CLoadTailBlock? && s.frontBlock == s.tailBlock
    ensures !s.cons.had && (s.blocking ==> s.cons.op == Peek)
  {
    hide BlocksOk, FillOk, ProdOk, BlockOk;
  }

  // An enqueue looks for another block only after it has seen its block full.
  lemma FullWasTrue<T>(s: State<T>, addr: Id, ok: bool)
    requires Inv(s) && s.prod.PLoadFront? && Known(s) && ProdStep(s, addr, ok).prod.PCheckNext?
    ensures |s.blocks[s.tailBlock].items| >= s.blocks[s.tailBlock].size - 1
  {
    var t := s.tailBlock;
    assert BlockOk(s.blocks[t], Taken(s, t), Pending(s, t));
    hide RingOk, FillOk, ConsOk, CreditsOk, BlocksOk;
    LoadFrontOk(s.blocks[t], Taken(s, t), None);
    RoomTest(LoadFront(s.blocks[t]), Taken(s, t));
  }

  // ---- what a call does, and how long it takes -------------------------------------------------

  // The element an enqueue is about.
  function Given<T>(p: Prod<T>): Option<T> { if p.PIdle? || p.PSignal? then None else Some(p.x) }

  // It goes on with the same element, and the queue is as it was; or it has added the element at the end; or it
  // has failed: try_enqueue because no block is free, enqueue because none could be allocated.
  ghost predicate ProdDoes<T>(s: State<T>, t: State<T>, ok: bool)
    requires !s.prod.PIdle? && !s.prod.PSignal?
  {
    && t.dequeued == s.dequeued && t.cons == s.cons && t.result == s.result
    && if !t.prod.PIdle? && !t.prod.PSignal? then
         Given(t.prod) == Given(s.prod) && t.enqueued == s.enqueued && Contents(t) == Contents(s)
         && (t.prod.PAlloc? ==> s.prod.PCheckNext? && s.prod.alloc) && KeepsAlloc(s.prod, t.prod)
       else if t.enqueued == s.enqueued then
         Contents(t) == Contents(s)
         && ((s.prod.PCheckNext? && !s.prod.alloc && s.tailPos + 1 == |s.ring|) || (s.prod.PAlloc? && !ok))
       else
         t.enqueued == s.enqueued + [s.prod.x] && Contents(t) == Contents(s) + [s.prod.x]
  }

  predicate KeepsAlloc<T>(p: Prod<T>, q: Prod<T>) { q.PCheckNext? ==> p.PLoadFront? && q.alloc == p.alloc }

  // A call begins as what it was called as.
  lemma CallsBegin<T>(s: State<T>, x: T, alloc: bool, op: Op)
    requires Known(s)
    ensures var t := CallEnq(s, x, alloc);
      && Given(t.prod) == Some(x) && !t.prod.PCheckNext? && !t.prod.PAlloc? && (t.prod.PLoadFront? ==> t.prod.alloc == alloc)
      && t == s.(prod := t.prod)
    ensures !(s.blocking && op == Dequeue) || s.credits > 0 ==>
      var t := CallCons(s, op);
      OpOf(t.cons) == Some(op) && t.enqueued == s.enqueued && t.dequeued == s.dequeued && Contents(t) == Contents(s)
      && t.credits == s.credits - (if s.blocking && op == Dequeue then 1 else 0)
  {
    hide Known;
  }

  // What a step does to the auxiliary history.
  ghost predicate ProdHistory<T>(s: State<T>, t: State<T>, ok: bool)
    requires Known(s) && !s.prod.PIdle? && !s.prod.PSignal?
  {
    && t.dequeued == s.dequeued && t.cons == s.cons && t.result == s.result
    && if !t.prod.PIdle? && !t.prod.PSignal? then
         Given(t.prod) == Given(s.prod) && t.enqueued == s.enqueued && (t.prod.PAlloc? ==> s.prod.PCheckNext? && s.prod.alloc)
         && KeepsAlloc(s.prod, t.prod)
       else
         || t.enqueued == s.enqueued + [s.prod.x]
         || (t.enqueued == s.enqueued
             && ((s.prod.PCheckNext? && !s.prod.alloc && s.blocks[s.tailBlock].next == s.frontBlock) || (s.prod.PAlloc? && !ok)))
  }

  lemma ProdWrites<T>(s: State<T>, addr: Id, ok: bool)
    requires Known(s) && !s.prod.PIdle? && !s.prod.PSignal?
    ensures ProdHistory(s, ProdStep(s, addr, ok), ok)
  {
    hide Known, Contents, Insert, NewBlock, NewSize, WriteAtTail, BumpTail, LoadFront, Inc;
  }

  lemma ProdOutcome<T>(s: State<T>, addr: Id, ok: bool)
    requires Inv(s) && !s.prod.PIdle? && !s.prod.PSignal? && (s.prod.PAlloc? ==> addr !in s.blocks)
    ensures Known(s) && ProdDoes(s, ProdStep(s, addr, ok), ok)
  {
    hide Inv, Known, ProdStep, Contents, RingOk;
    ProdKeeps(s, addr, ok);
    var t := ProdStep(s, addr, ok);
    ProdWrites(s, addr, ok);
    InvContents(s);
    InvContents(t);
    NextIsFreeInv(s);
    TailBound(s);
    SameDequeued(s.dequeued, Contents(s), Contents(t), s.enqueued, t.enqueued);
  }

  lemma TailBound<T>(s: State<T>)
    requires Inv(s)
    ensures s.tailPos < |s.ring|
  {
  }

  // What the queue holds follows from what was enqueued and dequeued.
  lemma SameDequeued<T>(d: seq<T>, c: seq<T>, c': seq<T>, e: seq<T>, e': seq<T>)
    requires e == d + c && e' == d + c'
    ensures e' == e ==> c' == c
    ensures forall x {:trigger [x]} :: e' == e + [x] ==> c' == c + [x]
  {
    assert c == e[|d|..] && c' == e'[|d|..];
  }

  // Every call of the producer ends within eight of its own steps.
  function ProdRank<T>(p: Prod<T>): nat {
    match p
    case PIdle => 0
    case PSignal => 1
    case PAdvance(_, _) => 2
    case PStoreTail(_) => 2
    case PWrite(_) => 3
    case PNextTail(_, _) => 3
    case PLink(_, _) => 3
    case PNextWrite(_, _) => 4
    case PAlloc(_) => 4
    case PNextFront(_, _) => 5
    case PCheckNext(_, _) => 6
    case PLoadFront(_, _) => 7
  }

  // ... and of the consumer.
  function ConsRank<T>(c: Cons<T>): nat {
    match c
    case CIdle => 0
    case CStoreFront(_) => 1
    case CLook(_) => 1
    case CTake => 2
    case CAdvance(_) => 3
    case CNextTail(_, _) => 4
    case CNext(_) => 5
    case CReloadTail(_) => 6
    case CLoadTailBlock(_, _) => 7
    case CLoadTail(_) => 8
  }

  // No step of a call waits for the other side or repeats.
  lemma WaitFree<T>(s: State<T>, addr: Id, ok: bool)
    requires Inv(s)
    ensures Known(s)
    ensures !s.prod.PIdle? ==> ProdRank(ProdStep(s, addr, ok).prod) < ProdRank(s.prod)
    ensures !s.cons.CIdle? ==> ConsRank(ConsStep(s).cons) < ConsRank(s.cons)
  {
    hide Inv, Known, ProdStep, ConsStep;
    KnownInv(s);
    ProdGoesOn(s, addr, ok);
    ConsGoesOn(s);
  }

  lemma KnownInv<T>(s: State<T>)
    requires Inv(s)
    ensures Known(s)
  {
    InvKnown(s);
  }

  lemma ProdGoesOn<T>(s: State<T>, addr: Id, ok: bool)
    requires Known(s)
    ensures !s.prod.PIdle? ==> ProdRank(ProdStep(s, addr, ok).prod) < ProdRank(s.prod)
  {
    hide Known, Contents, Insert, NewBlock, NewSize, WriteAtTail, BumpTail, LoadFront, Inc;
  }

  lemma ConsGoesOn<T>(s: State<T>)
    requires Inv(s) && Known(s)
    ensures !s.cons.CIdle? ==> ConsRank(ConsStep(s).cons) < ConsRank(s.cons)
  {
    hide Inv, Known, Contents, Rotate, Sub, Inc, LoadTail;
    if s.cons.CTake? {
      ConsTakeKeeps(s);
    }
  }

  function OpOf<T>(c: Cons<T>): Option<Op> {
    match c
    case CIdle => None
    case CLoadTail(op) => Some(op)
    case CLoadTailBlock(op, _) => Some(op)
    case CReloadTail(op) => Some(op)
    case CNext(op) => Some(op)
    case CNextTail(op, _) => Some(op)
    case CLook(_) => Some(Peek)
    case _ => Some(Dequeue)
  }

  // It goes on as the same operation, and the queue is as it was; or a dequeue has removed the first element and
  // returns it, or a peek returns it; or the call fails, having seen the queue empty.
  ghost predicate ConsDoes<T>(s: State<T>, t: State<T>) {
    && t.enqueued == s.enqueued && t.prod == s.prod
    && if !t.cons.CIdle? then
         OpOf(t.cons) == OpOf(s.cons) && t.dequeued == s.dequeued && Contents(t) == Contents(s)
       else if t.result == None then
         t.dequeued == s.dequeued && Contents(t) == Contents(s) && s.cons.CLoadTailBlock? && !s.cons.had && s.frontBlock == s.tailBlock
       else
         && Contents(s) != [] && t.result == Some(Contents(s)[0])
         && if OpOf(s.cons) == Some(Dequeue) then t.dequeued == s.dequeued + [Contents(s)[0]] && Contents(t) == Contents(s)[1..]
            else t.dequeued == s.dequeued && Contents(t) == Contents(s)
  }

  // What a step that stays within the call, or fails, does to the auxiliary history.
  ghost predicate ConsHistory<T>(s: State<T>, t: State<T>) {
    && t.enqueued == s.enqueued && t.prod == s.prod && t.dequeued == s.dequeued
    && if !t.cons.CIdle? then OpOf(t.cons) == OpOf(s.cons)
       else s.cons.CLook? || (t.result == None && s.cons.CLoadTailBlock? && s.frontBlock == s.tailBlock)
  }

  lemma ConsWrites<T>(s: State<T>)
    requires Known(s) && !s.cons.CIdle? && !s.cons.CStoreFront?
    ensures ConsHistory(s, ConsStep(s))
  {
    hide Known, Contents, Rotate, Sub, Inc, LoadTail;
  }

  lemma ConsStores<T>(s: State<T>)
    requires Known(s) && s.cons.CStoreFront?
    ensures var t := ConsStep(s);
      t.cons.CIdle? && t.enqueued == s.enqueued && t.prod == s.prod && t.dequeued == s.dequeued + [s.cons.x] && t.result == Some(s.cons.x)
  {
    hide Known, Contents, Sub, Inc;
  }

  lemma ConsOutcome<T>(s: State<T>)
    requires Inv(s) && !s.cons.CIdle?
    ensures Known(s) && ConsDoes(s, ConsStep(s))
  {
    hide Inv, Known, ConsStep, Contents;
    ConsKeeps(s);
    var t := ConsStep(s);
    if s.cons.CStoreFront? {
      ConsStoreFrontKeeps(s);
      ConsStores(s);
      assert Contents(s)[1..] == Contents(t);
    } else {
      ConsWrites(s);
      InvContents(s);
      InvContents(t);
      SameDequeued(s.dequeued, Contents(s), Contents(t), s.enqueued, t.enqueued);
      if s.cons.CLook? {
        ConsLookKeeps(s);
      } else if t.cons.CIdle? {
        EmptyWasTrue(s);
      }
    }
  }

  // The auxiliary answer of EmptyWasTrue: set when the tail is loaded, from what the queue holds then.
  lemma HadIsRight<T>(s: State<T>)
    requires Inv(s) && !s.cons.CIdle? && Known(s) && ConsStep(s).cons.CLoadTailBlock?
    ensures s.cons.CLoadTail? && (ConsStep(s).cons.had <==> Contents(s) != [])
  {
    hide RingOk, BlocksOk, FillOk, ProdOk, ConsOk, CreditsOk, Contents;
  }

  // ---- sizes are powers of two, so masking an index is wrapping it -----------------------------

  // ... and at least least.
  ghost predicate Pow2Sizes<T>(s: State<T>, least: nat) {
    && Bits.IsPow2(s.largest) && s.largest >= least
    && forall i {:trigger s.blocks[i]} :: i in s.blocks ==> Bits.IsPow2(s.blocks[i].size) && s.blocks[i].size >= least
  }

  lemma StepKeepsSizes<T(!new)>(s: State<T>, t: State<T>, least: nat)
    requires Pow2Sizes(s, least) && Step(s, t)
    ensures Pow2Sizes(t, least)
  {
    hide Bits.IsPow2;
    var a :| Enabled(s, a) && t == Apply(s, a);
    Doubled(s.largest);
    match a
    case CallEnqueue(x, alloc) =>
    case CallConsumer(op) =>
    case RunProd(addr, ok) => ProdKeepsSizes(s, addr, ok, least);
    case RunCons => ConsKeepsSizes(s, least);
  }

  lemma ProdKeepsSizes<T>(s: State<T>, addr: Id, ok: bool, least: nat)
    requires Pow2Sizes(s, least) && Known(s) && Bits.IsPow2(s.largest * 2)
    ensures Pow2Sizes(ProdStep(s, addr, ok), least)
  {
    hide Bits.IsPow2;
    if !s.prod.PAlloc? {
      var i := ProdSets(s, addr, ok);
      hide ProdStep, Known;
      SetKeepsSizes(s, ProdStep(s, addr, ok), i, least);
    }
  }

  // At most block i changes, and keeps its size.
  ghost predicate SetsOne<T>(s: State<T>, t: State<T>, i: Id) {
    && i in s.blocks && i in t.blocks && t.largest == s.largest
    && t.blocks == s.blocks[i := t.blocks[i]] && t.blocks[i].size == s.blocks[i].size
  }

  lemma StoreSets<T>(s: State<T>, addr: Id, ok: bool)
    requires Known(s) && (s.prod.PStoreTail? || s.prod.PWrite?)
    ensures SetsOne(s, ProdStep(s, addr, ok), s.tailBlock)
  {
  }

  lemma ProdSets<T>(s: State<T>, addr: Id, ok: bool) returns (i: Id)
    requires Known(s) && !s.prod.PAlloc?
    ensures SetsOne(s, ProdStep(s, addr, ok), i)
  {
    hide Insert, NewBlock, Inc, Done;
    if s.prod.PStoreTail? || s.prod.PWrite? {
      hide *;
      StoreSets(s, addr, ok);
      return s.tailBlock;
    }
    i := if s.prod.PNextFront? || s.prod.PNextWrite? || s.prod.PNextTail? then s.prod.n else s.tailBlock;
    assert s.blocks == s.blocks[i := s.blocks[i]];
  }

  lemma TakeSets<T>(s: State<T>)
    requires Known(s) && (s.cons.CTake? || s.cons.CStoreFront?)
    ensures SetsOne(s, ConsStep(s), s.frontBlock)
  {
    hide Contents, Inc, Sub;
    assert s.blocks == s.blocks[s.frontBlock := s.blocks[s.frontBlock]];
  }

  lemma ConsSets<T>(s: State<T>) returns (i: Id)
    requires Known(s)
    ensures SetsOne(s, ConsStep(s), i)
  {
    if s.cons.CTake? || s.cons.CStoreFront? {
      hide *;
      TakeSets(s);
      return s.frontBlock;
    }
    hide Contents, Rotate, Sub, Serve;
    i := if s.cons.CNextTail? then s.cons.n else s.frontBlock;
    assert s.blocks == s.blocks[i := s.blocks[i]];
  }

  lemma SetKeepsSizes<T>(s: State<T>, t: State<T>, i: Id, least: nat)
    requires Pow2Sizes(s, least) && SetsOne(s, t, i)
    ensures Pow2Sizes(t, least)
  {
    hide Bits.IsPow2;
  }

  lemma ConsKeepsSizes<T>(s: State<T>, least: nat)
    requires Pow2Sizes(s, least) && Known(s)
    ensures Pow2Sizes(ConsStep(s), least)
  {
    hide *;
    var i := ConsSets(s);
    SetKeepsSizes(s, ConsStep(s), i, least);
  }

  lemma Doubled(x: nat)
    requires Bits.IsPow2(x)
    ensures Bits.IsPow2(x * 2)
  {
    var k: nat :| x == Bits.Pow2(k);
    assert x * 2 == Bits.Pow2(k + 1);
  }

  lemma {:induction false} RunKeepsSizes<T(!new)>(run: seq<State<T>>, least: nat)
    requires IsRun(run) && Pow2Sizes(run[0], least)
    ensures Pow2Sizes(run[|run| - 1], least)
  {
    if |run| > 1 {
      hide Pow2Sizes, Step;
      RunKeepsSizes(run[..|run| - 1], least);
      assert Step(run[|run| - 2], run[|run| - 2 + 1]);
      StepKeepsSizes(run[|run| - 2], run[|run| - 1], least);
    }
  }

  lemma InitialSizes<T>(s: State<T>, size: nat, maxBlock: nat, blocking: bool)
    requires Initial(s, size, maxBlock, blocking)
    ensures Pow2Sizes(s, Least(size))
  {
    hide Bits.IsPow2;
  }

  function Least(size: nat): nat { if size >= 1 then 2 else 1 }

  lemma ReachedSizes<T(!new)>(s: State<T>, t: State<T>, size: nat, maxBlock: nat, blocking: bool)
    requires Initial(s, size, maxBlock, blocking) && Reaches(s, t)
    ensures Pow2Sizes(t, Least(size))
  {
    hide Initial, Pow2Sizes, RunFrom;
    InitialSizes(s, size, maxBlock, blocking);
    var run: seq<State<T>> :| RunFrom(run, s, t);
    RunIs(run, s, t);
    RunKeepsSizes(run, Least(size));
  }

  lemma ReachedInv<T(!new)>(s: State<T>, t: State<T>, size: nat, maxBlock: nat, blocking: bool)
    requires Initial(s, size, maxBlock, blocking) && Reaches(s, t)
    ensures Inv(t)
  {
    hide Initial, Inv, RunFrom;
    InitialInv(s, size, maxBlock, blocking);
    var run: seq<State<T>> :| RunFrom(run, s, t);
    RunIs(run, s, t);
    RunKeepsInv(run);
  }

  lemma RunIs<T(!new)>(run: seq<State<T>>, s: State<T>, t: State<T>)
    requires RunFrom(run, s, t)
    ensures IsRun(run) && |run| > 0 && run[0] == s && run[|run| - 1] == t
  {
    hide IsRun;
  }

  lemma SizesOf<T>(s: State<T>, i: Id, least: nat)
    requires Pow2Sizes(s, least) && i in s.blocks
    ensures Bits.IsPow2(s.blocks[i].size) && s.blocks[i].size >= least
  {
    hide Bits.IsPow2;
  }

  // In every reachable state the code's (i + 1) & sizeMask is the wrap-around the steps use.
  lemma MaskWraps<T(!new)>(s: State<T>, t: State<T>, size: nat, maxBlock: nat, blocking: bool, id: Id, i: nat)
    requires Initial(s, size, maxBlock, blocking) && Reaches(s, t) && id in t.blocks && i < t.blocks[id].size
    ensures Bits.And(i + 1, t.blocks[id].size - 1) == Inc(i, t.blocks[id].size)
  {
    hide *;
    ReachedSizes(s, t, size, maxBlock, blocking);
    SizesOf(t, id, Least(size));
    MaskIsInc(i, t.blocks[id].size);
  }

  lemma MaskIsInc(i: nat, size: nat)
    requires Bits.IsPow2(size) && i < size
    ensures Bits.And(i + 1, size - 1) == Inc(i, size)
  {
    var k: nat :| size == Bits.Pow2(k);
    hide Bits.And, Bits.Pow2, Bits.Rem;
    Bits.AndRem(i + 1, k);
    Bits.RemWrap(i + 1, size);
  }

  // ---- a queue constructed for no elements -----------------------------------------------------

  // The only block of a queue constructed for no elements, and the one allocated for the first.
  function One<T>(next: Id, data: Option<T>, items: seq<T>): Block<T> {
    Block(1, 0, 0, 0, 0, next, [data], items, 0, 0)
  }

  // The queue with those two blocks, between calls.
  function Two<T>(max: nat, blocking: bool, f: Id, t: Id, b0: Block<T>, b1: Block<T>, enq: seq<T>, deq: seq<T>): State<T> {
    State(map[0 := b0, 1 := b1], f, t, 2, max, blocking, if blocking && |enq| >= |deq| then |enq| - |deq| else 0, false, PIdle, CIdle,
          if deq == [] then None else Some(deq[|deq| - 1]),
          if f == 0 then [0, 1] else [1, 0], if f == t then 0 else 1, enq, deq)
  }

  lemma ReachStep<T(!new)>(s0: State<T>, s: State<T>, a: Action<T>)
    requires Reaches(s0, s) && Known(s) && Enabled(s, a)
    ensures Reaches(s0, Apply(s, a))
  {
    var run: seq<State<T>> :| RunFrom(run, s0, s);
    var t := Apply(s, a);
    hide Known, Enabled, Apply;
    assert Step(s, t);
    var run' := run + [t];
    forall i | 0 <= i < |run'| - 1 ensures Step(run'[i], run'[i + 1]) {
      if i < |run| - 1 {
        assert run'[i] == run[i];
        assert Step(run[i], run[i + 1]);
      }
    }
    assert RunFrom(run', s0, t);
  }

  lemma EmptyOne<T>(max: nat, blocking: bool)
    ensures EmptyQueue<T>(1, 1, max, blocking) ==
            State(map[0 := One<T>(0, None, [])], 0, 0, 1, max, blocking, 0, false, PIdle, CIdle, None, [0], 0, [], [])
  {
    var m: map<Id, Block<T>> := map i | 0 <= i < 1 :: EmptyBlock(1, Inc(i, 1));
    var none: seq<Option<T>> := seq(1, i => None);
    assert none == [None];
    assert m[0] == One<T>(0, None, []);
    assert m == map[0 := One<T>(0, None, [])];
  }

  lemma StepTo<T(!new)>(s0: State<T>, s: State<T>, a: Action<T>, t: State<T>)
    requires Reaches(s0, s) && Known(s) && Enabled(s, a) && t == Apply(s, a)
    ensures Reaches(s0, t)
  {
    hide Known, Enabled, Apply;
    ReachStep(s0, s, a);
  }

  // A dequeue of the blocking queue takes a credit first.
  function Claim<T>(s: State<T>, op: Op): State<T>
    requires s.blocking && op == Dequeue ==> s.credits > 0
  {
    if s.blocking && op == Dequeue then s.(credits := s.credits - 1, holding := true) else s
  }

  // Before the signal that ends an enqueue of the blocking queue.
  function Unsignalled<T>(s: State<T>): State<T>
    requires s.blocking ==> s.credits > 0
  {
    if s.blocking then s.(prod := PSignal, credits := s.credits - 1) else s
  }

  lemma Signal<T(!new)>(s0: State<T>, s: State<T>)
    requires s.prod.PIdle? && (s.blocking ==> s.credits > 0) && Known(Unsignalled(s)) && Reaches(s0, Unsignalled(s))
    ensures Reaches(s0, s)
  {
    hide Reaches;
    if s.blocking {
      StepTo(s0, Unsignalled(s), RunProd(0, true), s);
    }
  }

  // The producer finds the block of size 1 full, so the first enqueue allocates.
  lemma EnqueueFirst<T(!new)>(s: State<T>, max: nat, blocking: bool, x: T)
    requires max >= 2 && s == EmptyQueue(1, 1, max, blocking)
    ensures Reaches(s, Two(max, blocking, 0, 1, One(1, None, []), Block(2, 0, 1, 1, 0, 0, [Some(x), None], [x], 1, 0), [x], []))
  {
    EmptyOne<T>(max, blocking);
    assert RunFrom([s], s, s);
    hide EmptyQueue, Reaches;
    var p: Action<T> := RunProd(1, true);
    var s1 := s.(prod := PLoadFront(x, true));
    StepTo(s, s, CallEnqueue(x, true), s1);
    var s2 := s.(prod := PCheckNext(x, true));
    StepTo(s, s1, p, s2);
    var s3 := s.(prod := PAlloc(x));
    StepTo(s, s2, p, s3);
    AllocateSecond(s, s3, max, blocking, x);
  }

  lemma AllocateSecond<T(!new)>(s0: State<T>, s: State<T>, max: nat, blocking: bool, x: T)
    requires max >= 2 && Reaches(s0, s)
    requires s == State(map[0 := One(0, None, [])], 0, 0, 1, max, blocking, 0, false, PAlloc(x), CIdle, None, [0], 0, [], [])
    ensures Reaches(s0, Two(max, blocking, 0, 1, One(1, None, []), Block(2, 0, 1, 1, 0, 0, [Some(x), None], [x], 1, 0), [x], []))
  {
    hide Reaches;
    var b0, b1 := One(1, None, []), Block(2, 0, 1, 1, 0, 0, [Some(x), None], [x], 1, 0);
    var s1 := s.(blocks := map[0 := One(0, None, []), 1 := b1], largest := 2, prod := PLink(x, 1));
    assert NewBlock(2, 0, x) == b1;
    StepTo(s0, s, RunProd(1, true), s1);
    var s2 := s1.(blocks := map[0 := b0, 1 := b1], ring := [0, 1], prod := PAdvance(x, 1));
    StepTo(s0, s1, RunProd(1, true), s2);
    var t := Two(max, blocking, 0, 1, b0, b1, [x], []);
    StepTo(s0, s2, RunProd(1, true), Unsignalled(t));
    Signal(s0, t);
  }

  // With the front block empty and the tail block ahead, a dequeue or peek gets to read the next block.
  lemma GoesOn<T(!new)>(s0: State<T>, s: State<T>, n: Id, op: Op)
    requires Reaches(s0, s) && Known(s) && s.cons.CIdle? && s.frontBlock != s.tailBlock
    requires s.blocking ==> s.credits > 0
    requires var b := s.blocks[s.frontBlock]; b.front == b.tail == b.localTail && b.seen == |b.items| && b.next == n
    ensures Reaches(s0, Claim(s, op).(cons := CNextTail(op, n)))
  {
    hide Reaches, Contents;
    var f, c := s.frontBlock, Claim(s, op);
    assert LoadTail(s.blocks[f]) == s.blocks[f];
    assert s.blocks[f := s.blocks[f]] == s.blocks;
    var s1 := c.(cons := CLoadTail(op));
    StepTo(s0, s, CallConsumer(op), s1);
    var s2 := c.(cons := CLoadTailBlock(op, Contents(s1) != []));
    StepTo(s0, s1, RunCons, s2);
    var s3 := c.(cons := CReloadTail(op));
    StepTo(s0, s2, RunCons, s3);
    var s4 := c.(cons := CNext(op));
    StepTo(s0, s3, RunCons, s4);
    StepTo(s0, s4, RunCons, c.(cons := CNextTail(op, n)));
  }

  // Moving the front element out and storing the new front.
  lemma Takes<T(!new)>(s0: State<T>, s: State<T>, x: T, b: Block<T>, t: State<T>)
    requires Reaches(s0, s) && Known(s) && s.cons.CTake?
    requires var a := s.blocks[s.frontBlock];
             && a.front < |a.data| && a.data[a.front] == Some(x)
             && b == a.(data := a.data[a.front := None], front := Inc(a.front, a.size),
                          items := if a.items == [] then [] else a.items[1..], seen := Sub(a.seen, 1), slack := a.slack + 1)
    requires t == s.(blocks := s.blocks[s.frontBlock := b], cons := CIdle, result := Some(x), holding := false,
                     dequeued := s.dequeued + [x])
    ensures Reaches(s0, t)
  {
    hide Reaches;
    var f, a := s.frontBlock, s.blocks[s.frontBlock];
    var s1 := s.(blocks := s.blocks[f := a.(data := a.data[a.front := None])], cons := CStoreFront(x));
    StepTo(s0, s, RunCons, s1);
    assert s1.blocks[f := b] == s.blocks[f := b];
    StepTo(s0, s1, RunCons, t);
  }

  lemma DequeueFirst<T(!new)>(s0: State<T>, max: nat, blocking: bool, x: T)
    requires max >= 2
    requires Reaches(s0, Two(max, blocking, 0, 1, One(1, None, []), Block(2, 0, 1, 1, 0, 0, [Some(x), None], [x], 1, 0), [x], []))
    ensures Reaches(s0, Two(max, blocking, 1, 1, One(1, None, []), Block(2, 1, 1, 1, 0, 0, [None, None], [], 0, 1), [x], [x]))
  {
    hide Reaches;
    var b0, b1 := One(1, None, []), Block(2, 0, 1, 1, 0, 0, [Some(x), None], [x], 1, 0);
    var s := Two(max, blocking, 0, 1, b0, b1, [x], []);
    GoesOn(s0, s, 1, Dequeue);
    var c := Claim(s, Dequeue);
    var s1 := c.(cons := CAdvance(1));
    assert LoadTail(b1) == b1;
    StepTo(s0, c.(cons := CNextTail(Dequeue, 1)), RunCons, s1);
    var s2 := c.(frontBlock := 1, cons := CTake, tailPos := 0, ring := [1, 0]);
    StepTo(s0, s1, RunCons, s2);
    TakeFirst(s0, s2, max, blocking, x);
  }

  lemma TakeFirst<T(!new)>(s0: State<T>, s: State<T>, max: nat, blocking: bool, x: T)
    requires var b1 := Block(2, 0, 1, 1, 0, 0, [Some(x), None], [x], 1, 0);
             s == Claim(Two(max, blocking, 1, 1, One(1, None, []), b1, [x], []), Dequeue).(cons := CTake)
    requires Reaches(s0, s)
    ensures Reaches(s0, Two(max, blocking, 1, 1, One(1, None, []), Block(2, 1, 1, 1, 0, 0, [None, None], [], 0, 1), [x], [x]))
  {
    hide Reaches;
    var b1, b1' := Block(2, 0, 1, 1, 0, 0, [Some(x), None], [x], 1, 0), Block(2, 1, 1, 1, 0, 0, [None, None], [], 0, 1);
    assert b1.data[0 := None] == [None, None] && [x][1..] == [];
    var t := Two(max, blocking, 1, 1, One(1, None, []), b1', [x], [x]);
    assert t.blocks == s.blocks[1 := b1'];
    Takes(s0, s, x, b1', t);
  }

  // Constructing an element at the tail, storing the new tail, and signalling.
  lemma Stores<T(!new)>(s0: State<T>, s: State<T>, x: T, b: Block<T>, t: State<T>)
    requires Reaches(s0, s) && Known(s) && s.prod == PWrite(x)
    requires var a := s.blocks[s.tailBlock];
             a.tail < |a.data| && b == a.(data := a.data[a.tail := Some(x)], tail := Inc(a.tail, a.size), items := a.items + [x])
    requires t == s.(blocks := s.blocks[s.tailBlock := b], prod := PIdle, enqueued := s.enqueued + [x],
                     credits := if s.blocking then s.credits + 1 else s.credits)
    ensures Reaches(s0, t)
  {
    hide Reaches;
    var i, a := s.tailBlock, s.blocks[s.tailBlock];
    var s1 := s.(blocks := s.blocks[i := a.(data := a.data[a.tail := Some(x)])], prod := PStoreTail(x));
    StepTo(s0, s, RunProd(0, true), s1);
    assert s1.blocks[i := b] == s.blocks[i := b];
    StepTo(s0, s1, RunProd(0, true), Unsignalled(t));
    Signal(s0, t);
  }

  lemma EnqueueSecond<T(!new)>(s0: State<T>, max: nat, blocking: bool, x: T, y: T)
    requires Reaches(s0, Two(max, blocking, 1, 1, One(1, None, []), Block(2, 1, 1, 1, 0, 0, [None, None], [], 0, 1), [x], [x]))
    ensures Reaches(s0, Two(max, blocking, 1, 1, One(1, None, []), Block(2, 1, 1, 0, 1, 0, [None, Some(y)], [y], 0, 0), [x, y], [x]))
  {
    hide Reaches;
    var b0, b1 := One(1, None, []), Block(2, 1, 1, 1, 0, 0, [None, None], [], 0, 1);
    var s := Two(max, blocking, 1, 1, b0, b1, [x], [x]);
    var s1 := s.(prod := PLoadFront(y, true));
    StepTo(s0, s, CallEnqueue(y, true), s1);
    var s2 := s.(blocks := map[0 := b0, 1 := LoadFront(b1)], prod := PWrite(y));
    StepTo(s0, s1, RunProd(2, true), s2);
    assert b1.data[1 := Some(y)] == [None, Some(y)] && [] + [y] == [y] && [x] + [y] == [x, y];
    var b1' := Block(2, 1, 1, 0, 1, 0, [None, Some(y)], [y], 0, 0);
    var t := Two(max, blocking, 1, 1, b0, b1', [x, y], [x]);
    assert t.blocks == s2.blocks[1 := b1'];
    Stores(s0, s2, y, b1', t);
  }

  // The producer finds the block of size 1 free, and stores an element that no index shows.
  lemma EnqueueThird<T(!new)>(s0: State<T>, max: nat, blocking: bool, x: T, y: T, z: T)
    requires Reaches(s0, Two(max, blocking, 1, 1, One(1, None, []), Block(2, 1, 1, 0, 1, 0, [None, Some(y)], [y], 0, 0), [x, y], [x]))
    ensures Reaches(s0, Two(max, blocking, 1, 0, One(1, Some(z), [z]), Block(2, 1, 1, 0, 1, 0, [None, Some(y)], [y], 0, 0), [x, y, z], [x]))
  {
    hide Reaches;
    var b0, b1 := One(1, None, []), Block(2, 1, 1, 0, 1, 0, [None, Some(y)], [y], 0, 0);
    var s := Two(max, blocking, 1, 1, b0, b1, [x, y], [x]).(ring := [1, 0]);
    assert b1.next == 0;
    var s1 := s.(prod := PLoadFront(z, true));
    StepTo(s0, s, CallEnqueue(z, true), s1);
    var s2 := s.(prod := PCheckNext(z, true));
    assert LoadFront(b1) == b1;
    StepTo(s0, s1, RunProd(2, true), s2);
    var s3 := s.(prod := PNextFront(z, 0));
    StepTo(s0, s2, RunProd(2, true), s3);
    UseOne(s0, s3, max, blocking, x, y, z);
  }

  lemma UseOne<T(!new)>(s0: State<T>, s: State<T>, max: nat, blocking: bool, x: T, y: T, z: T)
    requires var b1 := Block(2, 1, 1, 0, 1, 0, [None, Some(y)], [y], 0, 0);
             s == Two(max, blocking, 1, 1, One(1, None, []), b1, [x, y], [x]).(prod := PNextFront(z, 0))
    requires Reaches(s0, s)
    ensures Reaches(s0, Two(max, blocking, 1, 0, One(1, Some(z), [z]), Block(2, 1, 1, 0, 1, 0, [None, Some(y)], [y], 0, 0), [x, y, z], [x]))
  {
    hide Reaches;
    var b0: Block<T>, b1 := One(1, None, []), Block(2, 1, 1, 0, 1, 0, [None, Some(y)], [y], 0, 0);
    var s1 := s.(prod := PNextWrite(z, 0));
    assert LoadFront(b0) == b0;
    StepTo(s0, s, RunProd(2, true), s1);
    var s2 := s.(blocks := map[0 := One(1, Some(z), []), 1 := b1], prod := PNextTail(z, 0));
    assert b0.data[0 := Some(z)] == [Some(z)];
    StepTo(s0, s1, RunProd(2, true), s2);
    HideElement(s0, s2, max, blocking, x, y, z);
  }

  // In a block of size 1 the tail wraps onto the front.
  lemma HideElement<T(!new)>(s0: State<T>, s: State<T>, max: nat, blocking: bool, x: T, y: T, z: T)
    requires var b1 := Block(2, 1, 1, 0, 1, 0, [None, Some(y)], [y], 0, 0);
             s == Two(max, blocking, 1, 1, One(1, Some(z), []), b1, [x, y], [x]).(prod := PNextTail(z, 0))
    requires Reaches(s0, s)
    ensures Reaches(s0, Two(max, blocking, 1, 0, One(1, Some(z), [z]), Block(2, 1, 1, 0, 1, 0, [None, Some(y)], [y], 0, 0), [x, y, z], [x]))
  {
    hide Reaches;
    var b1 := Block(2, 1, 1, 0, 1, 0, [None, Some(y)], [y], 0, 0);
    assert [] + [z] == [z];
    var s1 := s.(blocks := map[0 := One(1, Some(z), [z]), 1 := b1], prod := PAdvance(z, 0));
    StepTo(s0, s, RunProd(2, true), s1);
    AdvanceToOne(s0, s1, max, blocking, x, y, z);
  }

  lemma AdvanceToOne<T(!new)>(s0: State<T>, s: State<T>, max: nat, blocking: bool, x: T, y: T, z: T)
    requires var b1 := Block(2, 1, 1, 0, 1, 0, [None, Some(y)], [y], 0, 0);
             && s == Two(max, blocking, 1, 1, One(1, None, []), b1, [x, y], [x])
                       .(blocks := map[0 := One(1, Some(z), [z]), 1 := b1], prod := PAdvance(z, 0))
    requires Reaches(s0, s)
    ensures Reaches(s0, Two(max, blocking, 1, 0, One(1, Some(z), [z]), Block(2, 1, 1, 0, 1, 0, [None, Some(y)], [y], 0, 0), [x, y, z], [x]))
  {
    hide Reaches;
    assert [x, y] + [z] == [x, y, z];
    var t := Two(max, blocking, 1, 0, One(1, Some(z), [z]), Block(2, 1, 1, 0, 1, 0, [None, Some(y)], [y], 0, 0), [x, y, z], [x]);
    StepTo(s0, s, RunProd(2, true), Unsignalled(t));
    Signal(s0, t);
  }

  lemma DequeueSecond<T(!new)>(s0: State<T>, max: nat, blocking: bool, x: T, y: T, z: T)
    requires Reaches(s0, Two(max, blocking, 1, 0, One(1, Some(z), [z]), Block(2, 1, 1, 0, 1, 0, [None, Some(y)], [y], 0, 0), [x, y, z], [x]))
    ensures Reaches(s0, Two(max, blocking, 1, 0, One(1, Some(z), [z]), Block(2, 0, 0, 0, 1, 0, [None, None], [], 0, 1), [x, y, z], [x, y]))
  {
    hide Reaches;
    var b0, b1 := One(1, Some(z), [z]), Block(2, 1, 1, 0, 1, 0, [None, Some(y)], [y], 0, 0);
    var s := Two(max, blocking, 1, 0, b0, b1, [x, y, z], [x]);
    var c := Claim(s, Dequeue);
    var s1 := c.(cons := CLoadTail(Dequeue));
    StepTo(s0, s, CallConsumer(Dequeue), s1);
    var s2 := c.(blocks := map[0 := b0, 1 := LoadTail(b1)], cons := CTake);
    StepTo(s0, s1, RunCons, s2);
    var b1' := Block(2, 0, 0, 0, 1, 0, [None, None], [], 0, 1);
    assert b1.data[1 := None] == [None, None] && [y][1..] == [] && [x] + [y] == [x, y];
    var t := Two(max, blocking, 1, 0, b0, b1', [x, y, z], [x, y]);
    assert t.blocks == s2.blocks[1 := b1'];
    Takes(s0, s2, y, b1', t);
  }

  // Three enqueues and two dequeues after ReaderWriterQueue(0), a third dequeue, or a peek, finds the next
  // block's front equal to its tail, and the assert fails; the block does hold the next element.
  lemma AssertFails<T(!new)>(s: State<T>, max: nat, blocking: bool, x: T, y: T, z: T, op: Op) returns (t: State<T>)
    requires max >= 2 && s == EmptyQueue(1, 1, max, blocking)
    ensures Reaches(s, t) && t.cons == CNextTail(op, 0) && !NextAssert(t)
    ensures t.enqueued == [x, y, z] && t.dequeued == [x, y] && 0 in t.blocks && t.blocks[0].items == [z]
    ensures ShownAll(t.blocks, t.ring) == 0
  {
    EnqueueFirst(s, max, blocking, x);
    hide Reaches;
    DequeueFirst(s, max, blocking, x);
    EnqueueSecond(s, max, blocking, x, y);
    EnqueueThird(s, max, blocking, x, y, z);
    DequeueSecond(s, max, blocking, x, y, z);
    HiddenFacts(max, blocking, x, y, z, op);
    GoesOn(s, Hidden(max, blocking, x, y, z), 0, op);
    t := Claim(Hidden(max, blocking, x, y, z), op).(cons := CNextTail(op, 0));
  }

  // The queue between calls with z alone in it, in the block of size 1.
  function Hidden<T>(max: nat, blocking: bool, x: T, y: T, z: T): State<T> {
    Two(max, blocking, 1, 0, One(1, Some(z), [z]), Block(2, 0, 0, 0, 1, 0, [None, None], [], 0, 1), [x, y, z], [x, y])
  }

  lemma HiddenFacts<T>(max: nat, blocking: bool, x: T, y: T, z: T, op: Op)
    ensures var s := Hidden(max, blocking, x, y, z);
            && Known(s) && s.cons.CIdle? && s.frontBlock == 1 && s.tailBlock == 0 && (blocking ==> s.credits == 1)
            && s.blocks[0].items == [z] && s.blocks[0].front == s.blocks[0].tail
            && (var b := s.blocks[1]; b.front == b.tail == b.localTail && b.seen == |b.items| && b.next == 0)
            && ShownAll(s.blocks, s.ring) == 0
  {
    var s := Hidden(max, blocking, x, y, z);
    assert s.ring[1..] == [0] && [0][1..] == [];
    assert ShownAll(s.blocks, [0]) == Shown(s.blocks[0]) + ShownAll(s.blocks, []);
  }

  // The asserts of one kind of call hold in every run exactly when the queue was constructed for at
  // least one element, whether the queue is blocking or not.
  lemma AssertsIffSized<T(!new)>(s: State<T>, size: nat, maxBlock: nat, blocking: bool, op: Op, x: T)
    requires Initial(s, size, maxBlock, blocking)
    ensures (forall t :: Reaches(s, t) && t.cons.CNextTail? && t.cons.op == op ==> NextAssert(t)) <==> size >= 1
  {
    if size >= 1 {
      forall t | Reaches(s, t) ensures NextAssert(t) {
        AssertsHold(s, t, size, maxBlock, blocking);
      }
    } else {
      InitialZero(s, maxBlock, blocking);
      var t := AssertFails(s, maxBlock, blocking, x, x, x, op);
    }
  }

  lemma AssertsHold<T(!new)>(s: State<T>, t: State<T>, size: nat, maxBlock: nat, blocking: bool)
    requires Initial(s, size, maxBlock, blocking) && size >= 1 && Reaches(s, t)
    ensures NextAssert(t)
  {
    hide Inv, Pow2Sizes, Reaches, Initial;
    ReachedSizes(s, t, size, maxBlock, blocking);
    ReachedInv(s, t, size, maxBlock, blocking);
    if t.cons.CNextTail? {
      NextShows(t);
      SizesOf(t, t.cons.n, 2);
    }
  }

  lemma InitialZero<T>(s: State<T>, maxBlock: nat, blocking: bool)
    requires Initial(s, 0, maxBlock, blocking)
    ensures maxBlock >= 2 && s == EmptyQueue(1, 1, maxBlock, blocking)
  {
    var n: nat, bs: nat :| Sized(n, bs, 0, maxBlock) && s == EmptyQueue(n, bs, maxBlock, blocking);
    var k: nat :| bs == Bits.Pow2(k);
    assert bs == 1;
  }

  // ---- counting by the indices -----------------------------------------------------------------

  // (tail - front) & sizeMask, with which size_approx counts; the destructor walks the same slots.
  function Shown<T>(b: Block<T>): nat { if b.tail >= b.front then b.tail - b.front else Sub(b.tail + b.size, b.front) }

  function ShownAll<T>(blocks: map<Id, Block<T>>, ids: seq<Id>): nat {
    if ids == [] then 0 else (if ids[0] in blocks then Shown(blocks[ids[0]]) else 0) + ShownAll(blocks, ids[1..])
  }

  // What is in the queue, and the element in the block the producer is about to advance to.
  function Held<T>(s: State<T>): nat { |Contents(s)| + (if s.prod.PAdvance? then 1 else 0) }

  lemma {:induction false} ShownIsCat<T>(blocks: map<Id, Block<T>>, ids: seq<Id>)
    requires forall i :: i in ids ==> i in blocks && Shown(blocks[i]) == |blocks[i].items|
    ensures ShownAll(blocks, ids) == |Cat(blocks, ids)|
  {
    if ids != [] {
      assert ids[0] in ids;
      ShownIsCat(blocks, ids[1..]);
    }
  }

  lemma {:induction false} CatAppend<T>(blocks: map<Id, Block<T>>, a: seq<Id>, b: seq<Id>)
    ensures Cat(blocks, a + b) == Cat(blocks, a) + Cat(blocks, b)
  {
    if a == [] {
      assert a + b == b;
    } else {
      assert (a + b)[1..] == a[1..] + b && (a + b)[0] == a[0];
      CatAppend(blocks, a[1..], b);
    }
  }

  lemma ShownIs<T>(b: Block<T>, taken: bool, pending: Option<T>)
    requires BlockOk(b, taken, pending) && b.size != 1
    ensures Shown(b) == |b.items|
  {
  }

  // The whole ring holds the contents and what is about to join them.
  lemma RingHolds<T>(s: State<T>)
    requires RingOk(s) && FillOk(s) && ProdOk(s)
    ensures |Cat(s.blocks, s.ring)| == Held(s)
  {
    var at := s.tailPos + 1;
    assert s.ring == s.ring[..at] + s.ring[at..];
    CatAppend(s.blocks, s.ring[..at], s.ring[at..]);
    if s.prod.PAdvance? {
      NextHolds(s);
    } else {
      EmptyFrom(s, at);
    }
  }

  lemma NextHolds<T>(s: State<T>)
    requires RingOk(s) && FillOk(s) && s.prod.PAdvance? && IsNext(s, s.prod.n)
    ensures Cat(s.blocks, s.ring[s.tailPos + 1..]) == [s.prod.x]
  {
    var at := s.tailPos + 1;
    assert s.ring[at] in s.blocks && s.blocks[s.ring[at]].items == [s.prod.x];
    EmptyFrom(s, at + 1);
    hide *;
    assert s.ring[at..] == [s.ring[at]] + s.ring[at + 1..];
    CatAppend(s.blocks, [s.ring[at]], s.ring[at + 1..]);
    CatOne(s.blocks, s.ring[at]);
    assert [s.prod.x] + [] == [s.prod.x];
  }

  lemma CatOne<T>(blocks: map<Id, Block<T>>, n: Id)
    requires n in blocks
    ensures Cat(blocks, [n]) == blocks[n].items
  {
    CatSnoc(blocks, [], n);
    assert [] + [n] == [n] && [] + blocks[n].items == blocks[n].items;
  }

  lemma EmptyFrom<T>(s: State<T>, at: nat)
    requires RingOk(s) && FillOk(s) && s.tailPos < at <= |s.ring|
    requires s.prod.PAdvance? ==> s.prod.n in s.ring[..at]
    ensures Cat(s.blocks, s.ring[at..]) == []
  {
    forall i | i in s.ring[at..] ensures i in s.blocks && s.blocks[i].items == [] {
      var k :| at <= k < |s.ring| && s.ring[k] == i;
    }
    EmptyCat(s.blocks, s.ring[at..]);
  }

  lemma CountsRight<T(!new)>(s: State<T>, t: State<T>, size: nat, maxBlock: nat, blocking: bool)
    requires Initial(s, size, maxBlock, blocking) && size >= 1 && Reaches(s, t)
    ensures ShownAll(t.blocks, t.ring) == Held(t)
  {
    hide Pow2Sizes, Reaches, Initial;
    ReachedSizes(s, t, size, maxBlock, blocking);
    ReachedInv(s, t, size, maxBlock, blocking);
    RingHolds(t);
    hide FillOk, ProdOk, ConsOk, FrontOk, CreditsOk, BlockOk, Contents, Held;
    forall i | i in t.ring ensures i in t.blocks && Shown(t.blocks[i]) == |t.blocks[i].items| {
      var k :| 0 <= k < |t.ring| && t.ring[k] == i;
      SizesOf(t, i, 2);
      ShownIs(t.blocks[i], Taken(t, i), Pending(t, i));
    }
    ShownIsCat(t.blocks, t.ring);
  }

  // size_approx, read at any one moment, and the destructor miss nothing exactly when the queue was
  // constructed for at least one element.
  lemma CountsIffSized<T(!new)>(s: State<T>, size: nat, maxBlock: nat, blocking: bool, x: T)
    requires Initial(s, size, maxBlock, blocking)
    ensures (forall t :: Reaches(s, t) ==> ShownAll(t.blocks, t.ring) == Held(t)) <==> size >= 1
  {
    if size >= 1 {
      forall t | Reaches(s, t) ensures ShownAll(t.blocks, t.ring) == Held(t) {
        CountsRight(s, t, size, maxBlock, blocking);
      }
    } else {
      InitialZero(s, maxBlock, blocking);
      var t := AssertFails(s, maxBlock, blocking, x, x, x, Peek);
      hide Contents;
      Fifo(s, t, 0, maxBlock, blocking);
      assert |Contents(t)| == 1;
    }
  }
}
