/**
 * The reference-counted lock-free free list of moodycamel's ConcurrentQueue, as a step machine.
 *
 * Every atomic load, store, compare-exchange and fetch-add is one step, and any number of threads
 * (up to the 31 bits of the reference count) interleave their steps arbitrarily.  `status` and
 * `list` are auxiliary: no step branches on them, they only record what the concrete words mean.
 * The client's one obligation is to `add` only nodes that the calling thread owns.
 */
module FreeList {
  import opened Wrappers

  type Tid = nat
  type Node = nat
  type Link = Option<Node>

  const SHOULD_BE_ON_FREELIST: nat := 0x8000_0000
  const WORD: nat := 0x1_0000_0000

  // The list's own reference, the winner's and every other thread's must fit in the 31 count bits.
  const MAX_THREADS: nat := 0x7FFF_FFFE

  // Who called add_knowing_refcount_is_zero: `add`, or a try_get that goes on with the head it saw.
  datatype Caller = FromAdd | FromGet(head: Link)

  // The program counter of one thread; it names the next atomic operation.
  datatype Pc =
    | Idle
    | AddFlag(node: Node)                                  // add: fetch_add(SHOULD_BE_ON_FREELIST)
    | PushLoad(node: Node, caller: Caller)                 // add_knowing_refcount_is_zero: load head
    | PushNext(node: Node, head: Link, caller: Caller)     // store next
    | PushRef(node: Node, head: Link, caller: Caller)      // store refs = 1
    | PushCas(node: Node, head: Link, caller: Caller)      // CAS head -> node
    | PushUndo(node: Node, head: Link, caller: Caller)     // fetch_add(SHOULD_BE_ON_FREELIST - 1)
    | GetHead                                              // try_get: load head
    | GetRefs(node: Node)                                  // load the head node's refs
    | GetCasRef(node: Node, refs: nat)                     // CAS refs -> refs + 1
    | GetNext(node: Node)                                  // load next
    | GetCasHead(node: Node, next: Link)                   // CAS head -> next
    | GetCheck(node: Node)                                 // the assert on the won node
    | GetDropTwo(node: Node)                               // fetch_sub(2)
    | GetUndo(node: Node, head: Link)                      // fetch_sub(1) after losing the CAS

  // What a node currently is.
  datatype Status =
    | Owned(tid: Tid)      // in the hands of a client thread
    | Won(tid: Tid)        // taken off the list by a try_get that has not returned yet
    | OnList
    | Adding(tid: Tid)     // exactly one thread runs add_knowing_refcount_is_zero on it
    | Flagged             // to be added by whoever drops the last reference

  datatype State = State(
    head: Link,
    refs: map<Node, nat>,
    next: map<Node, Link>,
    pc: map<Tid, Pc>,
    status: map<Node, Status>,
    list: seq<Node>)

  datatype Action =
    | Run(t: Tid)                         // the next atomic operation of t
    | CallAdd(t: Tid, node: Node)
    | CallTryGet(t: Tid)
    | Give(t: Tid, node: Node, to: Tid)   // a client passes a node it owns to another thread
    | Create(t: Tid, node: Node)          // a client allocates a new node

  // The masked count of a 32-bit word.
  function Count(refs: nat): nat { if refs < SHOULD_BE_ON_FREELIST then refs else refs - SHOULD_BE_ON_FREELIST }

  // 32-bit wrap-around of one addition or subtraction.
  function Wrap(w: nat): nat { if w < WORD then w else w - WORD }

  function AfterUndo(node: Node, head: Link, old_refs: nat): (p: Pc)
    ensures Nodes(p) <= {node} + Target(head)
  {
    if old_refs == SHOULD_BE_ON_FREELIST + 1 then PushLoad(node, FromGet(head)) else Loop(head)
  }

  // The test `head != nullptr` of try_get's loop.
  function Loop(head: Link): (p: Pc)
    ensures Nodes(p) == Target(head) && (p == Idle || p.GetRefs?)
  {
    match head
    case None => Idle
    case Some(n) => GetRefs(n)
  }

  // add_knowing_refcount_is_zero returns to its caller.
  function Return(caller: Caller): (p: Pc)
    ensures Nodes(p) == Target(CallerLink(caller)) && (p == Idle || p.GetRefs?)
  {
    match caller
    case FromAdd => Idle
    case FromGet(head) => Loop(head)
  }

  // The nodes a program counter mentions.
  function Nodes(p: Pc): set<Node> {
    match p
    case Idle => {}
    case GetHead => {}
    case AddFlag(n) => {n}
    case PushLoad(n, c) => {n} + Target(CallerLink(c))
    case PushNext(n, h, c) => {n} + Target(h) + Target(CallerLink(c))
    case PushRef(n, h, c) => {n} + Target(h) + Target(CallerLink(c))
    case PushCas(n, h, c) => {n} + Target(h) + Target(CallerLink(c))
    case PushUndo(n, h, c) => {n} + Target(h) + Target(CallerLink(c))
    case GetCasHead(n, x) => {n} + Target(x)
    case GetUndo(n, h) => {n} + Target(h)
    case GetRefs(n) => {n}
    case GetCasRef(n, _) => {n}
    case GetNext(n) => {n}
    case GetCheck(n) => {n}
    case GetDropTwo(n) => {n}
  }

  function CallerLink(c: Caller): Link { if c.FromGet? then c.head else None }

  function Target(l: Link): set<Node> { if l.None? then {} else {l.value} }

  predicate KeysAgree(s: State) { s.refs.Keys == s.next.Keys == s.status.Keys }

  predicate Domains(s: State) {
    && KeysAgree(s)
    && Target(s.head) <= s.refs.Keys
    && (forall n {:trigger s.next[n]} :: n in s.next ==> Target(s.next[n]) <= s.refs.Keys)
    && (forall n :: n in s.list ==> n in s.refs)
    && (forall t {:trigger s.pc[t]} :: t in s.pc ==> Nodes(s.pc[t]) <= s.refs.Keys)
  }

  // ---- the steps -------------------------------------------------------------------------------

  predicate Enabled(s: State, a: Action)
    requires Domains(s)
  {
    a.t in s.pc &&
    match a
    case Run(t) => s.pc[t] != Idle
    case CallAdd(t, n) => s.pc[t] == Idle && n in s.refs && s.status[n] == Owned(t)
    case CallTryGet(t) => s.pc[t] == Idle
    case Give(t, n, u) => s.pc[t] == Idle && u in s.pc && n in s.refs && s.status[n] == Owned(t)
    case Create(t, n) => s.pc[t] == Idle && n !in s.refs
  }

  function Apply(s: State, a: Action): State
    requires Domains(s) && Enabled(s, a)
  {
    match a
    case Run(t) => Step(s, t)
    case CallAdd(t, n) => Goto(s, t, AddFlag(n))
    case CallTryGet(t) => Goto(s, t, GetHead)
    case Give(t, n, u) => Mark(s, n, Owned(u))
    case Create(t, n) =>
      s.(refs := s.refs[n := 0], next := s.next[n := None], status := s.status[n := Owned(t)])
  }

  function Goto(s: State, t: Tid, p: Pc): State { s.(pc := s.pc[t := p]) }

  function Mark(s: State, n: Node, st: Status): State { s.(status := s.status[n := st]) }

  function SetRefs(s: State, n: Node, w: nat): State { s.(refs := s.refs[n := Wrap(w)]) }

  function Step(s: State, t: Tid): State
    requires Domains(s) && t in s.pc
  {
    match s.pc[t]
    case Idle => s
    case AddFlag(n) => DoAddFlag(s, t, n)
    case PushLoad(n, c) => Goto(s, t, PushNext(n, s.head, c))
    case PushNext(n, h, c) => DoPushNext(s, t, n, h, c)
    case PushRef(n, h, c) => DoPushRef(s, t, n, h, c)
    case PushCas(n, h, c) => DoPushCas(s, t, n, h, c)
    case PushUndo(n, h, c) => DoPushUndo(s, t, n, h, c)
    case GetHead => Goto(s, t, Loop(s.head))
    case GetRefs(n) => DoGetRefs(s, t, n)
    case GetCasRef(n, r) => DoGetCasRef(s, t, n, r)
    case GetNext(n) => DoGetNext(s, t, n)
    case GetCasHead(n, x) => DoGetCasHead(s, t, n, x)
    case GetCheck(n) => Goto(s, t, GetDropTwo(n))
    case GetDropTwo(n) => DoGetDropTwo(s, t, n)
    case GetUndo(n, h) => DoGetUndo(s, t, n, h)
  }

  function DoAddFlag(s: State, t: Tid, n: Node): (s': State)
    requires n in s.refs
    ensures t in s'.pc
  {
    var s1 := SetRefs(s, n, s.refs[n] + SHOULD_BE_ON_FREELIST);
    if s.refs[n] == 0 then Mark(Goto(s1, t, PushLoad(n, FromAdd)), n, Adding(t))
    else Mark(Goto(s1, t, Idle), n, Flagged)
  }

  function DoPushNext(s: State, t: Tid, n: Node, h: Link, c: Caller): (s': State)
    ensures t in s'.pc
  {
    Goto(s.(next := s.next[n := h]), t, PushRef(n, h, c))
  }

  function DoPushRef(s: State, t: Tid, n: Node, h: Link, c: Caller): (s': State)
    ensures t in s'.pc
  {
    Goto(SetRefs(s, n, 1), t, PushCas(n, h, c))
  }

  function DoPushCas(s: State, t: Tid, n: Node, h: Link, c: Caller): (s': State)
    ensures t in s'.pc
  {
    if s.head == h then
      Mark(Goto(s.(head := Some(n), list := [n] + s.list), t, Return(c)), n, OnList)
    else
      Goto(s, t, PushUndo(n, s.head, c))
  }

  function DoPushUndo(s: State, t: Tid, n: Node, h: Link, c: Caller): (s': State)
    requires n in s.refs
    ensures t in s'.pc
  {
    var s1 := SetRefs(s, n, s.refs[n] + SHOULD_BE_ON_FREELIST - 1);
    if s.refs[n] == 1 then Goto(s1, t, PushNext(n, h, c))
    else Mark(Goto(s1, t, Return(c)), n, Flagged)
  }

  function DoGetRefs(s: State, t: Tid, n: Node): (s': State)
    requires n in s.refs
    ensures t in s'.pc
  {
    if Count(s.refs[n]) == 0 then Goto(s, t, GetHead) else Goto(s, t, GetCasRef(n, s.refs[n]))
  }

  function DoGetCasRef(s: State, t: Tid, n: Node, r: nat): (s': State)
    requires n in s.refs
    ensures t in s'.pc
  {
    if s.refs[n] == r then Goto(SetRefs(s, n, r + 1), t, GetNext(n)) else Goto(s, t, GetHead)
  }

  function DoGetNext(s: State, t: Tid, n: Node): (s': State)
    requires n in s.next
    ensures t in s'.pc
  {
    Goto(s, t, GetCasHead(n, s.next[n]))
  }

  function DoGetCasHead(s: State, t: Tid, n: Node, x: Link): (s': State)
    ensures t in s'.pc
  {
    if s.head == Some(n) then
      Mark(Goto(s.(head := x, list := if s.list == [] then [] else s.list[1..]), t, GetCheck(n)), n, Won(t))
    else
      Goto(s, t, GetUndo(n, s.head))
  }

  function DoGetDropTwo(s: State, t: Tid, n: Node): (s': State)
    requires n in s.refs
    ensures t in s'.pc
  {
    Mark(Goto(SetRefs(s, n, s.refs[n] + WORD - 2), t, Idle), n, Owned(t))
  }

  function DoGetUndo(s: State, t: Tid, n: Node, h: Link): (s': State)
    requires n in s.refs
    ensures t in s'.pc
  {
    var s1 := Goto(SetRefs(s, n, s.refs[n] + WORD - 1), t, AfterUndo(n, h, s.refs[n]));
    if s.refs[n] == SHOULD_BE_ON_FREELIST + 1 then Mark(s1, n, Adding(t)) else s1
  }

  // ---- the invariant ---------------------------------------------------------------------------

  // A thread that has incremented the count of n and not yet decremented it.
  predicate HoldsRef(p: Pc, n: Node) {
    p == GetNext(n) || (p.GetCasHead? && p.node == n) || (p.GetUndo? && p.node == n)
    || p == GetCheck(n) || p == GetDropTwo(n)
  }

  function Holders(s: State, n: Node): set<Tid> { set t | t in s.pc && HoldsRef(s.pc[t], n) }

  // add_knowing_refcount_is_zero is running on n with the count at zero: nobody can touch the node.
  predicate PushingAtZero(p: Pc, n: Node) {
    (p.PushLoad? || p.PushNext? || p.PushRef?) && p.node == n
  }

  // ... or with the list's reference already stored.
  predicate PushingAtOne(p: Pc, n: Node) { (p.PushCas? || p.PushUndo?) && p.node == n }

  predicate FlagSet(s: State, n: Node)
    requires n in s.status
  {
    match s.status[n]
    case Flagged => true
    case Adding(t) => t in s.pc && PushingAtZero(s.pc[t], n)
    case _ => false
  }

  // The list's reference: held while on the list, by the thread adding, and by the thread that won.
  predicate ListRef(s: State, n: Node)
    requires n in s.status
  {
    match s.status[n]
    case OnList => true
    case Won(_) => true
    case Adding(t) => t in s.pc && PushingAtOne(s.pc[t], n)
    case _ => false
  }

  function RefWord(s: State, n: Node): nat
    requires n in s.status
  {
    |Holders(s, n)| + (if ListRef(s, n) then 1 else 0)
    + (if FlagSet(s, n) then SHOULD_BE_ON_FREELIST else 0)
  }

  predicate StatusOk(s: State, n: Node)
    requires n in s.status
  {
    match s.status[n]
    case Owned(t) => t in s.pc
    case Won(t) => t in s.pc && (s.pc[t] == GetCheck(n) || s.pc[t] == GetDropTwo(n))
    case OnList => n in s.list
    case Adding(t) =>
      && t in s.pc
      && (PushingAtOne(s.pc[t], n) || (PushingAtZero(s.pc[t], n) && Holders(s, n) == {}))
    case Flagged => Holders(s, n) != {}
  }

  predicate NodeOk(s: State, n: Node)
    requires n in s.refs && n in s.status
  {
    && StatusOk(s, n)
    && (n in s.list ==> s.status[n] == OnList)
    && s.refs[n] == RefWord(s, n)
  }

  predicate PcOk(s: State, t: Tid)
    requires KeysAgree(s) && t in s.pc && Nodes(s.pc[t]) <= s.refs.Keys
  {
    match s.pc[t]
    case AddFlag(n) => s.status[n] == Owned(t)
    case PushLoad(n, c) => s.status[n] == Adding(t)
    case PushNext(n, h, c) => s.status[n] == Adding(t)
    case PushRef(n, h, c) => s.status[n] == Adding(t) && s.next[n] == h
    case PushCas(n, h, c) => s.status[n] == Adding(t) && s.next[n] == h
    case PushUndo(n, h, c) => s.status[n] == Adding(t)
    case GetCasRef(n, r) => Count(r) != 0
    case GetCasHead(n, x) => s.next[n] == x
    case GetCheck(n) => s.status[n] == Won(t)
    case GetDropTwo(n) => s.status[n] == Won(t)
    case _ => true
  }

  // The pointers spell out `list`: it is what a traversal from the head visits.
  predicate Linked(next: map<Node, Link>, l: Link, list: seq<Node>)
    decreases list
  {
    if list == [] then l == None
    else l == Some(list[0]) && list[0] in next && Linked(next, next[list[0]], list[1..])
  }

  predicate Distinct(list: seq<Node>) { forall i, j :: 0 <= i < j < |list| ==> list[i] != list[j] }

  predicate Inv(s: State) {
    && Domains(s)
    && |s.pc| <= MAX_THREADS
    && Linked(s.next, s.head, s.list)
    && Distinct(s.list)
    && (forall t {:trigger PcOk(s, t)} :: t in s.pc ==> PcOk(s, t))
    && (forall n {:trigger NodeOk(s, n)} :: n in s.refs ==> NodeOk(s, n))
  }

  // ---- frame lemmas ----------------------------------------------------------------------------

  lemma HoldersChange(s: State, s': State, t: Tid, n: Node)
    requires t in s.pc && t in s'.pc && s'.pc == s.pc[t := s'.pc[t]]
    ensures HoldsRef(s.pc[t], n) == HoldsRef(s'.pc[t], n) ==> Holders(s', n) == Holders(s, n)
    ensures !HoldsRef(s.pc[t], n) && HoldsRef(s'.pc[t], n) ==>
              Holders(s', n) == Holders(s, n) + {t} && |Holders(s', n)| == |Holders(s, n)| + 1
    ensures HoldsRef(s.pc[t], n) && !HoldsRef(s'.pc[t], n) ==>
              Holders(s', n) == Holders(s, n) - {t} && |Holders(s', n)| == |Holders(s, n)| - 1
  {
    if HoldsRef(s.pc[t], n) == HoldsRef(s'.pc[t], n) {
      assert Holders(s', n) == Holders(s, n);
    } else if HoldsRef(s'.pc[t], n) {
      assert Holders(s', n) == Holders(s, n) + {t};
    } else {
      assert Holders(s', n) == Holders(s, n) - {t};
    }
  }

  lemma HoldersBound(s: State, n: Node)
    ensures |Holders(s, n)| <= |s.pc|
  {
    SubsetSize(Holders(s, n), s.pc.Keys);
  }

  lemma SubsetSize<T>(a: set<T>, b: set<T>)
    requires a <= b
    ensures |a| <= |b|
  {
    assert b == a + (b - a);
  }

  lemma {:induction false} LinkedFrame(next: map<Node, Link>, next': map<Node, Link>, l: Link, list: seq<Node>)
    requires Linked(next, l, list)
    requires forall n :: n in list ==> n in next && n in next' && next'[n] == next[n]
    ensures Linked(next', l, list)
    decreases list
  {
    if list != [] {
      LinkedFrame(next, next', next[list[0]], list[1..]);
    }
  }

  // The only node p can have a claim on is n.
  predicate ClaimsAtMost(p: Pc, n: Node) {
    (p.GetNext? || p.GetCasHead? || p.GetUndo? || p.GetCheck? || p.GetDropTwo?
     || p.PushLoad? || p.PushNext? || p.PushRef? || p.PushCas? || p.PushUndo?) ==> p.node == n
  }

  // A step of t that touches node n only, and n only when no other thread has a claim on it.
  predicate TouchesOnly(s: State, s': State, t: Tid, n: Node)
    requires t in s.pc && n in s.status && n in s.next
  {
    && t in s'.pc && n in s'.status && n in s'.next && n in s'.refs
    && s'.pc == s.pc[t := s'.pc[t]]
    && s'.status == s.status[n := s'.status[n]]
    && s'.refs == s.refs[n := s'.refs[n]]
    && s'.next == s.next[n := s'.next[n]]
    && (s'.list == s.list || s'.list == [n] + s.list || s.list == [n] + s'.list)
    && ClaimsAtMost(s.pc[t], n) && ClaimsAtMost(s'.pc[t], n)
    && (s'.status[n] == s.status[n]
        || s.status[n] in {Owned(t), Won(t), Adding(t), OnList, Flagged})
    && (s'.next[n] == s.next[n] || (s.status[n] == Adding(t) && Holders(s, n) == {}))
  }

  // What the step reads and stores are known nodes.
  predicate Closed(s: State, s': State, t: Tid, n: Node)
    requires t in s'.pc && n in s.next && n in s'.next
  {
    && Nodes(s'.pc[t]) <= s.refs.Keys && Target(s'.head) <= s.refs.Keys
    && (s'.next[n] == s.next[n] || Target(s'.next[n]) <= s.refs.Keys)
  }

  // A step of t that changes neither n nor t's claim on it leaves the node as it was.
  lemma NodeStays(s: State, s': State, t: Tid, n: Node)
    requires t in s.pc && t in s'.pc && s'.pc == s.pc[t := s'.pc[t]]
    requires n in s.refs && n in s'.refs && n in s.status && n in s'.status
    requires s'.status[n] == s.status[n] && s'.refs[n] == s.refs[n] && (n in s'.list <==> n in s.list)
    requires HoldsRef(s'.pc[t], n) == HoldsRef(s.pc[t], n)
    requires PushingAtZero(s'.pc[t], n) == PushingAtZero(s.pc[t], n)
    requires PushingAtOne(s'.pc[t], n) == PushingAtOne(s.pc[t], n)
    requires Winning(s, t, n) ==> Winning(s', t, n)
    requires NodeOk(s, n)
    ensures NodeOk(s', n)
  {
    HoldersChange(s, s', t, n);
  }

  lemma OtherNode(s: State, s': State, t: Tid, n: Node, m: Node)
    requires t in s.pc && n in s.status && n in s.next && TouchesOnly(s, s', t, n)
    requires m != n && m in s.refs && m in s.status && NodeOk(s, m)
    ensures NodeOk(s', m)
  {
    NodeStays(s, s', t, m);
  }

  lemma OtherThread(s: State, s': State, t: Tid, n: Node, u: Tid)
    requires KeysAgree(s) && t in s.pc && n in s.refs && u in s.pc && u != t
    requires TouchesOnly(s, s', t, n) && Nodes(s.pc[u]) <= s.refs.Keys && PcOk(s, u)
    ensures Nodes(s'.pc[u]) <= s'.refs.Keys && PcOk(s', u)
  {
    assert s'.pc[u] == s.pc[u];
    if s.pc[u].GetCasHead? && s.pc[u].node == n {
      assert u in Holders(s, n);
    }
  }

  lemma DomainsKept(s: State, s': State, t: Tid, n: Node)
    requires Domains(s) && t in s.pc && n in s.refs && TouchesOnly(s, s', t, n) && Closed(s, s', t, n)
    ensures Domains(s') && s'.pc.Keys == s.pc.Keys
  {
    forall u | u in s'.pc ensures Nodes(s'.pc[u]) <= s'.refs.Keys {
      if u != t { assert s'.pc[u] == s.pc[u]; }
    }
  }

  lemma Keeps(s: State, s': State, t: Tid, n: Node)
    requires Inv(s) && t in s.pc && n in s.refs
    requires TouchesOnly(s, s', t, n) && Closed(s, s', t, n)
    requires Linked(s'.next, s'.head, s'.list) && Distinct(s'.list)
    requires KeysAgree(s') && PcOk(s', t) && NodeOk(s', n)
    ensures Inv(s')
  {
    DomainsKept(s, s', t, n);
    assert |s'.pc| == |s'.pc.Keys| == |s.pc.Keys| == |s.pc|;
    forall u | u in s'.pc ensures PcOk(s', u) {
      if u != t {
        assert Nodes(s.pc[u]) <= s.refs.Keys && PcOk(s, u);
        OtherThread(s, s', t, n, u);
      }
    }
    forall m | m in s'.refs ensures NodeOk(s', m) {
      if m != n {
        assert NodeOk(s, m);
        OtherNode(s, s', t, n, m);
      }
    }
  }

  // What the invariant says about a running thread and its node.
  lemma Facts(s: State, t: Tid, n: Node)
    requires Inv(s) && t in s.pc && n in Nodes(s.pc[t])
    ensures KeysAgree(s) && |s.pc| <= MAX_THREADS && n in s.refs && NodeOk(s, n)
    ensures Nodes(s.pc[t]) <= s.refs.Keys && PcOk(s, t)
    ensures Target(s.head) <= s.refs.Keys && Target(s.next[n]) <= s.refs.Keys
    ensures Linked(s.next, s.head, s.list) && Distinct(s.list)
    ensures forall m :: m in s.list ==> m in s.refs
  {
    assert PcOk(s, t) && NodeOk(s, n);
  }

  // Unlinking the head leaves the rest of the list, which no longer contains it.
  lemma ListPop(next: map<Node, Link>, n: Node, list: seq<Node>)
    requires Linked(next, Some(n), list) && Distinct(list) && n in next
    ensures list != [] && list == [n] + list[1..] && n !in list[1..]
    ensures Linked(next, next[n], list[1..]) && Distinct(list[1..])
  {
  }

  // A non-zero count cannot overflow into the flag, and belongs to a node nobody is rewriting.
  lemma CountedRef(s: State, t: Tid, n: Node)
    requires t in s.pc && n in s.refs && n in s.status && NodeOk(s, n)
    requires |s.pc| <= MAX_THREADS && !HoldsRef(s.pc[t], n) && Count(s.refs[n]) != 0
    ensures Wrap(s.refs[n] + 1) == s.refs[n] + 1
    ensures s.status[n].Adding? ==> s.status[n].tid in s.pc && PushingAtOne(s.pc[s.status[n].tid], n)
  {
    HoldersBound(s, n);
  }

  lemma AddFlagNode(s: State, t: Tid, n: Node)
    requires KeysAgree(s) && |s.pc| <= MAX_THREADS
    requires t in s.pc && s.pc[t] == AddFlag(n) && n in s.refs && NodeOk(s, n) && s.status[n] == Owned(t)
    ensures var s' := DoAddFlag(s, t, n); KeysAgree(s') && NodeOk(s', n) && TouchesOnly(s, s', t, n)
  {
    hide NodeOk, TouchesOnly;
    AddFlagWord(s, t, n);
    AddFlagTouches(s, t, n);
  }

  lemma AddFlagWord(s: State, t: Tid, n: Node)
    requires KeysAgree(s) && |s.pc| <= MAX_THREADS
    requires t in s.pc && s.pc[t] == AddFlag(n) && n in s.refs && NodeOk(s, n) && s.status[n] == Owned(t)
    ensures NodeOk(DoAddFlag(s, t, n), n)
  {
    var s' := DoAddFlag(s, t, n);
    HoldersBound(s, n);
    HoldersChange(s, s', t, n);
    assert Holders(s', n) == Holders(s, n);
    if s.refs[n] == 0 {
      assert NodeOk(s', n);
    } else {
      assert NodeOk(s', n);
    }
  }

  lemma AddFlagTouches(s: State, t: Tid, n: Node)
    requires KeysAgree(s) && |s.pc| <= MAX_THREADS
    requires t in s.pc && s.pc[t] == AddFlag(n) && n in s.refs && NodeOk(s, n) && s.status[n] == Owned(t)
    ensures var s' := DoAddFlag(s, t, n); KeysAgree(s') && TouchesOnly(s, s', t, n)
  {
  }

  lemma AddFlagKeeps(s: State, t: Tid, n: Node)
    requires Inv(s) && t in s.pc && s.pc[t] == AddFlag(n)
    ensures n in s.refs && Inv(DoAddFlag(s, t, n))
  {
    hide Inv, NodeOk, TouchesOnly;
    Facts(s, t, n);
    AddFlagNode(s, t, n);
    var s' := DoAddFlag(s, t, n);
    Keeps(s, s', t, n);
  }

  lemma PushLoadNode(s: State, t: Tid, n: Node, c: Caller)
    requires KeysAgree(s) && |s.pc| <= MAX_THREADS
    requires t in s.pc && s.pc[t] == PushLoad(n, c) && n in s.refs && NodeOk(s, n) && s.status[n] == Adding(t)
    ensures var s' := Goto(s, t, PushNext(n, s.head, c)); KeysAgree(s') && NodeOk(s', n) && TouchesOnly(s, s', t, n)
  {
    var s' := Goto(s, t, PushNext(n, s.head, c));
    NodeStays(s, s', t, n);
  }

  lemma PushLoadKeeps(s: State, t: Tid, n: Node, c: Caller)
    requires Inv(s) && t in s.pc && s.pc[t] == PushLoad(n, c)
    ensures n in s.refs && Inv(Goto(s, t, PushNext(n, s.head, c)))
  {
    hide Inv, NodeOk, TouchesOnly;
    Facts(s, t, n);
    PushLoadNode(s, t, n, c);
    var s' := Goto(s, t, PushNext(n, s.head, c));
    Keeps(s, s', t, n);
  }

  lemma PushNextNode(s: State, t: Tid, n: Node, h: Link, c: Caller)
    requires KeysAgree(s) && |s.pc| <= MAX_THREADS
    requires t in s.pc && s.pc[t] == PushNext(n, h, c) && n in s.refs && NodeOk(s, n) && s.status[n] == Adding(t)
    ensures var s' := DoPushNext(s, t, n, h, c); KeysAgree(s') && NodeOk(s', n) && TouchesOnly(s, s', t, n)
  {
    var s' := DoPushNext(s, t, n, h, c);
    NodeStays(s, s', t, n);
  }

  lemma PushNextKeeps(s: State, t: Tid, n: Node, h: Link, c: Caller)
    requires Inv(s) && t in s.pc && s.pc[t] == PushNext(n, h, c)
    ensures n in s.refs && Inv(DoPushNext(s, t, n, h, c))
  {
    hide Inv, NodeOk, TouchesOnly;
    Facts(s, t, n);
    PushNextNode(s, t, n, h, c);
    var s' := DoPushNext(s, t, n, h, c);
    LinkedFrame(s.next, s'.next, s.head, s.list);
    Keeps(s, s', t, n);
  }

  lemma PushRefNode(s: State, t: Tid, n: Node, h: Link, c: Caller)
    requires KeysAgree(s) && |s.pc| <= MAX_THREADS
    requires t in s.pc && s.pc[t] == PushRef(n, h, c) && n in s.refs && NodeOk(s, n) && s.status[n] == Adding(t)
    ensures var s' := DoPushRef(s, t, n, h, c); KeysAgree(s') && NodeOk(s', n) && TouchesOnly(s, s', t, n)
  {
    var s' := DoPushRef(s, t, n, h, c);
    HoldersChange(s, s', t, n);
  }

  lemma PushRefKeeps(s: State, t: Tid, n: Node, h: Link, c: Caller)
    requires Inv(s) && t in s.pc && s.pc[t] == PushRef(n, h, c)
    ensures n in s.refs && Inv(DoPushRef(s, t, n, h, c))
  {
    hide Inv, NodeOk, TouchesOnly;
    Facts(s, t, n);
    PushRefNode(s, t, n, h, c);
    var s' := DoPushRef(s, t, n, h, c);
    Keeps(s, s', t, n);
  }

  lemma PushCasNode(s: State, t: Tid, n: Node, h: Link, c: Caller)
    requires KeysAgree(s) && |s.pc| <= MAX_THREADS
    requires t in s.pc && s.pc[t] == PushCas(n, h, c) && n in s.refs && NodeOk(s, n) && s.status[n] == Adding(t)
    ensures var s' := DoPushCas(s, t, n, h, c); KeysAgree(s') && NodeOk(s', n) && TouchesOnly(s, s', t, n)
  {
    var s' := DoPushCas(s, t, n, h, c);
    if s.head == h {
      HoldersChange(s, s', t, n);
    } else {
      NodeStays(s, s', t, n);
    }
  }

  lemma PushCasKeeps(s: State, t: Tid, n: Node, h: Link, c: Caller)
    requires Inv(s) && t in s.pc && s.pc[t] == PushCas(n, h, c)
    ensures n in s.refs && Inv(DoPushCas(s, t, n, h, c))
  {
    hide Inv, NodeOk, TouchesOnly;
    Facts(s, t, n);
    PushCasNode(s, t, n, h, c);
    var s' := DoPushCas(s, t, n, h, c);
    assert s.head == h ==> s'.list[1..] == s.list;
    Keeps(s, s', t, n);
  }

  lemma PushUndoNode(s: State, t: Tid, n: Node, h: Link, c: Caller)
    requires KeysAgree(s) && |s.pc| <= MAX_THREADS
    requires t in s.pc && s.pc[t] == PushUndo(n, h, c) && n in s.refs && NodeOk(s, n) && s.status[n] == Adding(t)
    ensures var s' := DoPushUndo(s, t, n, h, c); KeysAgree(s') && NodeOk(s', n) && TouchesOnly(s, s', t, n)
  {
    hide NodeOk, TouchesOnly;
    PushUndoWord(s, t, n, h, c);
    PushUndoTouches(s, t, n, h, c);
  }

  lemma PushUndoWord(s: State, t: Tid, n: Node, h: Link, c: Caller)
    requires KeysAgree(s) && |s.pc| <= MAX_THREADS
    requires t in s.pc && s.pc[t] == PushUndo(n, h, c) && n in s.refs && NodeOk(s, n) && s.status[n] == Adding(t)
    ensures NodeOk(DoPushUndo(s, t, n, h, c), n)
  {
    var s' := DoPushUndo(s, t, n, h, c);
    hide Holders, NodeOk;
    HoldersBound(s, n);
    HoldersChange(s, s', t, n);
    if s.refs[n] == 1 {
      PushUndoLast(s, t, n, h, c);
    } else {
      PushUndoMore(s, t, n, h, c);
    }
  }

  // Nobody else holds a reference: the thread goes on adding the node.
  lemma PushUndoLast(s: State, t: Tid, n: Node, h: Link, c: Caller)
    requires t in s.pc && s.pc[t] == PushUndo(n, h, c) && n in s.refs && n in s.status && s.refs[n] == 1
    requires NodeOk(s, n) && s.status[n] == Adding(t) && Holders(DoPushUndo(s, t, n, h, c), n) == Holders(s, n)
    ensures NodeOk(DoPushUndo(s, t, n, h, c), n)
  {
    hide Holders;
  }

  // The last of the others will add it.
  lemma PushUndoMore(s: State, t: Tid, n: Node, h: Link, c: Caller)
    requires t in s.pc && s.pc[t] == PushUndo(n, h, c) && n in s.refs && n in s.status && s.refs[n] != 1
    requires NodeOk(s, n) && s.status[n] == Adding(t) && Holders(DoPushUndo(s, t, n, h, c), n) == Holders(s, n)
    requires |Holders(s, n)| <= |s.pc| <= MAX_THREADS
    ensures NodeOk(DoPushUndo(s, t, n, h, c), n)
  {
    hide Holders;
  }

  lemma PushUndoTouches(s: State, t: Tid, n: Node, h: Link, c: Caller)
    requires KeysAgree(s) && |s.pc| <= MAX_THREADS
    requires t in s.pc && s.pc[t] == PushUndo(n, h, c) && n in s.refs && NodeOk(s, n) && s.status[n] == Adding(t)
    ensures var s' := DoPushUndo(s, t, n, h, c); KeysAgree(s') && TouchesOnly(s, s', t, n)
  {
  }

  lemma PushUndoKeeps(s: State, t: Tid, n: Node, h: Link, c: Caller)
    requires Inv(s) && t in s.pc && s.pc[t] == PushUndo(n, h, c)
    ensures n in s.refs && Inv(DoPushUndo(s, t, n, h, c))
  {
    hide Inv, NodeOk, TouchesOnly;
    Facts(s, t, n);
    PushUndoNode(s, t, n, h, c);
    var s' := DoPushUndo(s, t, n, h, c);
    Keeps(s, s', t, n);
  }

  lemma GetRefsNode(s: State, t: Tid, n: Node)
    requires KeysAgree(s) && |s.pc| <= MAX_THREADS
    requires t in s.pc && s.pc[t] == GetRefs(n) && n in s.refs && NodeOk(s, n)
    ensures var s' := DoGetRefs(s, t, n); KeysAgree(s') && NodeOk(s', n) && TouchesOnly(s, s', t, n)
  {
    var s' := DoGetRefs(s, t, n);
    NodeStays(s, s', t, n);
  }

  lemma GetRefsKeeps(s: State, t: Tid, n: Node)
    requires Inv(s) && t in s.pc && s.pc[t] == GetRefs(n)
    ensures n in s.refs && Inv(DoGetRefs(s, t, n))
  {
    hide Inv, NodeOk, TouchesOnly;
    Facts(s, t, n);
    GetRefsNode(s, t, n);
    var s' := DoGetRefs(s, t, n);
    Keeps(s, s', t, n);
  }

  lemma GetCasRefNode(s: State, t: Tid, n: Node, r: nat)
    requires KeysAgree(s) && |s.pc| <= MAX_THREADS
    requires t in s.pc && s.pc[t] == GetCasRef(n, r) && n in s.refs && NodeOk(s, n) && Count(r) != 0
    ensures var s' := DoGetCasRef(s, t, n, r); KeysAgree(s') && NodeOk(s', n) && TouchesOnly(s, s', t, n)
  {
    hide NodeOk, TouchesOnly, Holders;
    var s' := DoGetCasRef(s, t, n, r);
    GetCasRefTouches(s, t, n, r);
    if s.refs[n] == r {
      CountedRef(s, t, n);
      HoldersChange(s, s', t, n);
      CountsOneMore(s, s', t, n);
    } else {
      NodeStays(s, s', t, n);
    }
  }

  lemma GetCasRefTouches(s: State, t: Tid, n: Node, r: nat)
    requires KeysAgree(s) && t in s.pc && s.pc[t] == GetCasRef(n, r) && n in s.refs
    ensures var s' := DoGetCasRef(s, t, n, r); KeysAgree(s') && TouchesOnly(s, s', t, n)
  {
  }

  // One more reference, counted.
  lemma CountsOneMore(s: State, s': State, t: Tid, n: Node)
    requires t in s.pc && n in s.refs && n in s.status && NodeOk(s, n) && s' == Goto(SetRefs(s, n, s.refs[n] + 1), t, GetNext(n))
    requires Wrap(s.refs[n] + 1) == s.refs[n] + 1 && !HoldsRef(s.pc[t], n)
    requires s.status[n].Adding? ==> s.status[n].tid in s.pc && PushingAtOne(s.pc[s.status[n].tid], n)
    requires s.pc[t].GetCasRef? && Holders(s', n) == Holders(s, n) + {t} && |Holders(s', n)| == |Holders(s, n)| + 1
    ensures NodeOk(s', n)
  {
    hide Holders;
  }

  lemma GetCasRefKeeps(s: State, t: Tid, n: Node, r: nat)
    requires Inv(s) && t in s.pc && s.pc[t] == GetCasRef(n, r)
    ensures n in s.refs && Inv(DoGetCasRef(s, t, n, r))
  {
    hide Inv, NodeOk, TouchesOnly;
    Facts(s, t, n);
    GetCasRefNode(s, t, n, r);
    var s' := DoGetCasRef(s, t, n, r);
    Keeps(s, s', t, n);
  }

  lemma GetNextNode(s: State, t: Tid, n: Node)
    requires KeysAgree(s) && |s.pc| <= MAX_THREADS
    requires t in s.pc && s.pc[t] == GetNext(n) && n in s.refs && NodeOk(s, n)
    ensures var s' := DoGetNext(s, t, n); KeysAgree(s') && NodeOk(s', n) && TouchesOnly(s, s', t, n)
  {
    var s' := DoGetNext(s, t, n);
    NodeStays(s, s', t, n);
  }

  lemma GetNextKeeps(s: State, t: Tid, n: Node)
    requires Inv(s) && t in s.pc && s.pc[t] == GetNext(n)
    ensures n in s.refs && Inv(DoGetNext(s, t, n))
  {
    hide Inv, NodeOk, TouchesOnly;
    Facts(s, t, n);
    GetNextNode(s, t, n);
    var s' := DoGetNext(s, t, n);
    Keeps(s, s', t, n);
  }

  lemma GetCasHeadNode(s: State, t: Tid, n: Node, x: Link)
    requires KeysAgree(s) && |s.pc| <= MAX_THREADS
    requires t in s.pc && s.pc[t] == GetCasHead(n, x) && n in s.refs && NodeOk(s, n)
    requires Linked(s.next, s.head, s.list) && Distinct(s.list)
    ensures var s' := DoGetCasHead(s, t, n, x); KeysAgree(s') && NodeOk(s', n) && TouchesOnly(s, s', t, n)
  {
    var s' := DoGetCasHead(s, t, n, x);
    assert t in Holders(s, n);
    HoldersChange(s, s', t, n);
    if s.head == Some(n) {
      ListPop(s.next, n, s.list);
    }
  }

  lemma GetCasHeadKeeps(s: State, t: Tid, n: Node, x: Link)
    requires Inv(s) && t in s.pc && s.pc[t] == GetCasHead(n, x)
    ensures n in s.refs && Inv(DoGetCasHead(s, t, n, x))
  {
    hide Inv, NodeOk, TouchesOnly;
    Facts(s, t, n);
    GetCasHeadNode(s, t, n, x);
    var s' := DoGetCasHead(s, t, n, x);
    if s.head == Some(n) {
      ListPop(s.next, n, s.list);
    }
    Keeps(s, s', t, n);
  }

  lemma GetCheckNode(s: State, t: Tid, n: Node)
    requires KeysAgree(s) && |s.pc| <= MAX_THREADS
    requires t in s.pc && s.pc[t] == GetCheck(n) && n in s.refs && NodeOk(s, n) && s.status[n] == Won(t)
    ensures var s' := Goto(s, t, GetDropTwo(n)); KeysAgree(s') && NodeOk(s', n) && TouchesOnly(s, s', t, n)
  {
    var s' := Goto(s, t, GetDropTwo(n));
    NodeStays(s, s', t, n);
  }

  lemma GetCheckKeeps(s: State, t: Tid, n: Node)
    requires Inv(s) && t in s.pc && s.pc[t] == GetCheck(n)
    ensures n in s.refs && Inv(Goto(s, t, GetDropTwo(n)))
  {
    hide Inv, NodeOk, TouchesOnly;
    Facts(s, t, n);
    GetCheckNode(s, t, n);
    var s' := Goto(s, t, GetDropTwo(n));
    Keeps(s, s', t, n);
  }

  lemma GetDropTwoNode(s: State, t: Tid, n: Node)
    requires KeysAgree(s) && |s.pc| <= MAX_THREADS
    requires t in s.pc && s.pc[t] == GetDropTwo(n) && n in s.refs && NodeOk(s, n) && s.status[n] == Won(t)
    ensures var s' := DoGetDropTwo(s, t, n); KeysAgree(s') && NodeOk(s', n) && TouchesOnly(s, s', t, n)
  {
    var s' := DoGetDropTwo(s, t, n);
    assert t in Holders(s, n);
    HoldersBound(s, n);
    HoldersChange(s, s', t, n);
  }

  lemma GetDropTwoKeeps(s: State, t: Tid, n: Node)
    requires Inv(s) && t in s.pc && s.pc[t] == GetDropTwo(n)
    ensures n in s.refs && Inv(DoGetDropTwo(s, t, n))
  {
    hide Inv, NodeOk, TouchesOnly;
    Facts(s, t, n);
    GetDropTwoNode(s, t, n);
    var s' := DoGetDropTwo(s, t, n);
    Keeps(s, s', t, n);
  }

  lemma GetUndoNode(s: State, t: Tid, n: Node, h: Link)
    requires KeysAgree(s) && |s.pc| <= MAX_THREADS
    requires t in s.pc && s.pc[t] == GetUndo(n, h) && n in s.refs && NodeOk(s, n)
    ensures var s' := DoGetUndo(s, t, n, h); KeysAgree(s') && NodeOk(s', n) && TouchesOnly(s, s', t, n)
  {
    hide NodeOk, TouchesOnly;
    GetUndoWord(s, t, n, h);
    GetUndoTouches(s, t, n, h);
  }

  lemma GetUndoWord(s: State, t: Tid, n: Node, h: Link)
    requires KeysAgree(s) && |s.pc| <= MAX_THREADS
    requires t in s.pc && s.pc[t] == GetUndo(n, h) && n in s.refs && NodeOk(s, n)
    ensures NodeOk(DoGetUndo(s, t, n, h), n)
  {
    var s' := DoGetUndo(s, t, n, h);
    assert t in Holders(s, n);
    HoldersBound(s, n);
    HoldersChange(s, s', t, n);
    if s.refs[n] == SHOULD_BE_ON_FREELIST + 1 {
      assert NodeOk(s', n);
    } else {
      assert NodeOk(s', n);
    }
  }

  lemma GetUndoTouches(s: State, t: Tid, n: Node, h: Link)
    requires KeysAgree(s) && |s.pc| <= MAX_THREADS
    requires t in s.pc && s.pc[t] == GetUndo(n, h) && n in s.refs && NodeOk(s, n)
    ensures var s' := DoGetUndo(s, t, n, h); KeysAgree(s') && TouchesOnly(s, s', t, n)
  {
    assert t in Holders(s, n);
    HoldersBound(s, n);
  }

  lemma GetUndoKeeps(s: State, t: Tid, n: Node, h: Link)
    requires Inv(s) && t in s.pc && s.pc[t] == GetUndo(n, h)
    ensures n in s.refs && Inv(DoGetUndo(s, t, n, h))
  {
    hide Inv, NodeOk, TouchesOnly;
    Facts(s, t, n);
    GetUndoNode(s, t, n, h);
    var s' := DoGetUndo(s, t, n, h);
    Keeps(s, s', t, n);
  }

  // ---- all actions, all runs -------------------------------------------------------------------

  lemma StepKeeps(s: State, t: Tid)
    requires Inv(s) && t in s.pc
    ensures Inv(Step(s, t))
  {
    hide Inv;
    match s.pc[t]
    case Idle =>
    case AddFlag(n) => AddFlagKeeps(s, t, n);
    case PushLoad(n, c) => PushLoadKeeps(s, t, n, c);
    case PushNext(n, h, c) => PushNextKeeps(s, t, n, h, c);
    case PushRef(n, h, c) => PushRefKeeps(s, t, n, h, c);
    case PushCas(n, h, c) => PushCasKeeps(s, t, n, h, c);
    case PushUndo(n, h, c) => PushUndoKeeps(s, t, n, h, c);
    case GetHead => GetHeadKeeps(s, t);
    case GetRefs(n) => GetRefsKeeps(s, t, n);
    case GetCasRef(n, r) => GetCasRefKeeps(s, t, n, r);
    case GetNext(n) => GetNextKeeps(s, t, n);
    case GetCasHead(n, x) => GetCasHeadKeeps(s, t, n, x);
    case GetCheck(n) => GetCheckKeeps(s, t, n);
    case GetDropTwo(n) => GetDropTwoKeeps(s, t, n);
    case GetUndo(n, h) => GetUndoKeeps(s, t, n, h);
  }

  lemma GetHeadKeeps(s: State, t: Tid)
    requires Inv(s) && t in s.pc && s.pc[t] == GetHead
    ensures Inv(Goto(s, t, Loop(s.head)))
  {
    MoveKeeps(s, t, Loop(s.head));
  }

  // A move between program points that have no claim on any node.
  lemma MoveKeeps(s: State, t: Tid, p: Pc)
    requires Inv(s) && t in s.pc && (s.pc[t] == Idle || s.pc[t] == GetHead)
    requires Nodes(p) <= s.refs.Keys
    requires p == GetHead || p == Idle || p.GetRefs? || (p.AddFlag? && s.status[p.node] == Owned(t))
    ensures Inv(Goto(s, t, p))
  {
    var s' := Goto(s, t, p);
    assert s'.pc.Keys == s.pc.Keys;
    assert |s'.pc| == |s'.pc.Keys| == |s.pc.Keys| == |s.pc|;
    forall u | u in s'.pc ensures Nodes(s'.pc[u]) <= s'.refs.Keys && PcOk(s', u) {
      if u != t { assert s'.pc[u] == s.pc[u] && Nodes(s.pc[u]) <= s.refs.Keys && PcOk(s, u); }
    }
    forall n | n in s'.refs ensures NodeOk(s', n) {
      assert NodeOk(s, n);
      MoveNode(s, t, p, n);
    }
  }

  lemma MoveNode(s: State, t: Tid, p: Pc, n: Node)
    requires t in s.pc && (s.pc[t] == Idle || s.pc[t] == GetHead)
    requires p == GetHead || p == Idle || p.GetRefs? || p.AddFlag?
    requires n in s.refs && n in s.status && NodeOk(s, n)
    ensures NodeOk(Goto(s, t, p), n)
  {
    HoldersChange(s, Goto(s, t, p), t, n);
  }

  lemma GiveKeeps(s: State, t: Tid, n: Node, u: Tid)
    requires Inv(s) && t in s.pc && u in s.pc && n in s.refs && s.pc[t] == Idle && s.status[n] == Owned(t)
    ensures Inv(Mark(s, n, Owned(u)))
  {
    var s' := Mark(s, n, Owned(u));
    forall v | v in s'.pc ensures PcOk(s', v) {
      assert Nodes(s.pc[v]) <= s.refs.Keys && PcOk(s, v);
    }
    forall m | m in s'.refs ensures NodeOk(s', m) {
      assert NodeOk(s, m);
      assert Holders(s', m) == Holders(s, m);
    }
  }

  lemma CreateKeeps(s: State, t: Tid, n: Node)
    requires Inv(s) && Enabled(s, Create(t, n))
    ensures Inv(Apply(s, Create(t, n)))
  {
    var s' := Apply(s, Create(t, n));
    LinkedFrame(s.next, s'.next, s.head, s.list);
    forall u | u in s'.pc ensures PcOk(s', u) {
      assert Nodes(s.pc[u]) <= s.refs.Keys && PcOk(s, u);
    }
    forall m | m in s'.refs ensures NodeOk(s', m) {
      CreatedNode(s, t, n, m);
    }
  }

  lemma CreatedNode(s: State, t: Tid, n: Node, m: Node)
    requires Inv(s) && Enabled(s, Create(t, n)) && (m == n || m in s.refs)
    ensures NodeOk(Apply(s, Create(t, n)), m)
  {
    if m == n {
      FreshNode(s, n);
    } else {
      assert NodeOk(s, m);
    }
    assert Holders(Apply(s, Create(t, n)), m) == Holders(s, m);
  }

  lemma FreshNode(s: State, n: Node)
    requires Domains(s) && n !in s.refs
    ensures Holders(s, n) == {} && n !in s.list
  {
    forall u | u in s.pc ensures !HoldsRef(s.pc[u], n) {
      assert Nodes(s.pc[u]) <= s.refs.Keys;
    }
  }

  lemma ApplyKeeps(s: State, a: Action)
    requires Inv(s) && Enabled(s, a)
    ensures Inv(Apply(s, a))
  {
    match a
    case Run(t) => StepKeeps(s, t);
    case CallAdd(t, n) => MoveKeeps(s, t, AddFlag(n));
    case CallTryGet(t) => MoveKeeps(s, t, GetHead);
    case Give(t, n, u) => GiveKeeps(s, t, n, u);
    case Create(t, n) => CreateKeeps(s, t, n);
  }

  // The constructor: an empty list, no node yet, any set of threads.
  ghost predicate Init(s: State) {
    && s.head == None && s.list == [] && s.refs == map[] && s.next == map[] && s.status == map[]
    && |s.pc| <= MAX_THREADS && (forall t :: t in s.pc ==> s.pc[t] == Idle)
  }

  ghost predicate Next(s: State, s': State) {
    Domains(s) && exists a :: Enabled(s, a) && s' == Apply(s, a)
  }

  ghost predicate IsRun(run: seq<State>) {
    run != [] && Init(run[0]) && forall i :: 0 <= i < |run| - 1 ==> Next(run[i], run[i + 1])
  }

  lemma {:induction false} RunKeepsInv(run: seq<State>, i: nat)
    requires IsRun(run) && i < |run|
    ensures Inv(run[i])
  {
    if i == 0 {
      assert run[0].pc.Keys == set t | t in run[0].pc;
    } else {
      RunKeepsInv(run, i - 1);
      assert Next(run[i - 1], run[i - 1 + 1]);
      var a :| Enabled(run[i - 1], a) && run[i] == Apply(run[i - 1], a);
      ApplyKeeps(run[i - 1], a);
    }
  }

  // ---- what every reachable state guarantees ---------------------------------------------------

  // t has taken n off the list and has not handed it to its caller yet.
  predicate Winning(s: State, t: Tid, n: Node) {
    t in s.pc && (s.pc[t] == GetCheck(n) || s.pc[t] == GetDropTwo(n))
  }

  predicate Pushing(s: State, t: Tid, n: Node) {
    t in s.pc && (PushingAtZero(s.pc[t], n) || PushingAtOne(s.pc[t], n))
  }

  // The assert of try_get: a node just won does not carry the should-be-on-list bit, is off the
  // list, and nobody else has won it, is adding it, or owns it.
  lemma WonNodeIsExclusive(run: seq<State>, i: nat, t: Tid, n: Node)
    requires IsRun(run) && i < |run| && Winning(run[i], t, n)
    ensures n in run[i].refs && run[i].refs[n] < SHOULD_BE_ON_FREELIST
    ensures n !in run[i].list
    ensures forall u :: u != t ==> !Winning(run[i], u, n)
    ensures forall u :: !Pushing(run[i], u, n)
    ensures n in run[i].status && run[i].status[n] == Won(t)
  {
    RunKeepsInv(run, i);
    hide IsRun, Inv;
    WonFacts(run[i], t, n);
  }

  lemma WonFacts(s: State, t: Tid, n: Node)
    requires Inv(s) && Winning(s, t, n)
    ensures n in s.refs && s.refs[n] < SHOULD_BE_ON_FREELIST && n !in s.list
    ensures forall u :: (u != t ==> !Winning(s, u, n)) && !Pushing(s, u, n)
    ensures n in s.status && s.status[n] == Won(t)
  {
    assert Nodes(s.pc[t]) <= s.refs.Keys && PcOk(s, t) && NodeOk(s, n);
    HoldersBound(s, n);
    forall u | u in s.pc ensures (u != t ==> !Winning(s, u, n)) && !Pushing(s, u, n) {
      assert PcOk(s, u);
    }
  }

  // The pointers reached from the head form an acyclic, null-terminated list without repetitions.
  lemma ListIsAcyclic(run: seq<State>, i: nat)
    requires IsRun(run) && i < |run|
    ensures Linked(run[i].next, run[i].head, run[i].list) && Distinct(run[i].list)
    ensures forall n :: n in run[i].list ==> n in run[i].status && run[i].status[n] == OnList
  {
    RunKeepsInv(run, i);
    forall n | n in run[i].list ensures n in run[i].status && run[i].status[n] == OnList {
      assert NodeOk(run[i], n);
    }
  }

  // No node is lost: it is on the list, in a client's hands, won, being added by exactly one
  // thread, or flagged with some thread still holding a reference on it.
  lemma NoNodeIsLost(run: seq<State>, i: nat, n: Node)
    requires IsRun(run) && i < |run| && n in run[i].refs
    ensures n in run[i].status
    ensures run[i].status[n] == OnList <==> n in run[i].list
    ensures match run[i].status[n]
            case OnList => run[i].refs[n] < SHOULD_BE_ON_FREELIST
            case Owned(t) => t in run[i].pc && run[i].refs[n] < SHOULD_BE_ON_FREELIST
            case Won(t) => Winning(run[i], t, n)
            case Adding(t) => Pushing(run[i], t, n) && forall u :: Pushing(run[i], u, n) ==> u == t
            case Flagged =>
              run[i].refs[n] > SHOULD_BE_ON_FREELIST && exists u :: u in run[i].pc && HoldsRef(run[i].pc[u], n)
  {
    var s := run[i];
    RunKeepsInv(run, i);
    assert NodeOk(s, n);
    HoldersBound(s, n);
    if s.status[n].Adding? {
      forall u | Pushing(s, u, n) ensures u == s.status[n].tid {
        assert PcOk(s, u);
      }
    } else if s.status[n] == Flagged {
      var u :| u in Holders(s, n);
    }
  }

  // A thread holding a reference on a flagged node cannot unlink it: its CAS fails and it moves on
  // to give the reference back; the one that gives back the last reference takes over the add.
  lemma FlaggedNodeIsReadded(run: seq<State>, i: nat, t: Tid, n: Node)
    requires IsRun(run) && i < |run| && n in run[i].refs && t in run[i].pc
    requires n in run[i].status && run[i].status[n] == Flagged && HoldsRef(run[i].pc[t], n)
    ensures Domains(run[i])
    ensures run[i].pc[t].GetNext? || run[i].pc[t].GetCasHead? || run[i].pc[t].GetUndo?
    ensures run[i].pc[t].GetCasHead? ==> Step(run[i], t).pc[t].GetUndo?
    ensures run[i].pc[t].GetUndo? && Holders(run[i], n) == {t} ==> Pushing(Step(run[i], t), t, n)
    ensures run[i].pc[t].GetUndo? && Holders(run[i], n) != {t} ==>
              n in Step(run[i], t).status && Step(run[i], t).status[n] == Flagged
  {
    var s := run[i];
    RunKeepsInv(run, i);
    assert NodeOk(s, n) && PcOk(s, t);
    FlaggedCount(s, t, n);
    if s.pc[t].GetCasHead? {
      FlaggedIsNotHead(s, n);
    }
  }

  lemma FlaggedIsNotHead(s: State, n: Node)
    requires n in s.refs && n in s.status && s.status[n] == Flagged && NodeOk(s, n)
    requires Linked(s.next, s.head, s.list)
    ensures s.head != Some(n)
  {
  }

  lemma FlaggedCount(s: State, t: Tid, n: Node)
    requires t in s.pc && n in s.refs && n in s.status && s.status[n] == Flagged && NodeOk(s, n)
    requires HoldsRef(s.pc[t], n)
    ensures s.refs[n] == SHOULD_BE_ON_FREELIST + 1 <==> Holders(s, n) == {t}
  {
    assert t in Holders(s, n);
    if Holders(s, n) != {t} {
      var u :| u in Holders(s, n) && u != t;
      SubsetSize({t, u}, Holders(s, n));
      assert |{t, u}| == 2;
    }
  }

  // When no call is in progress, the list and the clients account for every node, and the counts
  // are back to one for a listed node and zero for an owned one.
  lemma QuiescentAccounts(run: seq<State>, i: nat)
    requires IsRun(run) && i < |run| && forall t :: t in run[i].pc ==> run[i].pc[t] == Idle
    ensures forall n :: n in run[i].refs ==>
              n in run[i].status && run[i].refs[n] == (if n in run[i].list then 1 else 0)
              && (n !in run[i].list ==> run[i].status[n].Owned?)
  {
    var s := run[i];
    RunKeepsInv(run, i);
    forall n | n in s.refs
      ensures s.refs[n] == (if n in s.list then 1 else 0) && (n !in s.list ==> s.status[n].Owned?)
    {
      assert NodeOk(s, n);
      assert Holders(s, n) == {};
    }
  }

  // ---- a call that runs alone ------------------------------------------------------------------

  predicate AllIdle(s: State) { forall t {:trigger s.pc[t]} :: t in s.pc ==> s.pc[t] == Idle }

  // n steps of t, or fewer if its call ends before.
  ghost function Alone(s: State, t: Tid, n: nat): (r: State)
    requires Inv(s) && t in s.pc
    ensures Inv(r) && t in r.pc
  {
    if n == 0 then s
    else
      var r := Alone(s, t, n - 1);
      if r.pc[t] == Idle then r
      else
        ApplyKeeps(r, Run(t));
        StepKeepsThreads(r, t);
        Step(r, t)
  }

  lemma StepKeepsThreads(s: State, t: Tid)
    requires Domains(s) && t in s.pc
    ensures t in Step(s, t).pc
  {
    hide Domains, DoAddFlag, DoPushNext, DoPushRef, DoPushCas, DoPushUndo, DoGetRefs, DoGetCasRef, DoGetNext, DoGetCasHead,
         DoGetDropTwo, DoGetUndo;
  }

  lemma NextAlone(s: State, t: Tid, n: nat, r: State, r': State)
    requires Inv(s) && t in s.pc && Alone(s, t, n) == r && r.pc[t] != Idle && r' == Step(r, t)
    ensures Alone(s, t, n + 1) == r'
  {
    hide Inv, Step;
  }

  lemma ListedOne(s: State, n: Node)
    requires Inv(s) && AllIdle(s) && n in s.refs
    ensures n in s.list ==> s.refs[n] == 1
    ensures s.status[n].Owned? ==> s.refs[n] == 0 && n !in s.list
  {
    assert NodeOk(s, n);
    assert Holders(s, n) == {};
  }

  // try_get takes the first node off the list, or finds the list empty.
  lemma SoloTryGet(s: State, t: Tid)
    requires Inv(s) && AllIdle(s) && t in s.pc
    ensures var s0 := Goto(s, t, GetHead);
      Inv(s0) &&
      if s.list == [] then Alone(s0, t, 1) == s
      else
        var n := s.list[0];
        n in s.next && n in s.refs && n in s.status
        && Alone(s0, t, 7) == s.(head := s.next[n], list := s.list[1..], refs := s.refs[n := 0], status := s.status[n := Owned(t)])
  {
    var s0 := Goto(s, t, GetHead);
    BeginsTryGet(s, t);
    if s.list == [] {
      EmptyHead(s);
      hide Inv;
      FindsNone(s0, s, t);
    } else {
      FirstNode(s);
      ListedOne(s, s.list[0]);
      hide Inv, AllIdle, Domains, Alone, Step;
      ReachesFirst(s0, s, t, s.list[0]);
    }
  }

  lemma BeginsTryGet(s: State, t: Tid)
    requires Inv(s) && AllIdle(s) && t in s.pc
    ensures s.pc[t] == Idle && Inv(Goto(s, t, GetHead))
  {
    assert Enabled(s, CallTryGet(t));
    ApplyKeeps(s, CallTryGet(t));
    hide Inv, Domains;
  }

  lemma FindsNone(s0: State, s: State, t: Tid)
    requires Inv(s0) && s0 == Goto(s, t, GetHead) && t in s.pc && s.pc[t] == Idle && s.head == None
    ensures Alone(s0, t, 1) == s
  {
    assert Alone(s0, t, 0) == s0;
    hide Inv, Alone, Domains;
    assert Domains(s0) by { AloneDomains(s0, t, 0); }
    assert s.pc[t := Idle] == s.pc;
    NextAlone(s0, t, 0, s0, s);
  }

  lemma ReachesFirst(s0: State, s: State, t: Tid, n: Node)
    requires Inv(s0) && s0 == Goto(s, t, GetHead) && t in s.pc && s.pc[t] == Idle
    requires n in s.next && n in s.refs && n in s.status && s.refs[n] == 1 && s.list != [] && s.list[0] == n && s.head == Some(n)
    ensures Alone(s0, t, 7) == s.(head := s.next[n], list := s.list[1..], refs := s.refs[n := 0], status := s.status[n := Owned(t)])
  {
    assert Alone(s0, t, 0) == s0;
    hide Inv, Domains, Alone;
    assert Domains(s0) by { AloneDomains(s0, t, 0); }
    var s1 := s.(pc := s.pc[t := GetRefs(n)]);
    NextAlone(s0, t, 0, s0, s1);
    hide Step;
    SeesFirst(s0, s, t, n, s1);
  }

  lemma SeesFirst(s0: State, s: State, t: Tid, n: Node, s1: State)
    requires Inv(s0) && t in s0.pc && t in s.pc && s.pc[t] == Idle
    requires n in s.next && n in s.refs && n in s.status && s.refs[n] == 1 && s.list != [] && s.list[0] == n && s.head == Some(n)
    requires s1 == s.(pc := s.pc[t := GetRefs(n)]) && Alone(s0, t, 1) == s1
    ensures Alone(s0, t, 7) == s.(head := s.next[n], list := s.list[1..], refs := s.refs[n := 0], status := s.status[n := Owned(t)])
  {
    hide Inv, Domains, Alone;
    assert Domains(s1) by { AloneDomains(s0, t, 1); }
    var s2 := s.(pc := s.pc[t := GetCasRef(n, 1)]);
    NextAlone(s0, t, 1, s1, s2);
    hide Step;
    HoldsFirst(s0, s, t, n, s2);
  }

  lemma HoldsFirst(s0: State, s: State, t: Tid, n: Node, s2: State)
    requires Inv(s0) && t in s0.pc && t in s.pc && s.pc[t] == Idle
    requires n in s.next && n in s.refs && n in s.status && s.refs[n] == 1 && s.list != [] && s.list[0] == n && s.head == Some(n)
    requires s2 == s.(pc := s.pc[t := GetCasRef(n, 1)]) && Alone(s0, t, 2) == s2
    ensures Alone(s0, t, 7) == s.(head := s.next[n], list := s.list[1..], refs := s.refs[n := 0], status := s.status[n := Owned(t)])
  {
    hide Inv, Domains, Alone;
    assert Domains(s2) by { AloneDomains(s0, t, 2); }
    var s3 := s.(pc := s.pc[t := GetNext(n)], refs := s.refs[n := 2]);
    NextAlone(s0, t, 2, s2, s3);
    assert Domains(s3) by { AloneDomains(s0, t, 3); }
    var s4 := s3.(pc := s.pc[t := GetCasHead(n, s.next[n])]);
    NextAlone(s0, t, 3, s3, s4);
    hide Step;
    TakesFirst(s0, s, t, n, s4);
  }

  lemma TakesFirst(s0: State, s: State, t: Tid, n: Node, s4: State)
    requires Inv(s0) && t in s0.pc && t in s.pc && s.pc[t] == Idle && n in s.next && n in s.refs && n in s.status
    requires s.list != [] && s.list[0] == n && s.head == Some(n)
    requires s4 == s.(pc := s.pc[t := GetCasHead(n, s.next[n])], refs := s.refs[n := 2]) && Alone(s0, t, 4) == s4
    ensures Alone(s0, t, 7) == s.(head := s.next[n], list := s.list[1..], refs := s.refs[n := 0], status := s.status[n := Owned(t)])
  {
    hide Inv, Alone, Domains;
    assert Domains(s4) by { AloneDomains(s0, t, 4); }
    var s5 := s4.(head := s.next[n], list := s.list[1..], pc := s.pc[t := GetCheck(n)], status := s.status[n := Won(t)]);
    NextAlone(s0, t, 4, s4, s5);
    hide Step;
    DropsTwo(s0, s, t, n, s5);
  }

  lemma DropsTwo(s0: State, s: State, t: Tid, n: Node, s5: State)
    requires Inv(s0) && t in s0.pc && t in s.pc && s.pc[t] == Idle && n in s.next && n in s.refs && n in s.status && s.list != []
    requires s5 == s.(head := s.next[n], list := s.list[1..], refs := s.refs[n := 2], pc := s.pc[t := GetCheck(n)],
                      status := s.status[n := Won(t)])
    requires Alone(s0, t, 5) == s5
    ensures Alone(s0, t, 7) == s.(head := s.next[n], list := s.list[1..], refs := s.refs[n := 0], status := s.status[n := Owned(t)])
  {
    hide Inv, Alone, Domains;
    assert Domains(s5) by { AloneDomains(s0, t, 5); }
    var s6 := s5.(pc := s.pc[t := GetDropTwo(n)]);
    NextAlone(s0, t, 5, s5, s6);
    hide Step;
    Returns(s0, s, t, n, s6);
  }

  lemma Returns(s0: State, s: State, t: Tid, n: Node, s6: State)
    requires Inv(s0) && t in s0.pc && t in s.pc && s.pc[t] == Idle && n in s.next && n in s.refs && n in s.status && s.list != []
    requires s6 == s.(head := s.next[n], list := s.list[1..], refs := s.refs[n := 2], pc := s.pc[t := GetDropTwo(n)],
                      status := s.status[n := Won(t)])
    requires Alone(s0, t, 6) == s6
    ensures Alone(s0, t, 7) == s.(head := s.next[n], list := s.list[1..], refs := s.refs[n := 0], status := s.status[n := Owned(t)])
  {
    hide Inv, Alone, Domains;
    assert Domains(s6) by { AloneDomains(s0, t, 6); }
    var s7 := s.(head := s.next[n], list := s.list[1..], refs := s.refs[n := 0], status := s.status[n := Owned(t)]);
    assert s7.pc == s.pc[t := Idle];
    NextAlone(s0, t, 6, s6, s7);
  }

  lemma AloneDomains(s: State, t: Tid, n: nat)
    requires Inv(s) && t in s.pc
    ensures Domains(Alone(s, t, n))
  {
    hide Alone, Domains;
  }

  lemma EmptyHead(s: State)
    requires Inv(s) && s.list == []
    ensures s.head == None
  {
  }

  lemma FirstNode(s: State)
    requires Inv(s) && s.list != []
    ensures var n := s.list[0]; s.head == Some(n) && n in s.list && n in s.refs && n in s.next && n in s.status
  {
  }

  // add puts the node at the front of the list.
  lemma SoloAdd(s: State, t: Tid, n: Node)
    requires Inv(s) && AllIdle(s) && t in s.pc && n in s.refs && n in s.status && s.status[n] == Owned(t)
    ensures var s0 := Goto(s, t, AddFlag(n));
      Inv(s0) && Alone(s0, t, 5) == s.(head := Some(n), list := [n] + s.list, next := s.next[n := s.head], refs := s.refs[n := 1],
                                       status := s.status[n := OnList])
  {
    var s0 := Goto(s, t, AddFlag(n));
    assert Enabled(s, CallAdd(t, n));
    ApplyKeeps(s, CallAdd(t, n));
    assert Alone(s0, t, 0) == s0;
    assert s.pc[t] == Idle && s.pc[t := Idle] == s.pc;
    ListedOne(s, n);
    hide Inv, AllIdle, Domains, Alone;
    var s1 := s.(pc := s.pc[t := PushLoad(n, FromAdd)], refs := s.refs[n := SHOULD_BE_ON_FREELIST], status := s.status[n := Adding(t)]);
    assert Domains(s0) by { AloneDomains(s0, t, 0); }
    NextAlone(s0, t, 0, s0, s1);
    PushesFirst(s0, s, t, n, s1);
  }

  lemma PushesFirst(s0: State, s: State, t: Tid, n: Node, s1: State)
    requires Inv(s0) && t in s0.pc && t in s.pc && s.pc[t] == Idle && n in s.refs && n in s.status
    requires s1 == s.(pc := s.pc[t := PushLoad(n, FromAdd)], refs := s.refs[n := SHOULD_BE_ON_FREELIST], status := s.status[n := Adding(t)])
    requires Alone(s0, t, 1) == s1
    ensures Alone(s0, t, 5) == s.(head := Some(n), list := [n] + s.list, next := s.next[n := s.head], refs := s.refs[n := 1],
                                  status := s.status[n := OnList])
  {
    hide Inv, Alone, Domains;
    assert Domains(s1) by { AloneDomains(s0, t, 1); }
    var s2 := s1.(pc := s.pc[t := PushNext(n, s.head, FromAdd)]);
    NextAlone(s0, t, 1, s1, s2);
    assert Domains(s2) by { AloneDomains(s0, t, 2); }
    var s3 := s2.(pc := s.pc[t := PushRef(n, s.head, FromAdd)], next := s.next[n := s.head]);
    NextAlone(s0, t, 2, s2, s3);
    hide Step;
    LinksFirst(s0, s, t, n, s3);
  }

  lemma LinksFirst(s0: State, s: State, t: Tid, n: Node, s3: State)
    requires Inv(s0) && t in s0.pc && t in s.pc && s.pc[t] == Idle && n in s.refs && n in s.status
    requires s3 == s.(pc := s.pc[t := PushRef(n, s.head, FromAdd)], next := s.next[n := s.head],
                      refs := s.refs[n := SHOULD_BE_ON_FREELIST], status := s.status[n := Adding(t)])
    requires Alone(s0, t, 3) == s3
    ensures Alone(s0, t, 5) == s.(head := Some(n), list := [n] + s.list, next := s.next[n := s.head], refs := s.refs[n := 1],
                                  status := s.status[n := OnList])
  {
    hide Inv, Alone, Domains;
    assert Domains(s3) by { AloneDomains(s0, t, 3); }
    var s4 := s3.(pc := s.pc[t := PushCas(n, s.head, FromAdd)], refs := s.refs[n := 1]);
    NextAlone(s0, t, 3, s3, s4);
    assert Domains(s4) by { AloneDomains(s0, t, 4); }
    var s5 := s.(head := Some(n), list := [n] + s.list, next := s.next[n := s.head], refs := s.refs[n := 1], status := s.status[n := OnList]);
    assert s5.pc == s.pc[t := Idle];
    NextAlone(s0, t, 4, s4, s5);
  }
}
