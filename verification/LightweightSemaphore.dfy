/**
 * moodycamel::LightweightSemaphore as a step machine: a counter m_count in front of a kernel
 * semaphore, shared by any number of threads.  Every atomic operation on m_count and every kernel
 * call is one step.  `wait` is `waitMany` with max == 1 and `tryWait` is `tryWaitMany(1)`: the
 * code paths coincide.  A kernel wait may give up at any moment (a timeout, or a failing wait).
 */
module LightweightSemaphore {

  // `got` counts the units this call has already taken.
  datatype Pc =
    | Idle
    | TryLoad(max: nat, got: nat, block: bool)                   // tryWaitMany: load m_count
    | TryCas(seen: int, max: nat, got: nat, block: bool)         // tryWaitMany: weak CAS
    | Spin(left: nat, max: nat)                                  // waitMany...: load m_count
    | SpinCas(seen: int, left: nat, max: nat)                    // waitMany...: strong CAS
    | Sub(max: nat)                                              // fetch_sub(1)
    | KernelWait(max: nat)                                       // m_sema.wait / timed_wait
    | Reload(max: nat)                                           // timed out: load m_count
    | TryKernel(max: nat)                                        // m_sema.try_wait
    | Restore(seen: int, max: nat)                               // CAS seen -> seen + 1
    | Post(left: nat)                                            // signal: sem_post calls to make

  datatype State = State(
    count: int,          // m_count
    kernel: nat,         // the value of the kernel semaphore
    maxSpins: nat,
    threads: seq<Pc>,
    signalled: nat,      // initial count plus everything signalled so far
    granted: nat)        // sum of the results already returned to callers

  datatype Action =
    | Run(t: nat, luck: bool)     // luck: whether a weak CAS may succeed / a kernel wait does not give up
    | CallWaitMany(t: nat, max: nat, block: bool)
    | CallSignal(t: nat, n: nat)

  function Min(a: int, b: int): int { if a < b then a else b }

  function Max(a: int, b: int): int { if a < b then b else a }

  function Goto(s: State, t: nat, p: Pc): State
    requires t < |s.threads|
  {
    s.(threads := s.threads[t := p])
  }

  // waitMany returns `result` units to its caller.
  function Return(s: State, t: nat, result: nat): State
    requires t < |s.threads|
  {
    Goto(s, t, Idle).(granted := s.granted + result)
  }

  // One unit acquired; waitMany goes on greedily when it may take more.
  function TookOne(s: State, t: nat, max: nat): State
    requires t < |s.threads|
  {
    if max > 1 then Goto(s, t, TryLoad(max - 1, 1, false)) else Return(s, t, 1)
  }

  // The loop test of tryWaitMany on the value just seen.
  function TryTest(s: State, t: nat, seen: int, max: nat, got: nat, block: bool): State
    requires t < |s.threads|
  {
    if seen > 0 then Goto(s, t, TryCas(seen, max, got, block))
    else if block && got == 0 && max > 0 then Goto(s, t, Spin(s.maxSpins, max))
    else Return(s, t, got)
  }

  predicate Enabled(s: State, a: Action) {
    a.t < |s.threads| &&
    match a
    case Run(t, luck) =>
      s.threads[t] != Idle && (s.threads[t].KernelWait? && luck ==> s.kernel > 0)
    case CallWaitMany(t, max, block) => s.threads[t] == Idle
    case CallSignal(t, n) => s.threads[t] == Idle
  }

  function Apply(s: State, a: Action): State
    requires Enabled(s, a)
  {
    match a
    case Run(t, luck) => Step(s, t, luck)
    case CallWaitMany(t, max, block) => Goto(s, t, TryLoad(max, 0, block))
    case CallSignal(t, n) => Signal(s, t, n)
  }

  // signal: the fetch_add, and how many kernel posts it owes.
  function Signal(s: State, t: nat, n: nat): State
    requires t < |s.threads|
  {
    var toRelease := Min(-s.count, n);
    Goto(s, t, if toRelease > 0 then Post(toRelease) else Idle)
      .(count := s.count + n, signalled := s.signalled + n)
  }

  function Step(s: State, t: nat, luck: bool): State
    requires t < |s.threads| && (s.threads[t].KernelWait? && luck ==> s.kernel > 0)
  {
    match s.threads[t]
    case Idle => s
    case TryLoad(max, got, block) => TryTest(s, t, s.count, max, got, block)
    case TryCas(seen, max, got, block) =>
      if luck && s.count == seen && seen > 0 then
        var rest := if seen > max then seen - max else 0;
        Return(s.(count := rest), t, got + (seen - rest))
      else TryTest(s, t, s.count, max, got, block)
    case Spin(left, max) =>
      if left == 0 then Goto(s, t, Sub(max))
      else if s.count > 0 then Goto(s, t, SpinCas(s.count, left - 1, max))
      else Goto(s, t, Spin(left - 1, max))
    case SpinCas(seen, left, max) =>
      if s.count == seen && seen > 0 then
        var rest := if seen > max then seen - max else 0;
        Return(s.(count := rest), t, seen - rest)
      else Goto(s, t, Spin(left, max))
    case Sub(max) =>
      var s1 := s.(count := s.count - 1);
      if s.count > 0 then TookOne(s1, t, max) else Goto(s1, t, KernelWait(max))
    case KernelWait(max) =>
      if luck then TookOne(s.(kernel := s.kernel - 1), t, max) else Goto(s, t, Reload(max))
    case Reload(max) =>
      if s.count >= 0 then Goto(s, t, TryKernel(max)) else Goto(s, t, Restore(s.count, max))
    case TryKernel(max) =>
      if s.kernel > 0 then TookOne(s.(kernel := s.kernel - 1), t, max) else Goto(s, t, Reload(max))
    case Restore(seen, max) =>
      if s.count == seen && seen < 0 then Return(s.(count := s.count + 1), t, 0)
      else Goto(s, t, Reload(max))
    case Post(left) =>
      Goto(s.(kernel := s.kernel + 1), t, if left > 1 then Post(left - 1) else Idle)
  }

  // ---- counting over the threads ---------------------------------------------------------------

  // Waiting: has decremented m_count at or below zero and has neither a unit nor given up.
  function Pending(p: Pc): nat {
    if p.KernelWait? || p.Reload? || p.TryKernel? || p.Restore? then 1 else 0
  }

  function Posts(p: Pc): nat { if p.Post? then p.left else 0 }

  function Got(p: Pc): nat { if p.TryLoad? || p.TryCas? then p.got else 0 }

  function Total(f: Pc -> nat, threads: seq<Pc>): nat {
    if threads == [] then 0 else f(threads[0]) + Total(f, threads[1..])
  }

  lemma {:induction false} TotalUpdate(f: Pc -> nat, threads: seq<Pc>, t: nat, p: Pc)
    requires t < |threads|
    ensures Total(f, threads[t := p]) == Total(f, threads) - f(threads[t]) + f(p)
  {
    if t == 0 {
      assert threads[t := p][1..] == threads[1..];
    } else {
      assert threads[t := p][1..] == threads[1..][t - 1 := p];
      TotalUpdate(f, threads[1..], t - 1, p);
    }
  }

  lemma {:induction false} TotalAtLeast(f: Pc -> nat, threads: seq<Pc>, t: nat)
    requires t < |threads|
    ensures Total(f, threads) >= f(threads[t])
  {
    if t > 0 {
      TotalAtLeast(f, threads[1..], t - 1);
    }
  }

  lemma {:induction false} TotalZero(f: Pc -> nat, threads: seq<Pc>)
    requires forall p :: p in threads ==> f(p) == 0
    ensures Total(f, threads) == 0
  {
    if threads != [] {
      TotalZero(f, threads[1..]);
    }
  }

  // ---- the invariant ---------------------------------------------------------------------------

  // Conservation: every unit ever signalled is in the counter, with a waiter (as a debt), in the
  // hands of a call in progress, or returned.
  predicate Conserved(s: State) {
    s.signalled == s.count + Total(Pending, s.threads) + Total(Got, s.threads) + s.granted
  }

  // Kernel posts made, posts still owed by signallers, and waiters not signalled yet account for
  // exactly the pending waiters.
  predicate Balanced(s: State) {
    s.kernel + Total(Posts, s.threads) + Max(-s.count, 0) == Total(Pending, s.threads)
  }

  predicate PcOk(p: Pc) { (p.Post? ==> p.left > 0) && (p.TryLoad? || p.TryCas? ==> p.block ==> p.got == 0) }

  predicate Inv(s: State) {
    Conserved(s) && Balanced(s) && forall p :: p in s.threads ==> PcOk(p)
  }

  // A step of t is described by what it does to the counters and to t's own contribution.
  predicate Accounts(s: State, s': State, t: nat)
    requires t < |s.threads| == |s'.threads|
  {
    var p, p' := s.threads[t], s'.threads[t];
    && PcOk(p')
    && s'.signalled - s.signalled
       == (s'.count - s.count) + (Pending(p') - Pending(p)) + (Got(p') - Got(p)) + (s'.granted - s.granted)
    && (s'.kernel - s.kernel) + (Posts(p') - Posts(p)) + (Max(-s'.count, 0) - Max(-s.count, 0))
       == Pending(p') - Pending(p)
  }

  lemma AccountsKeeps(s: State, s': State, t: nat)
    requires Inv(s) && t < |s.threads| == |s'.threads| && s'.threads == s.threads[t := s'.threads[t]]
    requires Accounts(s, s', t)
    ensures Inv(s')
  {
    var p' := s'.threads[t];
    TotalUpdate(Pending, s.threads, t, p');
    TotalUpdate(Posts, s.threads, t, p');
    TotalUpdate(Got, s.threads, t, p');
  }

  lemma TakeAccounts(s: State, t: nat, luck: bool)
    requires t < |s.threads| && PcOk(s.threads[t])
    requires s.threads[t].TryLoad? || s.threads[t].TryCas? || s.threads[t].Spin? || s.threads[t].SpinCas?
    ensures |Step(s, t, luck).threads| == |s.threads| && Accounts(s, Step(s, t, luck), t)
  {
  }

  lemma WaitAccounts(s: State, t: nat, luck: bool)
    requires t < |s.threads| && (s.threads[t].KernelWait? && luck ==> s.kernel > 0)
    requires s.threads[t].Sub? || s.threads[t].KernelWait? || s.threads[t].Reload?
             || s.threads[t].TryKernel? || s.threads[t].Restore?
    ensures |Step(s, t, luck).threads| == |s.threads| && Accounts(s, Step(s, t, luck), t)
  {
  }

  lemma ApplyKeeps(s: State, a: Action)
    requires Inv(s) && Enabled(s, a)
    ensures Inv(Apply(s, a))
  {
    var t := a.t;
    var s' := Apply(s, a);
    assert PcOk(s.threads[t]);
    assert Accounts(s, s', t) by {
      hide Inv;
      match a
      case Run(_, luck) =>
        match s.threads[t] {
          case Idle =>
          case Post(_) =>
          case TryLoad(_, _, _) => TakeAccounts(s, t, luck);
          case TryCas(_, _, _, _) => TakeAccounts(s, t, luck);
          case Spin(_, _) => TakeAccounts(s, t, luck);
          case SpinCas(_, _, _) => TakeAccounts(s, t, luck);
          case Sub(_) => WaitAccounts(s, t, luck);
          case KernelWait(_) => WaitAccounts(s, t, luck);
          case Reload(_) => WaitAccounts(s, t, luck);
          case TryKernel(_) => WaitAccounts(s, t, luck);
          case Restore(_, _) => WaitAccounts(s, t, luck);
        }
      case CallWaitMany(_, _, _) =>
      case CallSignal(_, _) =>
    }
    AccountsKeeps(s, s', t);
  }

  ghost predicate Init(s: State) {
    && s.count >= 0 && s.kernel == 0 && s.signalled == s.count && s.granted == 0
    && forall p :: p in s.threads ==> p == Idle
  }

  ghost predicate Next(s: State, s': State) { exists a :: Enabled(s, a) && s' == Apply(s, a) }

  ghost predicate IsRun(run: seq<State>) {
    run != [] && Init(run[0]) && forall i :: 0 <= i < |run| - 1 ==> Next(run[i], run[i + 1])
  }

  lemma {:induction false} RunKeepsInv(run: seq<State>, i: nat)
    requires IsRun(run) && i < |run|
    ensures Inv(run[i])
  {
    if i == 0 {
      TotalZero(Pending, run[0].threads);
      TotalZero(Posts, run[0].threads);
      TotalZero(Got, run[0].threads);
    } else {
      RunKeepsInv(run, i - 1);
      assert Next(run[i - 1], run[i - 1 + 1]);
      var a :| Enabled(run[i - 1], a) && run[i] == Apply(run[i - 1], a);
      ApplyKeeps(run[i - 1], a);
    }
  }

  // ---- what every run guarantees ---------------------------------------------------------------

  lemma PendingWaitersAccounted(run: seq<State>, i: nat)
    requires IsRun(run) && i < |run|
    ensures Balanced(run[i]) && Conserved(run[i])
  {
    RunKeepsInv(run, i);
  }

  // Never more units handed out than were put in.
  lemma NeverOverAcquired(run: seq<State>, i: nat)
    requires IsRun(run) && i < |run|
    ensures run[i].granted + Total(Got, run[i].threads) + Max(run[i].count, 0) <= run[i].signalled
  {
    RunKeepsInv(run, i);
  }

  // A waiter that gave up and sees a non-negative count has a post made or in flight for it.
  lemma TimedOutWaiterHasAPost(run: seq<State>, i: nat, t: nat)
    requires IsRun(run) && i < |run| && t < |run[i].threads|
    requires Pending(run[i].threads[t]) == 1 && run[i].count >= 0
    ensures run[i].kernel + Total(Posts, run[i].threads) == Total(Pending, run[i].threads) >= 1
  {
    RunKeepsInv(run, i);
    TotalAtLeast(Pending, run[i].threads, t);
  }

  // No lost wake-up: if waiters are pending, no post was made for them and no signaller is busy
  // posting, then the counter shows exactly them as a debt: there is no unit they could take.
  lemma NoLostWakeup(run: seq<State>, i: nat)
    requires IsRun(run) && i < |run|
    requires run[i].kernel == 0 && forall p :: p in run[i].threads ==> !p.Post?
    ensures Max(-run[i].count, 0) == Total(Pending, run[i].threads)
  {
    RunKeepsInv(run, i);
    TotalZero(Posts, run[i].threads);
  }

  // With no call in progress the kernel semaphore is empty and the counter is the exact balance.
  lemma QuiescentBalance(run: seq<State>, i: nat)
    requires IsRun(run) && i < |run| && forall p :: p in run[i].threads ==> p == Idle
    ensures run[i].kernel == 0 && run[i].count == run[i].signalled - run[i].granted >= 0
  {
    RunKeepsInv(run, i);
    TotalZero(Pending, run[i].threads);
    TotalZero(Posts, run[i].threads);
    TotalZero(Got, run[i].threads);
  }

  // ---- what a call returns ---------------------------------------------------------------------

  // Thread t calls waitMany (block) or tryWaitMany in run[i], and the call returns with the step from run[j].
  ghost predicate Call(run: seq<State>, t: nat, i: nat, j: nat, max: nat, block: bool) {
    && IsRun(run) && i < j < |run| - 1
    && (forall k {:trigger run[k]} :: i <= k <= j + 1 ==> t < |run[k].threads|)
    && run[i].threads[t] == Idle && run[i + 1] == Apply(run[i], CallWaitMany(t, max, block))
    && (forall k {:trigger run[k]} :: i < k <= j ==> run[k].threads[t] != Idle)
    && run[j + 1].threads[t] == Idle
  }

  // What it returns.
  function Result(run: seq<State>, j: nat): int
    requires j < |run| - 1
  {
    run[j + 1].granted - run[j].granted
  }

  // The kernel wait of t times out or fails.
  predicate GivesUp(run: seq<State>, t: nat, k: nat) {
    && k + 1 < |run| && t < |run[k].threads| && t < |run[k + 1].threads|
    && run[k].threads[t].KernelWait? && run[k + 1].threads[t].Reload?
  }

  // The number of units a call in progress may still end up returning.
  function Budget(p: Pc): nat {
    match p
    case TryLoad(max, got, _) => max + got
    case TryCas(_, max, got, _) => max + got
    case Spin(_, max) => max
    case SpinCas(_, _, max) => max
    case Sub(max) => max
    case KernelWait(max) => max
    case Reload(max) => max
    case TryKernel(max) => max
    case Restore(_, max) => max
    case _ => 0
  }

  // Where a call with these arguments can be.
  predicate Inside(p: Pc, max: nat, block: bool) {
    && p != Idle && !p.Post? && Budget(p) == max
    && if p.TryLoad? || p.TryCas? then p.got == (if block && !p.block then 1 else 0) && (p.block ==> block)
       else block && max > 0
  }

  predicate GaveUp(p: Pc) { p.Reload? || p.TryKernel? || p.Restore? }

  // A step of t within its call.
  ghost predicate CallStep(s: State, s': State, t: nat, max: nat, block: bool) {
    && t < |s.threads| == |s'.threads|
    && (s'.threads[t] != Idle ==>
          Inside(s'.threads[t], max, block)
          && (GaveUp(s'.threads[t]) ==> GaveUp(s.threads[t]) || (s.threads[t].KernelWait? && s'.threads[t].Reload?)))
    && (s'.threads[t] == Idle ==> var result := s'.granted - s.granted;
          && 0 <= result <= max
          && (block ==> (result > 0 <==> max > 0 && !s.threads[t].Restore?))
          && (!block && max > 0 ==> (result == 0 <==> s.count <= 0))
          && Greedy(s.threads[t], s.count, result) && (!block ==> s'.count == s.count - result))
  }

  // What a step that takes units takes: all that are there, up to the maximum.
  predicate Greedy(p: Pc, count: int, result: int) {
    match p
    case TryLoad(max, got, _) => result == got + Min(max, Max(count, 0))
    case TryCas(_, max, got, _) => result == got + Min(max, Max(count, 0))
    case SpinCas(_, _, max) => result == Min(max, count)
    case _ => result <= 1
  }

  lemma OwnStep(s: State, t: nat, luck: bool, max: nat, block: bool)
    requires t < |s.threads| && (s.threads[t].KernelWait? && luck ==> s.kernel > 0) && Inside(s.threads[t], max, block)
    ensures CallStep(s, Step(s, t, luck), t, max, block)
  {
    match s.threads[t]
    case TryLoad(_, _, _) =>
    case TryCas(_, _, _, _) =>
    case _ =>
  }

  lemma OtherStep(s: State, a: Action, t: nat)
    requires Enabled(s, a) && a.t != t && t < |s.threads|
    ensures |Apply(s, a).threads| == |s.threads| && Apply(s, a).threads[t] == s.threads[t]
  {
  }

  // One step of any thread, seen from t.
  lemma StepOf(s: State, s': State, t: nat, max: nat, block: bool)
    requires t < |s.threads| && Next(s, s') && Inside(s.threads[t], max, block)
    ensures CallStep(s, s', t, max, block)
  {
    var a :| Enabled(s, a) && s' == Apply(s, a);
    if a.t == t {
      OwnStep(s, t, a.luck, max, block);
    } else {
      OtherStep(s, a, t);
    }
  }

  lemma CallSteps(run: seq<State>, t: nat, i: nat, j: nat, max: nat, block: bool, k: nat)
    requires Call(run, t, i, j, max, block) && i < k <= j
    ensures j < |run| - 1 && t < |run[k].threads| && t < |run[k + 1].threads| && run[k].threads[t] != Idle && Next(run[k], run[k + 1])
    ensures k == i + 1 ==> run[k].threads[t] == TryLoad(max, 0, block)
    ensures k == j ==> run[k + 1].threads[t] == Idle
  {
    hide Next;
    assert t < |run[i].threads| && t < |run[k + 1].threads|;
  }

  lemma {:induction false} CallInside(run: seq<State>, t: nat, i: nat, j: nat, max: nat, block: bool, k: nat)
    requires Call(run, t, i, j, max, block) && i < k <= j
    ensures t < |run[k].threads| && Inside(run[k].threads[t], max, block)
    ensures GaveUp(run[k].threads[t]) ==> exists m: nat {:trigger GivesUp(run, t, m)} :: i < m < k && GivesUp(run, t, m)
  {
    hide Call, Next, Inside;
    CallSteps(run, t, i, j, max, block, k);
    if k == i + 1 {
      assert Inside(TryLoad(max, 0, block), max, block) by { StartInside(max, block); }
    } else {
      CallInside(run, t, i, j, max, block, k - 1);
      CallSteps(run, t, i, j, max, block, k - 1);
      StepOf(run[k - 1], run[k], t, max, block);
      assert GaveUp(run[k].threads[t]) && !GaveUp(run[k - 1].threads[t]) ==> GivesUp(run, t, k - 1);
    }
  }

  lemma StartInside(max: nat, block: bool)
    ensures Inside(TryLoad(max, 0, block), max, block)
  {
  }

  // A whole call, whatever the other threads do meanwhile, returns at most max; tryWaitMany takes all the units
  // there are at its last step, up to max; waitMany returns none exactly when max is 0 or it gives its decrement back,
  // which it does only after a kernel wait that timed out or failed.
  lemma WaitManyResult(run: seq<State>, t: nat, i: nat, j: nat, max: nat, block: bool)
    requires Call(run, t, i, j, max, block)
    ensures 0 <= Result(run, j) <= max
    ensures !block ==> Result(run, j) == Min(max, Max(run[j].count, 0)) && run[j + 1].count == run[j].count - Result(run, j)
    ensures t < |run[j].threads| && Greedy(run[j].threads[t], run[j].count, Result(run, j))
    ensures block ==> (Result(run, j) > 0 <==> max > 0 && !run[j].threads[t].Restore?)
    ensures run[j].threads[t].Restore? ==> exists m: nat {:trigger GivesUp(run, t, m)} :: i < m < j && GivesUp(run, t, m)
  {
    CallInside(run, t, i, j, max, block, j);
    CallSteps(run, t, i, j, max, block, j);
    StepOf(run[j], run[j + 1], t, max, block);
  }

  // The assert of waitMany without a timeout, that the result is positive: if no kernel wait of the call
  // fails, it holds exactly when max is positive.
  lemma WaitManyAssert(run: seq<State>, t: nat, i: nat, j: nat, max: nat)
    requires Call(run, t, i, j, max, true) && forall m: nat {:trigger GivesUp(run, t, m)} :: i < m < j ==> !GivesUp(run, t, m)
    ensures Result(run, j) > 0 <==> max > 0
  {
    WaitManyResult(run, t, i, j, max, true);
  }
}
