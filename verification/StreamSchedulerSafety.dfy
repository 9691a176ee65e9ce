/** What every step of the scheduler keeps, and what follows for every run. */
module StreamSchedulerSafety {
  import opened MachineWords
  import opened Sequences
  import opened StreamScheduler

  /** Thread `k` owns context `c`: in its inbox, or not yet finished in its batch. */
  ghost predicate Owns(s: State, k: nat, c: Ctx) {
    k < |s.threads| && (c in s.threads[k].inbox || c in s.threads[k].batch)
  }

  /** Main has pushed context `c` and has not marked it handled yet. */
  ghost predicate HandingOver(s: State, c: Ctx) {
    match s.main
    case Notify(i, _) => i < |s.contexts| && s.contexts[i] == c
    case MarkHandled(i, handoff) => handoff.To? && i < |s.contexts| && s.contexts[i] == c
    case _ => false
  }

  /** The list is the heap, without repetition and with one context a guild. */
  ghost predicate Registry(s: State) {
    && NoDuplicates(s.contexts)
    && |s.contexts| <= MAX_CONTEXTS
    && (forall c :: c in s.contexts <==> c in s.heap)
    && (forall c, d | c in s.heap && d in s.heap :: s.heap[c].guild == s.heap[d].guild ==> c == d)
  }

  ghost predicate Exclusive(s: State) {
    && (forall k | 0 <= k < |s.threads| ::
          && NoDuplicates(s.threads[k].inbox)
          && NoDuplicates(s.threads[k].batch)
          && (forall c | c in s.threads[k].inbox :: c !in s.threads[k].batch))
    && (forall k, l, c | Owns(s, k, c) && Owns(s, l, c) :: k == l)
  }

  ghost predicate Live(s: State) {
    forall k, c | Owns(s, k, c) :: c in s.heap && (s.heap[c].handled || HandingOver(s, c))
  }

  function MaxOf(sizes: seq<nat>): (m: nat)
    ensures forall j | 0 <= j < |sizes| :: sizes[j] <= m
    ensures sizes == [] ==> m == 0
    ensures sizes != [] ==> m in sizes
  {
    if sizes == [] then 0
    else
      var m, x := MaxOf(sizes[..|sizes| - 1]), sizes[|sizes| - 1];
      if m < x then x else m
  }

  function MinOf(sizes: seq<nat>): (m: nat)
    requires forall j | 0 <= j < |sizes| :: sizes[j] < SIZE_MAX
    ensures forall j | 0 <= j < |sizes| :: m <= sizes[j]
    ensures sizes == [] ==> m == SIZE_MAX
    ensures sizes != [] ==> m in sizes
  {
    if sizes == [] then SIZE_MAX
    else
      var m, x := MinOf(sizes[..|sizes| - 1]), sizes[|sizes| - 1];
      if m > x then x else m
  }

  /** Readings of the first scan that found no idle thread. */
  ghost predicate Busy(sizes: seq<nat>) {
    forall j | 0 <= j < |sizes| :: 0 < sizes[j] < SIZE_MAX
  }

  ghost predicate AllEqualTo(sizes: seq<nat>, x: nat) {
    forall j | 0 <= j < |sizes| :: sizes[j] == x
  }

  /** The load avoided after the first scan read `first`. */
  ghost function Avoided(first: seq<nat>): nat
    requires Busy(first)
  {
    Avoid(MaxOf(first), MinOf(first))
  }

  /** The choice `notify_work` makes on its readings: the first thread found
      idle; else the first one whose load is not the one avoided; else none. */
  ghost predicate Chosen(count: nat, h: Handoff) {
    match h
    case To(k, first, second) =>
      && k < count
      && if second == []
         then |first| == k + 1 && first[k] == 0 && Busy(first[..k])
         else |first| == count && Busy(first) && |second| == k + 1
              && second[k] != Avoided(first) && AllEqualTo(second[..k], Avoided(first))
    case Nobody(first, second) =>
      |first| == count && Busy(first) && |second| == count && AllEqualTo(second, Avoided(first))
  }

  /** A context that main may hand over: not handled and owned by no thread. */
  ghost predicate Pending(s: State, i: nat) {
    && i < |s.contexts| && s.contexts[i] in s.heap
    && !s.heap[s.contexts[i]].handled
    && (forall k :: !Owns(s, k, s.contexts[i]))
  }

  /** A context that main has handed over as `h` says and not yet marked. */
  ghost predicate Given(s: State, i: nat, h: Handoff) {
    && Chosen(|s.threads|, h)
    && if h.To? then i < |s.contexts| && s.contexts[i] in s.heap && !s.heap[s.contexts[i]].handled
                     && Owns(s, h.thread, s.contexts[i])
       else Pending(s, i)
  }

  ghost predicate FirstScan(count: nat, max: nat, min: nat, first: seq<nat>) {
    |first| <= count && Busy(first) && max == MaxOf(first) && min == MinOf(first)
  }

  ghost predicate SecondScan(count: nat, max: nat, first: seq<nat>, second: seq<nat>) {
    |first| == count && Busy(first) && max == Avoided(first) && |second| <= count && AllEqualTo(second, max)
  }

  ghost predicate MainOk(s: State) {
    var n := |s.threads|;
    match s.main
    case Outside => true
    case WantContexts => true
    case Visit(i) => i <= |s.contexts|
    case First(i, max, min, first) => Pending(s, i) && FirstScan(n, max, min, first)
    case FirstLocked(i, max, min, first) => Pending(s, i) && FirstScan(n, max, min, first) && |first| < n
    case Second(i, max, first, second) => Pending(s, i) && SecondScan(n, max, first, second)
    case SecondLocked(i, max, first, second) => Pending(s, i) && SecondScan(n, max, first, second) && |second| < n
    case Notify(i, h) => h.To? && Given(s, i, h)
    case MarkHandled(i, h) => Given(s, i, h)
  }

  /** Thread `k`'s mutex is held by main. */
  ghost predicate MainLocks(m: MainPc, k: nat) {
    (m.FirstLocked? && |m.first| == k) || (m.SecondLocked? && |m.second| == k)
  }

  /** Every mutex is held by exactly the agent whose program counter says so. */
  ghost predicate LocksOk(s: State) {
    && (s.lock == HeldBy(Main) <==> !s.main.Outside? && !s.main.WantContexts?)
    && (s.lock.HeldBy? && s.lock.agent.Worker? ==> s.lock.agent.id < |s.threads|)
    && (forall k | 0 <= k < |s.threads| ::
          s.lock == HeldBy(Worker(k)) <==> s.threads[k].pc.Erasing? || s.threads[k].pc.Returning?)
    && (forall k | 0 <= k < |s.threads| ::
          && (s.threads[k].lock == HeldBy(Main) <==> MainLocks(s.main, k))
          && (s.threads[k].lock == HeldBy(Worker(k)) <==> s.threads[k].pc.Taking? || s.threads[k].pc.Woken?)
          && (s.threads[k].lock.Free? || s.threads[k].lock == HeldBy(Main) || s.threads[k].lock == HeldBy(Worker(k))))
  }

  /** `c` is the thread main is about to notify. */
  ghost predicate NotifyOwed(s: State, k: nat) {
    s.main.Notify? && s.main.handoff.To? && s.main.handoff.thread == k
  }

  ghost predicate ThreadOk(s: State, k: nat)
    requires k < |s.threads|
  {
    var t := s.threads[k];
    && (Resting(t.pc) ==> t.batch == [])
    && (!Resting(t.pc) && !t.pc.Serving? ==> t.batch != [])
    && (t.pc.Asleep? || t.pc.Waking? || t.pc.Woken? ==> t.size == 0)
    && |t.batch| <= t.size <= MAX_CONTEXTS
    && (t.pc.Asleep? && t.inbox != [] ==> NotifyOwed(s, k))
  }

  ghost predicate ThreadsOk(s: State) {
    forall k | 0 <= k < |s.threads| :: ThreadOk(s, k)
  }

  /** Who owns what. */
  ghost predicate Owned(s: State) {
    Registry(s) && Exclusive(s) && Live(s)
  }

  ghost predicate Inv(s: State) {
    Owned(s) && MainOk(s) && LocksOk(s) && ThreadsOk(s)
  }

  lemma InitInv(count: nat)
    ensures Inv(Init(count))
  {
  }

  // --------------------------------------------------- mutexes and threads

  /** While some thread holds the mutex of the contexts, main considers none. */
  lemma MainIsAway(s: State, k: nat)
    requires LocksOk(s) && s.lock == HeldBy(Worker(k))
    ensures s.main.Outside? || s.main.WantContexts?
  {
  }

  /** Main's step on thread `k` alone: reading its load, locking it, or pushing
      to it.  The thread's program counter and batch stay. */
  lemma LocksAfterThreadLock(s: State, s': State, k: nat)
    requires LocksOk(s) && k < |s.threads| == |s'.threads| && s'.lock == s.lock == HeldBy(Main)
    requires s'.threads == s.threads[k := s'.threads[k]] && s'.threads[k].pc == s.threads[k].pc
    requires !s'.main.Outside? && !s'.main.WantContexts?
    requires forall j :: MainLocks(s.main, j) ==> j == k
    requires forall j :: MainLocks(s'.main, j) ==> j == k
    requires s'.threads[k].lock == if MainLocks(s'.main, k) then HeldBy(Main) else Free
    requires s.threads[k].lock.Free? || MainLocks(s.main, k)
    ensures LocksOk(s')
  {
  }

  /** A thread's step on its own mutex. */
  lemma LocksAfterOwnLock(s: State, s': State, k: nat)
    requires LocksOk(s) && k < |s.threads| == |s'.threads| && s' == s.(threads := s.threads[k := s'.threads[k]])
    requires Resting(s.threads[k].pc) && (Resting(s'.threads[k].pc) || s'.threads[k].pc.Serving?)
    requires if s'.threads[k].pc.Taking? || s'.threads[k].pc.Woken?
             then s.threads[k].lock.Free? && s'.threads[k].lock == HeldBy(Worker(k))
             else s.threads[k].lock == HeldBy(Worker(k)) && s'.threads[k].lock == Free
    ensures LocksOk(s')
  {
  }

  /** A thread's step that leaves its own mutex alone. */
  lemma LocksAfterSettling(s: State, s': State, k: nat)
    requires LocksOk(s) && k < |s.threads| && !Resting(s.threads[k].pc)
    requires s'.main == s.main && |s'.threads| == |s.threads| && s'.threads == s.threads[k := s'.threads[k]]
    requires s'.threads[k].lock == s.threads[k].lock && !s'.threads[k].pc.Taking? && !s'.threads[k].pc.Woken?
    requires if s'.threads[k].pc.Erasing? || s'.threads[k].pc.Returning?
             then s.lock.Free? && s'.lock == HeldBy(Worker(k))
             else if s.threads[k].pc.Erasing? || s.threads[k].pc.Returning? then s'.lock.Free?
             else s'.lock == s.lock
    ensures LocksOk(s')
  {
  }

  /** Only thread `k` changed, and main owes the same notifications. */
  lemma ThreadsAfter(s: State, s': State, k: nat)
    requires ThreadsOk(s) && k < |s.threads| == |s'.threads| && s'.threads == s.threads[k := s'.threads[k]]
    requires ThreadOk(s', k)
    requires forall j | j != k && NotifyOwed(s, j) :: NotifyOwed(s', j)
    ensures ThreadsOk(s')
  {
    forall j | 0 <= j < |s'.threads| ensures ThreadOk(s', j) {
      assert ThreadOk(s, j);
    }
  }

  lemma ThreadsFrame(s: State, s': State)
    requires ThreadsOk(s) && s'.threads == s.threads
    requires forall j | NotifyOwed(s, j) :: NotifyOwed(s', j)
    ensures ThreadsOk(s')
  {
    forall j | 0 <= j < |s'.threads| ensures ThreadOk(s', j) {
      assert ThreadOk(s, j);
    }
  }

  lemma {:induction false} DistinctContextsAreFew(list: seq<Ctx>, pool: seq<Ctx>)
    requires NoDuplicates(list) && (forall c | c in list :: c in pool)
    ensures |list| <= |pool|
    decreases |list|
  {
    if list != [] {
      var c, rest := list[0], list[1..];
      assert c in list;
      var i :| 0 <= i < |pool| && pool[i] == c;
      var others := pool[..i] + pool[i + 1..];
      forall d | d in rest ensures d in others {
        assert d in list;
        var j :| 0 <= j < |pool| && pool[j] == d;
        assert j != i;
        if j < i { assert others[j] == d; } else { assert others[j - 1] == d; }
      }
      DistinctContextsAreFew(rest, others);
    }
  }

  lemma InboxesAreBounded(s: State, k: nat)
    requires Owned(s) && k < |s.threads|
    ensures |s.threads[k].inbox| <= MAX_CONTEXTS
  {
    forall c | c in s.threads[k].inbox ensures c in s.contexts {
      assert Owns(s, k, c);
    }
    DistinctContextsAreFew(s.threads[k].inbox, s.contexts);
  }

  // -------------------------------------------------------------- ownership

  /** A step that changes no inbox, no batch and neither heap nor list keeps who
      owns what. */
  lemma OwnedFrame(s: State, s': State)
    requires Owned(s)
    requires s'.heap == s.heap && s'.contexts == s.contexts && |s'.threads| == |s.threads|
    requires forall k | 0 <= k < |s.threads| ::
               s'.threads[k].inbox == s.threads[k].inbox && s'.threads[k].batch == s.threads[k].batch
    requires forall c | HandingOver(s, c) :: HandingOver(s', c)
    ensures Owned(s')
    ensures forall k, c :: Owns(s', k, c) <==> Owns(s, k, c)
  {
    assert forall k, c :: Owns(s', k, c) <==> Owns(s, k, c);
  }

  /** Main pushes the pending context `i` to thread `k`. */
  lemma OwnedAfterPush(s: State, s': State, i: nat, k: nat, h: Handoff)
    requires Owned(s) && Pending(s, i) && k < |s.threads| && h.To?
    requires forall c :: !HandingOver(s, c)
    requires (s.main.FirstLocked? || s.main.SecondLocked?) && s.main.i == i && s' == Push(s, k, h)
    ensures Owned(s') && Owns(s', k, s.contexts[i])
  {
    var c := s.contexts[i];
    assert !Owns(s, k, c);
    assert s'.threads[k].inbox == s.threads[k].inbox + [c];
    assert forall j, d :: Owns(s', j, d) <==> Owns(s, j, d) || (j == k && d == c);
  }

  /** A thread takes its whole inbox as its batch. */
  lemma OwnedAfterTake(s: State, s': State, k: nat)
    requires Owned(s) && k < |s.threads| && s.threads[k].batch == []
    requires s' == s.(threads := s'.threads) && |s'.threads| == |s.threads|
    requires forall j | 0 <= j < |s.threads| && j != k :: s'.threads[j] == s.threads[j]
    requires s'.threads[k].inbox == [] && s'.threads[k].batch == s.threads[k].inbox
    ensures Owned(s')
    ensures forall j, c :: Owns(s', j, c) <==> Owns(s, j, c)
  {
    assert forall j, c :: Owns(s', j, c) <==> Owns(s, j, c);
  }

  /** A thread finishes the first context of its batch; no one owns it after. */
  lemma ExclusiveAfterFinish(s: State, s': State, k: nat)
    requires Exclusive(s) && k < |s.threads| == |s'.threads| && s.threads[k].batch != []
    requires s'.threads == s.threads[k := s.threads[k].(batch := s.threads[k].batch[1..], pc := Serving)]
    ensures Exclusive(s')
    ensures forall j, c :: Owns(s', j, c) <==> Owns(s, j, c) && c != s.threads[k].batch[0]
  {
    var t := s.threads[k];
    var d := t.batch[0];
    assert t.batch == [d] + t.batch[1..];
    assert Owns(s, k, d);
    assert forall c :: Owns(s', k, c) <==> Owns(s, k, c) && c != d;
    assert forall j, c | j != k :: Owns(s', j, c) <==> Owns(s, j, c);
  }

  lemma EraseKeeps(list: seq<Ctx>, i: nat)
    requires NoDuplicates(list) && i < |list|
    ensures NoDuplicates(Erase(list, i))
    ensures forall d :: d in Erase(list, i) <==> d in list && d != list[i]
  {
    var rest := Erase(list, i);
    forall d | d in list && d != list[i] ensures d in rest {
      var m :| 0 <= m < |list| && list[m] == d;
      if m < i { assert rest[m] == d; } else { assert rest[m - 1] == d; }
    }
  }

  /** In a consistent registry, the context found for a guild is the guild's
      only one. */
  lemma FindIsExact(s: State, c: Ctx)
    requires Registry(s) && c in s.heap
    ensures var i := IndexOfGuild(s.heap, s.contexts, s.heap[c].guild);
            i < |s.contexts| && s.contexts[i] == c
  {
    var i := IndexOfGuild(s.heap, s.contexts, s.heap[c].guild);
    var j :| 0 <= j < |s.contexts| && s.contexts[j] == c;
    assert i <= j;
    assert s.contexts[i] in s.heap;
  }

  /** State `e` is `s` without context `c`. */
  ghost predicate Without(s: State, e: State, c: Ctx) {
    && e == s.(heap := s.heap - {c}, contexts := e.contexts)
    && (forall d :: d in e.contexts <==> d in s.contexts && d != c)
    && Registry(e)
  }

  /** In a consistent registry, erasing by guild erases the context of that
      guild and no other. */
  lemma EraseIsExact(s: State, c: Ctx)
    requires Registry(s) && c in s.heap
    ensures Without(s, EraseGuild(s, s.heap[c].guild), c)
  {
    FindIsExact(s, c);
    EraseKeeps(s.contexts, IndexOfGuild(s.heap, s.contexts, s.heap[c].guild));
  }

  lemma LiveAfterFinish(s: State, s': State, c: Ctx)
    requires Live(s) && (forall d :: !HandingOver(s, d))
    requires forall j, d :: Owns(s', j, d) <==> Owns(s, j, d) && d != c
    requires forall d | d in s.heap && d != c :: d in s'.heap && s'.heap[d] == s.heap[d]
    ensures Live(s')
  {
  }

  // -------------------------------------------------- main's program counter

  lemma MaxExtends(sizes: seq<nat>, x: nat)
    ensures MaxOf(sizes + [x]) == if MaxOf(sizes) < x then x else MaxOf(sizes)
  {
    assert (sizes + [x])[..|sizes|] == sizes;
  }

  lemma BusyExtends(sizes: seq<nat>, x: nat)
    requires Busy(sizes) && 0 < x < SIZE_MAX
    ensures Busy(sizes + [x])
  {
  }

  lemma MinExtends(sizes: seq<nat>, x: nat)
    requires Busy(sizes) && Busy(sizes + [x])
    ensures MinOf(sizes + [x]) == if MinOf(sizes) > x then x else MinOf(sizes)
  {
    assert (sizes + [x])[..|sizes|] == sizes;
  }

  lemma MainOkFrame(s: State, s': State)
    requires MainOk(s) && s'.main == s.main && s'.heap == s.heap && s'.contexts == s.contexts
    requires |s'.threads| == |s.threads| && (forall k, c :: Owns(s', k, c) <==> Owns(s, k, c))
    ensures MainOk(s')
  {
  }

  lemma PendingFrame(s: State, s': State, i: nat)
    requires Pending(s, i) && s'.heap == s.heap && s'.contexts == s.contexts
    requires forall k, c :: Owns(s', k, c) <==> Owns(s, k, c)
    ensures Pending(s', i)
  {
  }

  // ------------------------------------------------------------ steps of main

  lemma CheckKeepsInv(s: State, need: bool)
    requires Inv(s) && (s.main.Outside? || s.main.WantContexts? || s.main.Visit?)
    ensures !CheckStep(s, need).Fault?
    ensures CheckStep(s, need).Moved? ==> Inv(CheckStep(s, need).state)
  {
    if CheckStep(s, need).Moved? {
      var s' := CheckStep(s, need).state;
      OwnedFrame(s, s');
      ThreadsFrame(s, s');
    }
  }

  lemma MarkKeepsInv(s: State)
    requires Inv(s) && s.main.MarkHandled?
    ensures CheckStep(s, false).Moved? && Inv(CheckStep(s, false).state)
  {
    var s' := CheckStep(s, false).state;
    assert forall k, c :: Owns(s', k, c) <==> Owns(s, k, c);
    ThreadsFrame(s, s');
  }

  lemma NotifyKeepsInv(s: State)
    requires Inv(s) && s.main.Notify?
    ensures NotifyStep(s).Moved? && Inv(NotifyStep(s).state)
  {
    var s', k := NotifyStep(s).state, s.main.handoff.thread;
    assert ThreadOk(s, k);
    OwnedFrame(s, s');
    ThreadsAfter(s, s', k);
  }

  /** Main moves on in its scans and touches at most the mutex of thread `k`. */
  lemma ScanOnKeepsInv(s: State, s': State, k: nat)
    requires Inv(s) && k < |s.threads| == |s'.threads|
    requires s.main.First? || s.main.FirstLocked? || s.main.Second? || s.main.SecondLocked?
    requires s'.main.First? || s'.main.FirstLocked? || s'.main.Second? || s'.main.SecondLocked?
    requires s' == SetThread(s, k, s.threads[k].(lock := s'.threads[k].lock)).(main := s'.main)
    requires LocksOk(s') && s'.main.i == s.main.i
    requires var n := |s.threads|;
             match s'.main
             case First(_, max, min, first) => FirstScan(n, max, min, first)
             case FirstLocked(_, max, min, first) => FirstScan(n, max, min, first) && |first| < n
             case Second(_, max, first, second) => SecondScan(n, max, first, second)
             case SecondLocked(_, max, first, second) => SecondScan(n, max, first, second) && |second| < n
             case _ => false
    ensures Inv(s')
  {
    OwnedFrame(s, s');
    assert ThreadOk(s, k);
    ThreadsAfter(s, s', k);
    PendingFrame(s, s', s.main.i);
  }

  /** Main goes from the first scan to the second, or from the second to giving
      up, without touching anything. */
  lemma ScanEndKeepsInv(s: State, s': State)
    requires Inv(s) && s' == s.(main := s'.main)
    requires s.main.First? || s.main.Second?
    requires if s.main.First?
             then s'.main.Second? && SecondScan(|s.threads|, s'.main.max, s'.main.first, s'.main.second)
             else s'.main.MarkHandled? && s'.main.handoff.Nobody? && Chosen(|s.threads|, s'.main.handoff)
    requires s'.main.i == s.main.i
    ensures Inv(s')
  {
    OwnedFrame(s, s');
    ThreadsFrame(s, s');
    PendingFrame(s, s', s.main.i);
  }

  lemma PushKeepsInv(s: State, h: Handoff)
    requires Inv(s) && (s.main.FirstLocked? || s.main.SecondLocked?)
    requires h.To? && MainLocks(s.main, h.thread) && Chosen(|s.threads|, h)
    ensures Inv(Push(s, h.thread, h))
  {
    var s', k := Push(s, h.thread, h), h.thread;
    OwnedAfterPush(s, s', s.main.i, k, h);
    LocksAfterThreadLock(s, s', k);
    assert ThreadOk(s, k);
    ThreadsAfter(s, s', k);
  }

  lemma FirstScanKeepsInv(s: State)
    requires Inv(s) && s.main.First?
    ensures !FirstScanStep(s).Fault?
    ensures FirstScanStep(s).Moved? ==> Inv(FirstScanStep(s).state)
  {
    var k := |s.main.first|;
    if k == |s.threads| {
      ScanEndKeepsInv(s, FirstScanStep(s).state);
    } else if s.threads[k].lock.Free? {
      LocksAfterThreadLock(s, FirstScanStep(s).state, k);
      ScanOnKeepsInv(s, FirstScanStep(s).state, k);
    }
  }

  lemma FirstPushKeepsInv(s: State)
    requires Inv(s) && s.main.FirstLocked? && s.threads[|s.main.first|].size == 0
    ensures FirstScanStep(s).Moved? && Inv(FirstScanStep(s).state)
  {
    var first := s.main.first;
    assert (first + [0])[..|first|] == first;
    PushKeepsInv(s, To(|first|, first + [0], []));
  }

  lemma FirstScanExtends(count: nat, max: nat, min: nat, first: seq<nat>, size: nat)
    requires FirstScan(count, max, min, first) && |first| < count && 0 < size < SIZE_MAX
    ensures FirstScan(count, if max < size then size else max, if min > size then size else min, first + [size])
  {
    BusyExtends(first, size);
    MaxExtends(first, size);
    MinExtends(first, size);
  }

  lemma FirstPassKeepsInv(s: State)
    requires Inv(s) && s.main.FirstLocked? && s.threads[|s.main.first|].size > 0
    ensures FirstScanStep(s).Moved? && Inv(FirstScanStep(s).state)
  {
    var m := s.main;
    var k, size := |m.first|, s.threads[|m.first|].size;
    assert ThreadOk(s, k);
    var next := First(m.i, if m.max < size then size else m.max, if m.min > size then size else m.min,
                      m.first + [size]);
    assert FirstScanStep(s) == Moved(Read(s, k, next));
    FirstScanExtends(|s.threads|, m.max, m.min, m.first, size);
    LocksAfterThreadLock(s, Read(s, k, next), k);
    ScanOnKeepsInv(s, Read(s, k, next), k);
  }

  lemma FirstReadKeepsInv(s: State)
    requires Inv(s) && s.main.FirstLocked?
    ensures FirstScanStep(s).Moved? && Inv(FirstScanStep(s).state)
  {
    if s.threads[|s.main.first|].size == 0 {
      FirstPushKeepsInv(s);
    } else {
      FirstPassKeepsInv(s);
    }
  }

  lemma SecondScanKeepsInv(s: State)
    requires Inv(s) && s.main.Second?
    ensures !SecondScanStep(s).Fault?
    ensures SecondScanStep(s).Moved? ==> Inv(SecondScanStep(s).state)
  {
    var k := |s.main.second|;
    if k == |s.threads| {
      ScanEndKeepsInv(s, SecondScanStep(s).state);
    } else if s.threads[k].lock.Free? {
      LocksAfterThreadLock(s, SecondScanStep(s).state, k);
      ScanOnKeepsInv(s, SecondScanStep(s).state, k);
    }
  }

  lemma SecondReadKeepsInv(s: State)
    requires Inv(s) && s.main.SecondLocked?
    ensures SecondScanStep(s).Moved? && Inv(SecondScanStep(s).state)
  {
    var second := s.main.second;
    var k := |second|;
    var size := s.threads[k].size;
    if size != s.main.max {
      assert (second + [size])[..k] == second;
      PushKeepsInv(s, To(k, s.main.first, second + [size]));
    } else {
      LocksAfterThreadLock(s, SecondScanStep(s).state, k);
      ScanOnKeepsInv(s, SecondScanStep(s).state, k);
    }
  }

  lemma MainKeepsInv(s: State, need: bool)
    requires Inv(s)
    ensures !MainStepOf(s, need).Fault?
    ensures MainStepOf(s, need).Moved? ==> Inv(MainStepOf(s, need).state)
  {
    if s.main.First? { FirstScanKeepsInv(s); }
    else if s.main.FirstLocked? { FirstReadKeepsInv(s); }
    else if s.main.Second? { SecondScanKeepsInv(s); }
    else if s.main.SecondLocked? { SecondReadKeepsInv(s); }
    else if s.main.Notify? { NotifyKeepsInv(s); }
    else if s.main.MarkHandled? { MarkKeepsInv(s); }
    else { CheckKeepsInv(s, need); }
  }

  // -------------------------------------------------------- steps of a thread

  lemma FetchKeepsInv(s: State, k: nat)
    requires Inv(s) && k < |s.threads| && Resting(s.threads[k].pc)
    ensures !FetchStep(s, k).Fault?
    ensures FetchStep(s, k).Moved? ==> Inv(FetchStep(s, k).state)
  {
    if FetchStep(s, k).Moved? {
      var s' := FetchStep(s, k).state;
      assert ThreadOk(s, k);
      InboxesAreBounded(s, k);
      if s.threads[k].pc.Taking? { OwnedAfterTake(s, s', k); } else { OwnedFrame(s, s'); }
      MainOkFrame(s, s');
      LocksAfterOwnLock(s, s', k);
      ThreadsAfter(s, s', k);
    }
  }

  lemma ServeKeepsInv(s: State, k: nat, done: bool)
    requires Inv(s) && k < |s.threads| && (s.threads[k].pc.Serving? || s.threads[k].pc.Polling?)
    ensures ServeStep(s, k, done).Moved? && Inv(ServeStep(s, k, done).state)
  {
    assert ThreadOk(s, k);
    if s.threads[k].batch != [] {
      assert Owns(s, k, s.threads[k].batch[0]);
    }
    var s' := ServeStep(s, k, done).state;
    OwnedFrame(s, s');
    MainOkFrame(s, s');
    LocksAfterSettling(s, s', k);
    ThreadsAfter(s, s', k);
  }

  lemma EnterKeepsInv(s: State, k: nat)
    requires Inv(s) && k < |s.threads| && (s.threads[k].pc.WantErase? || s.threads[k].pc.WantReturn?)
    ensures !SettleStep(s, k).Fault?
    ensures SettleStep(s, k).Moved? ==> Inv(SettleStep(s, k).state)
  {
    if SettleStep(s, k).Moved? {
      var s' := SettleStep(s, k).state;
      assert ThreadOk(s, k);
      OwnedFrame(s, s');
      MainOkFrame(s, s');
      LocksAfterSettling(s, s', k);
      ThreadsAfter(s, s', k);
    }
  }

  /** Thread `k` settles the first context of its batch, after its critical
      section made `e` of the heap and the list of `s`. */
  lemma SettleKeepsInv(s: State, e: State, k: nat)
    requires Inv(s) && k < |s.threads| && (s.threads[k].pc.Erasing? || s.threads[k].pc.Returning?)
    requires e == s.(heap := e.heap, contexts := e.contexts) && Registry(e) && s.threads[k].batch != []
    requires forall d | d in s.heap && d != s.threads[k].batch[0] :: d in e.heap && e.heap[d] == s.heap[d]
    ensures Inv(Settle(e, k))
  {
    var s', c := Settle(e, k), s.threads[k].batch[0];
    MainIsAway(s, k);
    assert ThreadOk(s, k);
    ExclusiveAfterFinish(s, s', k);
    LiveAfterFinish(s, s', c);
    LocksAfterSettling(s, s', k);
    ThreadsAfter(s, s', k);
  }

  lemma EraseKeepsInv(s: State, k: nat)
    requires Inv(s) && k < |s.threads| && s.threads[k].pc.Erasing?
    ensures SettleStep(s, k).Moved? && Inv(SettleStep(s, k).state)
  {
    assert ThreadOk(s, k);
    var c := s.threads[k].batch[0];
    assert Owns(s, k, c);
    EraseIsExact(s, c);
    SettleKeepsInv(s, EraseGuild(s, s.heap[c].guild), k);
  }

  lemma ReturnKeepsInv(s: State, k: nat)
    requires Inv(s) && k < |s.threads| && s.threads[k].pc.Returning?
    ensures SettleStep(s, k).Moved? && Inv(SettleStep(s, k).state)
  {
    assert ThreadOk(s, k);
    var c := s.threads[k].batch[0];
    assert Owns(s, k, c);
    SettleKeepsInv(s, s.(heap := s.heap[c := s.heap[c].(handled := false)]), k);
  }

  lemma LeaveKeepsInv(s: State, k: nat)
    requires Inv(s) && k < |s.threads| && (s.threads[k].pc.Erasing? || s.threads[k].pc.Returning?)
    ensures SettleStep(s, k).Moved? && Inv(SettleStep(s, k).state)
  {
    if s.threads[k].pc.Erasing? {
      EraseKeepsInv(s, k);
    } else {
      ReturnKeepsInv(s, k);
    }
  }

  lemma ThreadKeepsInv(s: State, k: nat, done: bool)
    requires Inv(s) && k < |s.threads|
    ensures !WorkerStepOf(s, k, done).Fault?
    ensures WorkerStepOf(s, k, done).Moved? ==> Inv(WorkerStepOf(s, k, done).state)
  {
    var pc := s.threads[k].pc;
    if pc.Serving? || pc.Polling? { ServeKeepsInv(s, k, done); }
    else if pc.WantErase? || pc.WantReturn? { EnterKeepsInv(s, k); }
    else if pc.Erasing? || pc.Returning? { LeaveKeepsInv(s, k); }
    else { FetchKeepsInv(s, k); }
  }

  lemma SubmitKeepsInv(s: State, g: Guild, address: Ctx)
    requires Inv(s)
    ensures !SubmitOf(s, g, address).Fault?
    ensures SubmitOf(s, g, address).Moved? ==> Inv(SubmitOf(s, g, address).state)
  {
    if SubmitOf(s, g, address).Moved? {
      var s' := SubmitOf(s, g, address).state;
      assert forall k, c :: Owns(s', k, c) <==> Owns(s, k, c);
      ThreadsFrame(s, s');
    }
  }

  lemma WakeKeepsInv(s: State, k: nat)
    requires Inv(s) && k < |s.threads| && s.threads[k].pc.Asleep?
    ensures Inv(Wake(s, k))
  {
    var s' := Wake(s, k);
    OwnedFrame(s, s');
    MainOkFrame(s, s');
    assert ThreadOk(s, k);
    ThreadsAfter(s, s', k);
  }

  /** No step from a consistent state touches a deleted context, and every step
      leaves the state consistent. */
  lemma StepKeepsInv(s: State, a: Action)
    requires Inv(s)
    ensures !Next(s, a).Fault?
    ensures Next(s, a).Moved? ==> Inv(Next(s, a).state)
  {
    match a
    case MainStep(need) => MainKeepsInv(s, need);
    case WorkerStep(k, done) => if k < |s.threads| { ThreadKeepsInv(s, k, done); }
    case SpuriousWake(k) => if k < |s.threads| && s.threads[k].pc.Asleep? { WakeKeepsInv(s, k); }
    case Submit(g, address) => SubmitKeepsInv(s, g, address);
  }

  lemma {:induction false} RunKeepsInv(s: State, actions: seq<Action>)
    requires Inv(s)
    ensures !Run(s, actions).Fault?
    ensures Run(s, actions).Moved? ==> Inv(Run(s, actions).state)
    decreases |actions|
  {
    if actions != [] {
      StepKeepsInv(s, actions[0]);
      if Next(s, actions[0]).Moved? {
        RunKeepsInv(Next(s, actions[0]).state, actions[1..]);
      }
    }
  }
}
