/** What holds in every run of the scheduler. */
module StreamSchedulerTheorems {
  import opened MachineWords
  import opened Sequences
  import opened StreamScheduler
  import opened StreamSchedulerSafety

  // ------------------------------------------------------- deletion and owners

  /** No interleaving of main, the stream threads, the submitters and spurious
      wake-ups ever uses a context that has been deleted. */
  lemma NoDanglingContext(count: nat, actions: seq<Action>)
    ensures !Run(Init(count), actions).Fault?
  {
    InitInv(count);
    RunKeepsInv(Init(count), actions);
  }

  lemma ReachableInv(count: nat, s: State)
    requires Reachable(count, s)
    ensures Inv(s)
  {
    var actions :| Run(Init(count), actions) == Moved(s);
    InitInv(count);
    RunKeepsInv(Init(count), actions);
  }

  /** A context is in at most one inbox or batch, once, and is live and handled
      there, unless main, holding the lock on the contexts, has pushed it and is
      about to mark it. */
  lemma ExclusiveOwnership(count: nat, s: State)
    requires Reachable(count, s)
    ensures forall k, l, c | Owns(s, k, c) && Owns(s, l, c) :: k == l
    ensures forall k | 0 <= k < |s.threads| :: NoDuplicates(s.threads[k].inbox + s.threads[k].batch)
    ensures forall k, c | Owns(s, k, c) ::
              c in s.heap && (!s.heap[c].handled ==> HandingOver(s, c) && s.lock == HeldBy(Main))
  {
    ReachableInv(count, s);
    forall k | 0 <= k < |s.threads| ensures NoDuplicates(s.threads[k].inbox + s.threads[k].batch) {
      var t := s.threads[k];
      assert forall c | c in t.inbox :: c !in t.batch;
      forall i, j | 0 <= i < j < |t.inbox + t.batch| ensures (t.inbox + t.batch)[i] != (t.inbox + t.batch)[j] {
        if i < |t.inbox| <= j { assert t.inbox[i] in t.inbox && t.batch[j - |t.inbox|] in t.batch; }
      }
    }
  }

  /** When main asks a context whether it needs a handler, no thread has it. */
  lemma MainPollsUnownedContexts(count: nat, s: State)
    requires Reachable(count, s)
    requires s.main.Visit? && s.main.i < |s.contexts|
    ensures s.contexts[s.main.i] in s.heap
    ensures !s.heap[s.contexts[s.main.i]].handled ==> forall k :: !Owns(s, k, s.contexts[s.main.i])
  {
    ReachableInv(count, s);
  }

  /** Erasing by guild deletes exactly the context the thread is finishing, and
      afterwards neither that thread nor another one has it. */
  lemma ThreadErasesItsOwn(count: nat, s: State, k: nat)
    requires Reachable(count, s) && k < |s.threads| && s.threads[k].pc.Erasing?
    ensures s.threads[k].batch != [] && WorkerStepOf(s, k, true).Moved?
    ensures var c, s' := s.threads[k].batch[0], WorkerStepOf(s, k, true).state;
            && s'.heap == s.heap - {c}
            && (forall d :: d in s'.contexts <==> d in s.contexts && d != c)
            && (forall j :: !Owns(s', j, c))
            && (forall d | d in s'.heap :: s'.heap[d].guild != s.heap[c].guild)
  {
    ReachableInv(count, s);
    LeaveKeepsInv(s, k);
    assert ThreadOk(s, k);
    var c := s.threads[k].batch[0];
    assert Owns(s, k, c);
    EraseIsExact(s, c);
    ExclusiveAfterFinish(s, SettleStep(s, k).state, k);
  }

  // ----------------------------------------------------------------- hand-off

  /** What the loads were when main looked at them. */
  ghost predicate ReadFrom(h: Handoff, loads1: seq<nat>, loads2: seq<nat>) {
    h.first <= loads1 && h.second <= loads2
  }

  /** In every run the thread picked is the one the readings call for. */
  lemma HandoffFollowsReadings(count: nat, s: State)
    requires Reachable(count, s) && (s.main.Notify? || s.main.MarkHandled?)
    ensures Chosen(|s.threads|, s.main.handoff) && s.main.i < |s.contexts|
    ensures s.main.handoff.To? ==> Owns(s, s.main.handoff.thread, s.contexts[s.main.i])
    ensures s.main.handoff.Nobody? ==> forall k :: !Owns(s, k, s.contexts[s.main.i])
  {
    ReachableInv(count, s);
  }

  /** A context goes to nobody exactly when the first scan found every thread
      busy and the second found every thread at the one load it avoids. */
  lemma HandoffFailsExactly(count: nat, h: Handoff, loads1: seq<nat>, loads2: seq<nat>)
    requires Chosen(count, h) && ReadFrom(h, loads1, loads2) && |loads1| == |loads2| == count
    requires forall j | 0 <= j < count :: loads1[j] < SIZE_MAX
    ensures h.Nobody? <==> Busy(loads1) && AllEqualTo(loads2, Avoided(loads1))
  {
    if h.To? {
      if h.second == [] {
        assert loads1[h.thread] == h.first[h.thread];
      } else {
        assert loads1 == h.first;
        assert loads2[h.thread] == h.second[h.thread];
      }
    } else {
      assert loads1 == h.first && loads2 == h.second;
    }
  }

  /** With at least one thread and no load changing between the scans, the
      context goes to the first idle thread if there is one, else to the first
      one below the highest load, else (all loads equal) to thread 0. */
  lemma StableHandoff(count: nat, h: Handoff, loads: seq<nat>)
    requires Chosen(count, h) && ReadFrom(h, loads, loads) && |loads| == count > 0
    requires forall j | 0 <= j < count :: loads[j] < SIZE_MAX
    ensures h.To?
    ensures loads[h.thread] == 0 || Busy(loads)
    ensures loads[h.thread] == 0 ==> forall j | 0 <= j < h.thread :: loads[j] != 0
    ensures Busy(loads) ==> if AllEqualTo(loads, loads[0]) then h.thread == 0
                            else loads[h.thread] < MaxOf(loads) && AllEqualTo(loads[..h.thread], MaxOf(loads))
  {
    if Busy(loads) {
      BusyHandoff(count, h, loads);
    } else {
      HandoffFailsExactly(count, h, loads, loads);
      assert h.second != [] ==> h.first == loads;
      assert loads[h.thread] == h.first[h.thread];
      forall j | 0 <= j < h.thread ensures loads[j] != 0 {
        assert h.first[..h.thread][j] == loads[j];
      }
    }
  }

  lemma LoadsDiffer(loads: seq<nat>)
    requires Busy(loads) && loads != []
    ensures MaxOf(loads) == MinOf(loads) <==> AllEqualTo(loads, loads[0])
    ensures AllEqualTo(loads, Avoided(loads)) ==> false
    ensures loads[0] <= MaxOf(loads)
  {
    assert MinOf(loads) <= loads[0] <= MaxOf(loads);
  }

  lemma BusyReadings(h: Handoff, loads: seq<nat>)
    requires Chosen(|loads|, h) && ReadFrom(h, loads, loads) && Busy(loads) && h.To?
    ensures h.first == loads && loads[h.thread] != Avoided(loads)
    ensures AllEqualTo(loads[..h.thread], Avoided(loads))
  {
    assert forall j | 0 <= j < |h.first| :: h.first[j] == loads[j];
    assert loads == h.first;
    assert h.second[..h.thread] == loads[..h.thread];
    assert loads[h.thread] == h.second[h.thread];
  }

  lemma BusyHandoff(count: nat, h: Handoff, loads: seq<nat>)
    requires Chosen(count, h) && ReadFrom(h, loads, loads) && |loads| == count > 0 && Busy(loads)
    ensures h.To?
    ensures if AllEqualTo(loads, loads[0]) then h.thread == 0
            else loads[h.thread] < MaxOf(loads) && AllEqualTo(loads[..h.thread], MaxOf(loads))
  {
    LoadsDiffer(loads);
    assert h.Nobody? ==> h.second == loads;
    BusyReadings(h, loads);
    assert h.thread > 0 ==> loads[..h.thread][0] == loads[0];
  }

  /** The loads of the threads. */
  ghost function Loads(s: State): (loads: seq<nat>)
    ensures |loads| == |s.threads| && forall k | 0 <= k < |loads| :: loads[k] == s.threads[k].size
  {
    seq(|s.threads|, k requires 0 <= k < |s.threads| => s.threads[k].size)
  }

  /** Main is handing over the context at `i`, and has read these loads so far. */
  ghost predicate HandsOver(s: State, i: nat, loads: seq<nat>) {
    match s.main
    case First(j, _, _, first) => j == i && first <= loads
    case FirstLocked(j, _, _, first) => j == i && first <= loads
    case Second(j, _, first, second) => j == i && first <= loads && second <= loads
    case SecondLocked(j, _, first, second) => j == i && first <= loads && second <= loads
    case Notify(j, h) => j == i && ReadFrom(h, loads, loads)
    case MarkHandled(j, h) => j == i && ReadFrom(h, loads, loads)
    case _ => false
  }

  /** Every state of the run, in which no load ever changes, is in the one call of
      `notify_work` for the context at `i`. */
  ghost predicate DuringHandoff(s: State, actions: seq<Action>, i: nat, loads: seq<nat>)
    decreases |actions|
  {
    && Loads(s) == loads && !s.main.Outside? && !s.main.WantContexts? && !s.main.Visit? && s.main.i == i
    && (actions == [] ||
        (Next(s, actions[0]).Moved? && DuringHandoff(Next(s, actions[0]).state, actions[1..], i, loads)))
  }

  lemma FirstScanReads(s: State, i: nat)
    requires MainOk(s) && HandsOver(s, i, Loads(s)) && (s.main.First? || s.main.FirstLocked?) && FirstScanStep(s).Moved?
    ensures var s' := FirstScanStep(s).state; HandsOver(s', i, Loads(s)) && s'.contexts == s.contexts
  {
    if s.main.FirstLocked? {
      assert s.main.first + [Loads(s)[|s.main.first|]] <= Loads(s);
    }
  }

  lemma SecondScanReads(s: State, i: nat)
    requires MainOk(s) && HandsOver(s, i, Loads(s)) && (s.main.Second? || s.main.SecondLocked?)
    requires SecondScanStep(s).Moved?
    ensures var s' := SecondScanStep(s).state; HandsOver(s', i, Loads(s)) && s'.contexts == s.contexts
  {
    if s.main.SecondLocked? {
      assert s.main.second + [Loads(s)[|s.main.second|]] <= Loads(s);
    }
  }

  lemma StepReads(s: State, a: Action, i: nat)
    requires Inv(s) && HandsOver(s, i, Loads(s)) && Next(s, a).Moved? && !Next(s, a).state.main.Visit?
    ensures var s' := Next(s, a).state; HandsOver(s', i, Loads(s)) && s'.contexts == s.contexts
  {
    if !a.MainStep? {
      OthersDoNotDelay(s, a);
    } else if s.main.First? || s.main.FirstLocked? {
      FirstScanReads(s, i);
    } else if s.main.Second? || s.main.SecondLocked? {
      SecondScanReads(s, i);
    }
  }

  lemma {:induction false} ReadsAlong(s: State, actions: seq<Action>, i: nat, loads: seq<nat>)
    requires Inv(s) && HandsOver(s, i, loads) && DuringHandoff(s, actions, i, loads)
    ensures Run(s, actions).Moved? && Inv(Run(s, actions).state)
    ensures HandsOver(Run(s, actions).state, i, loads) && Loads(Run(s, actions).state) == loads
    ensures Run(s, actions).state.contexts == s.contexts
    decreases |actions|
  {
    if actions != [] {
      StepKeepsInv(s, actions[0]);
      StepReads(s, actions[0], i);
      ReadsAlong(Next(s, actions[0]).state, actions[1..], i, loads);
    }
  }

  /** The context at `i` is owned by an idle thread if there is one, else by one below
      the highest load, or by any if all loads are equal. */
  ghost predicate WellPlaced(s: State, c: Ctx, loads: seq<nat>) {
    exists k | 0 <= k < |loads| ::
      Owns(s, k, c) && (loads[k] == 0 || (Busy(loads) && (loads[k] < MaxOf(loads) || AllEqualTo(loads, loads[0]))))
  }

  lemma StableEnd(s: State, i: nat, loads: seq<nat>)
    requires Inv(s) && Loads(s) == loads != [] && HandsOver(s, i, loads) && s.main.MarkHandled?
    ensures i < |s.contexts| && WellPlaced(s, s.contexts[i], loads)
  {
    forall j | 0 <= j < |loads| ensures loads[j] < SIZE_MAX {
      assert ThreadOk(s, j);
    }
    StableHandoff(|loads|, s.main.handoff, loads);
    assert Owns(s, s.main.handoff.thread, s.contexts[i]);
  }

  /** Whatever the other agents do during a call of `notify_work`: unless it changes
      a load, the call ends with the context well placed. */
  lemma StableCallHandsOver(count: nat, s: State, actions: seq<Action>, i: nat)
    requires Reachable(count, s) && |s.threads| > 0 && s.main == First(i, 0, SIZE_MAX, [])
    requires DuringHandoff(s, actions, i, Loads(s))
    ensures Run(s, actions).Moved? && i < |s.contexts|
    ensures var s' := Run(s, actions).state;
            s'.main.MarkHandled? ==> s'.contexts == s.contexts && WellPlaced(s', s.contexts[i], Loads(s))
  {
    ReachableInv(count, s);
    ReadsAlong(s, actions, i, Loads(s));
    if Run(s, actions).state.main.MarkHandled? {
      StableEnd(Run(s, actions).state, i, Loads(s));
    }
  }

  // ---------------------------------------------------------------- stranding

  /** Live and marked handled, but with no thread. */
  ghost predicate Stranded(s: State, c: Ctx) {
    c in s.heap && s.heap[c].handled && forall k :: !Owns(s, k, c)
  }

  /** Main is about to mark a context that it gave to nobody. */
  ghost predicate AboutToStrand(s: State, c: Ctx) {
    s.main.MarkHandled? && s.main.handoff.Nobody? && s.main.i < |s.contexts| && s.contexts[s.main.i] == c
  }

  /** Who owns what, and what is marked, after a step of a thread: it settles at
      most one context it owned itself. */
  lemma ThreadTouchesItsOwn(s: State, k: nat, done: bool, c: Ctx)
    requires Inv(s) && k < |s.threads| && WorkerStepOf(s, k, done).Moved?
    ensures var s' := WorkerStepOf(s, k, done).state;
            || (Stranded(s', c) <==> Stranded(s, c))
            || (Owns(s, k, c) && !Stranded(s, c) && !Stranded(s', c))
    ensures Stranded(s, c) ==> WorkerStepOf(s, k, done).state.heap[c] == s.heap[c]
  {
    var t, s' := s.threads[k], WorkerStepOf(s, k, done).state;
    assert ThreadOk(s, k);
    if t.pc.Erasing? {
      assert Owns(s, k, t.batch[0]);
      EraseIsExact(s, t.batch[0]);
      ExclusiveAfterFinish(s, s', k);
    } else if t.pc.Returning? {
      assert Owns(s, k, t.batch[0]);
      ExclusiveAfterFinish(s, s', k);
    } else if Resting(t.pc) && t.pc.Taking? {
      OwnedAfterTake(s, s', k);
    } else {
      SameOwners(s, s');
    }
  }

  lemma SameOwners(s: State, s': State)
    requires |s'.threads| == |s.threads|
    requires forall k | 0 <= k < |s.threads| ::
               s'.threads[k].inbox == s.threads[k].inbox && s'.threads[k].batch == s.threads[k].batch
    ensures forall k, c :: Owns(s', k, c) <==> Owns(s, k, c)
  {
  }

  lemma PushStrands(s: State, k: nat, h: Handoff, c: Ctx)
    requires MainOk(s) && (s.main.FirstLocked? || s.main.SecondLocked?) && k < |s.threads|
    ensures Stranded(Push(s, k, h), c) <==> Stranded(s, c)
  {
    PushOwns(s, Push(s, k, h), k);
  }

  lemma ScanStrands(s: State, c: Ctx)
    requires MainOk(s) && MainStepOf(s, false).Moved?
    requires s.main.First? || s.main.FirstLocked? || s.main.Second? || s.main.SecondLocked?
    ensures Stranded(MainStepOf(s, false).state, c) <==> Stranded(s, c)
    ensures MainStepOf(s, false).state.heap == s.heap
  {
    var s' := MainStepOf(s, false).state;
    if s.main.FirstLocked? && s.threads[|s.main.first|].size == 0 {
      PushStrands(s, |s.main.first|, s'.main.handoff, c);
    } else if s.main.SecondLocked? && s.threads[|s.main.second|].size != s.main.max {
      PushStrands(s, |s.main.second|, s'.main.handoff, c);
    } else {
      SameOwners(s, s');
    }
  }

  lemma MarkStrands(s: State, c: Ctx)
    requires MainOk(s) && s.main.MarkHandled?
    ensures Stranded(MainStepOf(s, false).state, c) <==> Stranded(s, c) || AboutToStrand(s, c)
    ensures Stranded(s, c) ==> MainStepOf(s, false).state.heap[c] == s.heap[c]
  {
    SameOwners(s, MainStepOf(s, false).state);
  }

  lemma MainStrands(s: State, need: bool, c: Ctx)
    requires MainOk(s) && MainStepOf(s, need).Moved?
    ensures Stranded(MainStepOf(s, need).state, c) <==> Stranded(s, c) || AboutToStrand(s, c)
    ensures Stranded(s, c) ==> MainStepOf(s, need).state.heap[c] == s.heap[c]
  {
    if s.main.First? || s.main.FirstLocked? || s.main.Second? || s.main.SecondLocked? {
      ScanStrands(s, c);
    } else if s.main.MarkHandled? {
      MarkStrands(s, c);
    } else {
      SameOwners(s, MainStepOf(s, need).state);
    }
  }

  lemma PushOwns(s: State, s': State, k: nat)
    requires k < |s.threads| && (s.main.FirstLocked? || s.main.SecondLocked?) && s.main.i < |s.contexts|
    requires s'.threads == Push(s, k, To(k, [], [])).threads
    ensures forall j, c :: Owns(s', j, c) <==> Owns(s, j, c) || (j == k && c == s.contexts[s.main.i])
  {
    assert s'.threads[k].inbox == s.threads[k].inbox + [s.contexts[s.main.i]];
  }

  /** A step strands a context exactly when it is main marking one that it gave
      to nobody; and no step ever rescues a stranded context. */
  lemma StrandingExactly(s: State, a: Action, c: Ctx)
    requires Inv(s) && Next(s, a).Moved?
    ensures Stranded(Next(s, a).state, c) <==> Stranded(s, c) || (a.MainStep? && AboutToStrand(s, c))
    ensures Stranded(s, c) ==> Next(s, a).state.heap[c] == s.heap[c]
  {
    match a
    case MainStep(need) => MainStrands(s, need, c);
    case WorkerStep(k, done) => ThreadTouchesItsOwn(s, k, done, c);
    case SpuriousWake(k) => SameOwners(s, Wake(s, k));
    case Submit(g, address) => SameOwners(s, Next(s, a).state);
  }

  /** In no state of the run but its last is main about to strand a context. */
  ghost predicate NeverAboutToStrand(s: State, actions: seq<Action>)
    decreases |actions|
  {
    actions == [] ||
    ((forall c :: !AboutToStrand(s, c))
     && (Next(s, actions[0]).Moved? ==> NeverAboutToStrand(Next(s, actions[0]).state, actions[1..])))
  }

  lemma {:induction false} NothingStrandedAlong(s: State, actions: seq<Action>)
    requires Inv(s) && (forall c :: !Stranded(s, c)) && NeverAboutToStrand(s, actions)
    ensures Run(s, actions).Moved? ==> forall c :: !Stranded(Run(s, actions).state, c)
    decreases |actions|
  {
    if actions != [] && Next(s, actions[0]).Moved? {
      StepKeepsInv(s, actions[0]);
      forall c ensures !Stranded(Next(s, actions[0]).state, c) {
        StrandingExactly(s, actions[0], c);
      }
      NothingStrandedAlong(Next(s, actions[0]).state, actions[1..]);
    }
  }

  /** A call of `notify_work` that found no thread read the same loads twice. */
  ghost predicate SameReadings(s: State) {
    s.main.MarkHandled? && s.main.handoff.Nobody? ==> s.main.handoff.first == s.main.handoff.second
  }

  /** No call along the run sees a load change between its two scans. */
  ghost predicate NoChangeSeen(s: State, actions: seq<Action>)
    decreases |actions|
  {
    actions == [] ||
    (SameReadings(s) && (Next(s, actions[0]).Moved? ==> NoChangeSeen(Next(s, actions[0]).state, actions[1..])))
  }

  lemma SameReadingsFindAThread(s: State)
    requires MainOk(s) && s.threads != [] && SameReadings(s)
    ensures forall c :: !AboutToStrand(s, c)
  {
    if s.main.MarkHandled? && s.main.handoff.Nobody? {
      assert Chosen(|s.threads|, s.main.handoff);
      LoadsDiffer(s.main.handoff.first);
    }
  }

  lemma ThreadsStay(s: State, a: Action)
    requires Next(s, a).Moved?
    ensures |Next(s, a).state.threads| == |s.threads|
  {
  }

  lemma {:induction false} NoChangeStrandsNobody(s: State, actions: seq<Action>)
    requires Inv(s) && s.threads != [] && NoChangeSeen(s, actions)
    ensures NeverAboutToStrand(s, actions)
    decreases |actions|
  {
    if actions != [] {
      SameReadingsFindAThread(s);
      if Next(s, actions[0]).Moved? {
        StepKeepsInv(s, actions[0]);
        ThreadsStay(s, actions[0]);
        NoChangeStrandsNobody(Next(s, actions[0]).state, actions[1..]);
      }
    }
  }

  /** With at least one thread, and as long as no call of `notify_work` sees a load
      change between its two scans, every handled context is owned by a thread. */
  lemma EveryHandledContextHasAThread(count: nat, actions: seq<Action>)
    requires count > 0 && Run(Init(count), actions).Moved? && NoChangeSeen(Init(count), actions)
    ensures var s := Run(Init(count), actions).state;
            forall c | c in s.heap && s.heap[c].handled :: exists k :: Owns(s, k, c)
  {
    InitInv(count);
    NoChangeStrandsNobody(Init(count), actions);
    NothingStrandedAlong(Init(count), actions);
    var s := Run(Init(count), actions).state;
    forall c | c in s.heap && s.heap[c].handled ensures exists k :: Owns(s, k, c) {
      assert !Stranded(s, c);
    }
  }

  /** During a second scan the loads are those that the first scan read. */
  ghost predicate LoadsStand(s: State) {
    match s.main
    case Second(_, _, first, _) => Loads(s) == first
    case SecondLocked(_, _, first, _) => Loads(s) == first
    case _ => true
  }

  ghost predicate LoadsStandAlong(s: State, actions: seq<Action>)
    decreases |actions|
  {
    actions == [] ||
    (LoadsStand(s) && (Next(s, actions[0]).Moved? ==> LoadsStandAlong(Next(s, actions[0]).state, actions[1..])))
  }

  /** The second scan reads what the first one read. */
  ghost predicate ReadsAgree(s: State) {
    match s.main
    case Second(_, _, first, second) => second <= first
    case SecondLocked(_, _, first, second) => second <= first
    case _ => SameReadings(s)
  }

  lemma SecondScanAgrees(s: State)
    requires MainOk(s) && (s.main.Second? || s.main.SecondLocked?) && LoadsStand(s) && ReadsAgree(s)
    requires SecondScanStep(s).Moved?
    ensures ReadsAgree(SecondScanStep(s).state)
  {
    if s.main.SecondLocked? {
      assert s.main.second + [Loads(s)[|s.main.second|]] <= s.main.first;
    }
  }

  lemma StepAgrees(s: State, a: Action)
    requires MainOk(s) && LoadsStand(s) && ReadsAgree(s) && Next(s, a).Moved?
    ensures ReadsAgree(Next(s, a).state)
  {
    if a.MainStep? {
      if s.main.Second? || s.main.SecondLocked? {
        SecondScanAgrees(s);
      }
    } else {
      assert Next(s, a).state.main == s.main;
    }
  }

  lemma {:induction false} StandingLoadsShowNoChange(s: State, actions: seq<Action>)
    requires Inv(s) && ReadsAgree(s) && LoadsStandAlong(s, actions)
    ensures NoChangeSeen(s, actions)
    decreases |actions|
  {
    if actions != [] && Next(s, actions[0]).Moved? {
      StepKeepsInv(s, actions[0]);
      StepAgrees(s, actions[0]);
      StandingLoadsShowNoChange(Next(s, actions[0]).state, actions[1..]);
    }
  }

  /** The same, from the loads themselves: if in every state of the run in which a
      second scan is under way the loads are those the first scan read. */
  lemma StandingLoadsStrandNobody(count: nat, actions: seq<Action>)
    requires count > 0 && Run(Init(count), actions).Moved? && LoadsStandAlong(Init(count), actions)
    ensures var s := Run(Init(count), actions).state;
            forall c | c in s.heap && s.heap[c].handled :: exists k :: Owns(s, k, c)
  {
    InitInv(count);
    StandingLoadsShowNoChange(Init(count), actions);
    EveryHandledContextHasAThread(count, actions);
  }

  /** Once stranded, a context is never run, erased or released again, and every
      later submission for its guild is refused without effect. */
  lemma {:induction false} StrandedForever(s: State, actions: seq<Action>, c: Ctx)
    requires Inv(s) && Stranded(s, c) && Run(s, actions).Moved?
    ensures var s' := Run(s, actions).state;
            && Stranded(s', c) && s'.heap[c] == s.heap[c]
            && (forall address | SubmitOf(s', s.heap[c].guild, address).Moved? ::
                  SubmitOf(s', s.heap[c].guild, address).state == s')
    decreases |actions|
  {
    if actions == [] {
      FindIsExact(s, c);
    } else {
      StrandingExactly(s, actions[0], c);
      StepKeepsInv(s, actions[0]);
      StrandedForever(Next(s, actions[0]).state, actions[1..], c);
    }
  }

  // ----------------------------------------------------------------- progress

  /** A thread asleep on work is about to be notified, by a step of main that
      nothing can block. */
  lemma NoLostWakeUp(count: nat, s: State, k: nat)
    requires Reachable(count, s) && k < |s.threads| && s.threads[k].pc.Asleep? && s.threads[k].inbox != []
    ensures NotifyOwed(s, k)
    ensures MainStepOf(s, false).Moved? && MainStepOf(s, false).state.threads[k].pc.Waking?
  {
    ReachableInv(count, s);
    assert ThreadOk(s, k);
  }

  /** Who may be blocked: main, a thread, or a submitter with a fresh context. */
  datatype Party = Member(agent: Agent) | Submitter(guild: Guild, address: Ctx)

  /** The agent can take a step. */
  ghost predicate CanMove(s: State, agent: Agent) {
    match agent
    case Main => MainStepOf(s, false).Moved?
    case Worker(k) => k < |s.threads| && WorkerStepOf(s, k, false).Moved?
  }

  /** The mutex an agent is blocked on, if any. */
  ghost function Awaits(s: State, agent: Agent): Mutex {
    match agent
    case Main =>
      if s.main.WantContexts? then s.lock
      else if s.main.First? && |s.main.first| < |s.threads| then s.threads[|s.main.first|].lock
      else if s.main.Second? && |s.main.second| < |s.threads| then s.threads[|s.main.second|].lock
      else Free
    case Worker(k) =>
      if k >= |s.threads| then Free
      else
        var t := s.threads[k];
        if t.pc.Loop? || t.pc.Waking? then t.lock
        else if t.pc.WantErase? || t.pc.WantReturn? then s.lock
        else Free
  }

  ghost predicate Stuck(s: State, party: Party) {
    match party
    case Member(agent) => !CanMove(s, agent)
    case Submitter(guild, address) => SubmitOf(s, guild, address).Blocked?
  }

  ghost function BlockedOn(s: State, party: Party): Mutex {
    match party
    case Member(agent) => Awaits(s, agent)
    case Submitter(_, _) => s.lock
  }

  /** What a party may be: no thread that sleeps without work owed to it, and a
      submitter that has found memory for its context. */
  ghost predicate Active(s: State, party: Party) {
    match party
    case Member(agent) => agent.Worker? ==> agent.id < |s.threads| && !s.threads[agent.id].pc.Asleep?
    case Submitter(_, address) => address !in s.heap && |s.contexts| < MAX_CONTEXTS
  }

  /** The mutex will be released: its holder can step, or is main waiting for the
      mutex of a thread that can. */
  ghost predicate WillBeReleased(s: State, mutex: Mutex) {
    && mutex.HeldBy?
    && (CanMove(s, mutex.agent) ||
        (mutex.agent.Main? && Awaits(s, Main).HeldBy? && Awaits(s, Main).agent.Worker?
         && CanMove(s, Awaits(s, Main).agent)))
  }

  /** A party that can take no step waits for a mutex that will be released.  So the
      locks never deadlock. */
  lemma NoDeadlock(count: nat, s: State, party: Party)
    requires Reachable(count, s) && Active(s, party) && Stuck(s, party)
    ensures WillBeReleased(s, BlockedOn(s, party))
  {
    ReachableInv(count, s);
    if party.Member? {
      HolderCanMove(s, party.agent);
    } else {
      ContextsAreReleased(s);
    }
  }

  /** A thread inside one of its critical sections can finish it. */
  lemma ThreadInSectionMoves(s: State, k: nat)
    requires Inv(s) && k < |s.threads|
    requires var pc := s.threads[k].pc; pc.Taking? || pc.Woken? || pc.Erasing? || pc.Returning?
    ensures CanMove(s, Worker(k))
  {
    if s.threads[k].pc.Erasing? || s.threads[k].pc.Returning? { LeaveKeepsInv(s, k); }
  }

  lemma MainBlockedOn(s: State)
    requires Inv(s) && !CanMove(s, Main)
    ensures Awaits(s, Main).HeldBy? && Awaits(s, Main).agent.Worker? && CanMove(s, Awaits(s, Main).agent)
  {
    MainKeepsInv(s, false);
    if s.main.WantContexts? {
      ThreadInSectionMoves(s, s.lock.agent.id);
    } else if s.main.First? {
      ThreadInSectionMoves(s, |s.main.first|);
    } else {
      ThreadInSectionMoves(s, |s.main.second|);
    }
  }

  lemma HolderCanMove(s: State, agent: Agent)
    requires Inv(s)
    requires agent.Worker? ==> agent.id < |s.threads| && !s.threads[agent.id].pc.Asleep?
    requires !CanMove(s, agent)
    ensures WillBeReleased(s, Awaits(s, agent))
  {
    if agent.Main? {
      MainBlockedOn(s);
    } else {
      ThreadKeepsInv(s, agent.id, false);
      var holder := Awaits(s, agent).agent;
      if holder.Worker? {
        ThreadInSectionMoves(s, holder.id);
      } else if !CanMove(s, Main) {
        MainBlockedOn(s);
      }
    }
  }

  lemma ContextsAreReleased(s: State)
    requires Inv(s) && s.lock.HeldBy?
    ensures WillBeReleased(s, s.lock)
  {
    if s.lock.agent.Worker? {
      ThreadInSectionMoves(s, s.lock.agent.id);
    } else if !CanMove(s, Main) {
      MainBlockedOn(s);
    }
  }

  /** How far main is from releasing the lock on the contexts: contexts left,
      then phase of the hand-off, then threads left to scan. */
  ghost function Distance(s: State): (nat, nat, nat)
    requires MainOk(s)
  {
    var n, c := |s.threads|, |s.contexts|;
    match s.main
    case Outside => (0, 0, 0)
    case WantContexts => (0, 0, 0)
    case Visit(i) => (c - i, 5, 0)
    case First(i, _, _, first) => (c - i, 4, 2 * (n - |first|) + 1)
    case FirstLocked(i, _, _, first) => (c - i, 4, 2 * (n - |first|))
    case Second(i, _, _, second) => (c - i, 3, 2 * (n - |second|) + 1)
    case SecondLocked(i, _, _, second) => (c - i, 3, 2 * (n - |second|))
    case Notify(i, _) => (c - i, 2, 0)
    case MarkHandled(i, _) => (c - i, 1, 0)
  }

  ghost predicate Closer(a: (nat, nat, nat), b: (nat, nat, nat)) {
    a.0 < b.0 || (a.0 == b.0 && (a.1 < b.1 || (a.1 == b.1 && a.2 < b.2)))
  }

  lemma ScanComesCloser(s: State)
    requires MainOk(s) && MainStepOf(s, false).Moved? && MainOk(MainStepOf(s, false).state)
    requires s.main.First? || s.main.FirstLocked? || s.main.Second? || s.main.SecondLocked?
    ensures var s' := MainStepOf(s, false).state; s'.lock == s.lock && Closer(Distance(s'), Distance(s))
  {
    if s.main.First? || s.main.FirstLocked? {
      assert MainStepOf(s, false) == FirstScanStep(s);
    } else {
      assert MainStepOf(s, false) == SecondScanStep(s);
    }
  }

  lemma MainComesCloser(s: State, need: bool)
    requires MainOk(s) && s.lock == HeldBy(Main) && !s.main.Outside? && !s.main.WantContexts?
    requires MainStepOf(s, need).Moved? && MainOk(MainStepOf(s, need).state)
    ensures var s' := MainStepOf(s, need).state;
            s'.lock.Free? || (s'.lock == HeldBy(Main) && Closer(Distance(s'), Distance(s)))
  {
    if s.main.First? || s.main.FirstLocked? || s.main.Second? || s.main.SecondLocked? {
      ScanComesCloser(s);
    }
  }

  lemma OthersDoNotDelay(s: State, a: Action)
    requires MainOk(s) && LocksOk(s) && s.lock == HeldBy(Main) && !a.MainStep? && Next(s, a).Moved?
    ensures var s' := Next(s, a).state;
            && s'.lock == HeldBy(Main) && s'.main == s.main && s'.contexts == s.contexts
            && |s'.threads| == |s.threads|
  {
  }

  /** Main's check ends: each of its own steps brings the release of the lock
      closer, in a well-founded order, whatever `need_handler` answers, and no
      other agent's step sets it back. */
  lemma CheckTerminates(s: State, a: Action)
    requires Inv(s) && s.lock == HeldBy(Main) && Next(s, a).Moved?
    ensures Inv(Next(s, a).state)
    ensures var s' := Next(s, a).state;
            if a.MainStep? then s'.lock.Free? || (s'.lock == HeldBy(Main) && Closer(Distance(s'), Distance(s)))
            else s'.lock == HeldBy(Main) && Distance(s') == Distance(s)
  {
    StepKeepsInv(s, a);
    if a.MainStep? {
      MainComesCloser(s, a.need);
    } else {
      OthersDoNotDelay(s, a);
      SameDistance(s, Next(s, a).state);
    }
  }

  lemma SameDistance(s: State, s': State)
    requires MainOk(s) && MainOk(s') && s'.main == s.main
    requires |s'.contexts| == |s.contexts| && |s'.threads| == |s.threads|
    ensures Distance(s') == Distance(s)
  {
  }
}
