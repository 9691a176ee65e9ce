/** What main and the stream threads get done when nothing holds them up: whole
    batches, whole checks, and submissions. */
module StreamProgress {
  import opened MachineWords
  import opened Sequences
  import opened StreamScheduler
  import opened StreamSchedulerSafety
  import opened StreamSchedulerTheorems

  lemma {:induction false} RunAppend(s: State, a: seq<Action>, b: seq<Action>)
    requires Run(s, a).Moved?
    ensures Run(s, a + b) == Run(Run(s, a).state, b)
    decreases |a|
  {
    if a == [] {
      assert a + b == b;
    } else {
      assert (a + b)[1..] == a[1..] + b;
      RunAppend(Next(s, a[0]).state, a[1..], b);
    }
  }

  lemma RunThen(s: State, a: Action, rest: seq<Action>)
    requires Next(s, a).Moved?
    ensures Run(s, [a] + rest) == Run(Next(s, a).state, rest)
  {
    assert ([a] + rest)[1..] == rest;
  }

  // ------------------------------------------------------------ a whole batch

  /** How a thread's work on a context goes: the rounds in which the stream runs on and
      still needs a handler, and whether it then ends or no longer needs one. */
  datatype Turn = Turn(rounds: nat, ends: bool)

  function Steps(k: nat, results: seq<bool>): seq<Action> {
    seq(|results|, i requires 0 <= i < |results| => WorkerStep(k, results[i]))
  }

  /** What `run` and `need_handler` answer in the last round, before the thread's two
      steps on the list of contexts. */
  function LastAnswers(ends: bool): seq<bool> {
    if ends then [true, true, true] else [false, true, true, true]
  }

  function TurnActions(k: nat, turn: Turn): seq<Action>
    decreases turn.rounds
  {
    if turn.rounds == 0 then Steps(k, LastAnswers(turn.ends))
    else Steps(k, [false, false]) + TurnActions(k, Turn(turn.rounds - 1, turn.ends))
  }

  /** Thread `k` works on a batch, and nobody holds the list of contexts. */
  ghost predicate AtWork(s: State, k: nat) {
    Inv(s) && k < |s.threads| && s.threads[k].pc.Serving? && s.lock.Free?
  }

  /** State `e` is `s` after thread `k` has finished the first context of its batch:
      it is gone if its stream ended, else main may hand it over again. */
  ghost predicate Finished(s: State, e: State, k: nat, ends: bool)
    requires k < |s.threads| && s.threads[k].batch != []
  {
    var t, c := s.threads[k], s.threads[k].batch[0];
    && AtWork(e, k) && e.main == s.main
    && e.threads == s.threads[k := t.(batch := t.batch[1..])]
    && c in s.heap
    && e.heap == (if ends then s.heap - {c} else s.heap[c := Record(s.heap[c].guild, false)])
    && (forall d :: d in e.contexts <==> d in s.contexts && !(ends && d == c))
  }

  lemma Run1(s: State, a: Action)
    requires Next(s, a).Moved?
    ensures Run(s, [a]) == Next(s, a)
  {
    RunThen(s, a, []);
    assert [a] + [] == [a];
  }

  lemma StepsThen(k: nat, first: bool, rest: seq<bool>)
    ensures Steps(k, [first] + rest) == [WorkerStep(k, first)] + Steps(k, rest)
  {
  }

  /** The context is still wanted: the thread runs it, asks, and runs it again. */
  lemma RoundGoesOn(s: State, k: nat)
    requires AtWork(s, k) && s.threads[k].batch != []
    ensures Run(s, Steps(k, [false, false])) == Moved(s)
  {
    var t := s.threads[k];
    assert Owns(s, k, t.batch[0]);
    var s1 := SetThread(s, k, t.(pc := Polling));
    assert Next(s, WorkerStep(k, false)) == Moved(s1);
    assert s1.threads[k := t] == s.threads;
    assert Next(s1, WorkerStep(k, false)) == Moved(s);
    StepsThen(k, false, [false]);
    StepsThen(k, false, []);
    assert [false] + [false] == [false, false] && [false] + [] == [false] && Steps(k, []) == [];
    RunThen(s, WorkerStep(k, false), Steps(k, [false]));
    RunThen(s1, WorkerStep(k, false), []);
  }

  /** The critical section in which a thread erases the context it is at. */
  lemma EraseStep(s: State, k: nat)
    requires Inv(s) && k < |s.threads| && s.threads[k].pc.Erasing?
    ensures s.threads[k].batch != [] && s.threads[k].batch[0] in s.heap && Next(s, WorkerStep(k, true)).Moved?
    ensures var t, e := s.threads[k], Next(s, WorkerStep(k, true)).state;
            && AtWork(e, k) && e.main == s.main
            && e.threads == s.threads[k := t.(batch := t.batch[1..], pc := Serving)]
            && e.heap == s.heap - {t.batch[0]}
            && (forall d :: d in e.contexts <==> d in s.contexts && d != t.batch[0])
  {
    assert ThreadOk(s, k);
    assert Owns(s, k, s.threads[k].batch[0]);
    EraseKeepsInv(s, k);
    EraseIsExact(s, s.threads[k].batch[0]);
  }

  /** The section in which a thread gives back the context it is at. */
  lemma ReturnStep(s: State, k: nat)
    requires Inv(s) && k < |s.threads| && s.threads[k].pc.Returning?
    ensures s.threads[k].batch != [] && s.threads[k].batch[0] in s.heap && Next(s, WorkerStep(k, true)).Moved?
    ensures var t, e, c := s.threads[k], Next(s, WorkerStep(k, true)).state, s.threads[k].batch[0];
            && AtWork(e, k) && e.main == s.main
            && e.threads == s.threads[k := t.(batch := t.batch[1..], pc := Serving)]
            && e.heap == s.heap[c := Record(s.heap[c].guild, false)] && e.contexts == s.contexts
  {
    assert ThreadOk(s, k);
    assert Owns(s, k, s.threads[k].batch[0]);
    LeaveKeepsInv(s, k);
  }

  /** Thread `k` once it has entered its section on the list of contexts. */
  function Entered(s: State, k: nat, pc: WorkerPc): State
    requires k < |s.threads|
  {
    SetThread(s, k, s.threads[k].(pc := pc)).(lock := HeldBy(Worker(k)))
  }

  lemma GoesToErase(s: State, k: nat)
    requires AtWork(s, k) && s.threads[k].batch != []
    ensures var s1, w := SetThread(s, k, s.threads[k].(pc := WantErase)), WorkerStep(k, true);
            Next(s, w) == Moved(s1) && Next(s1, w) == Moved(Entered(s, k, Erasing))
    ensures Inv(Entered(s, k, Erasing))
  {
    var t, w := s.threads[k], WorkerStep(k, true);
    assert Owns(s, k, t.batch[0]);
    var s1 := SetThread(s, k, t.(pc := WantErase));
    assert Next(s, w) == Moved(s1);
    assert s1.threads[k := t.(pc := Erasing)] == Entered(s, k, Erasing).threads;
    StepKeepsInv(s, w);
    StepKeepsInv(s1, w);
  }

  lemma GoesToReturn(s: State, k: nat)
    requires AtWork(s, k) && s.threads[k].batch != []
    ensures var s1 := SetThread(s, k, s.threads[k].(pc := Polling));
            var s2 := SetThread(s, k, s.threads[k].(pc := WantReturn));
            && Next(s, WorkerStep(k, false)) == Moved(s1) && Next(s1, WorkerStep(k, true)) == Moved(s2)
            && Inv(s2) && Next(s2, WorkerStep(k, true)) == Moved(Entered(s, k, Returning))
  {
    var t, w := s.threads[k], WorkerStep(k, true);
    assert Owns(s, k, t.batch[0]);
    var s1 := SetThread(s, k, t.(pc := Polling));
    var s2 := SetThread(s, k, t.(pc := WantReturn));
    assert Next(s, WorkerStep(k, false)) == Moved(s1);
    assert s1.threads[k := t.(pc := WantReturn)] == s2.threads;
    assert s2.threads[k := t.(pc := Returning)] == Entered(s, k, Returning).threads;
    StepKeepsInv(s, WorkerStep(k, false));
    StepKeepsInv(s1, w);
  }

  lemma EndedIsErased(s: State, k: nat)
    requires AtWork(s, k) && s.threads[k].batch != []
    ensures Run(s, Steps(k, [true, true, true])).Moved?
    ensures Finished(s, Run(s, Steps(k, [true, true, true])).state, k, true)
  {
    var t, w, s2 := s.threads[k], WorkerStep(k, true), Entered(s, k, Erasing);
    GoesToErase(s, k);
    EraseStep(s2, k);
    assert Next(s2, w).state.threads == s.threads[k := t.(batch := t.batch[1..])];
    ThreeSteps(s, SetThread(s, k, t.(pc := WantErase)), s2, w);
    assert Steps(k, [true, true, true]) == [w, w, w];
  }

  lemma ThreeSteps(s: State, s1: State, s2: State, w: Action)
    requires Next(s, w) == Moved(s1) && Next(s1, w) == Moved(s2) && Next(s2, w).Moved?
    ensures Run(s, [w, w, w]) == Next(s2, w)
  {
    RunThen(s, w, [w, w]);
    RunThen(s1, w, [w]);
    Run1(s2, w);
    assert [w] + [w, w] == [w, w, w] && [w] + [w] == [w, w];
  }

  lemma UnwantedIsReturned(s: State, k: nat)
    requires AtWork(s, k) && s.threads[k].batch != []
    ensures Run(s, Steps(k, [false, true, true, true])).Moved?
    ensures Finished(s, Run(s, Steps(k, [false, true, true, true])).state, k, false)
  {
    var t, w, s3 := s.threads[k], WorkerStep(k, true), Entered(s, k, Returning);
    var s1, s2 := SetThread(s, k, t.(pc := Polling)), SetThread(s, k, t.(pc := WantReturn));
    GoesToReturn(s, k);
    StepKeepsInv(s2, w);
    ReturnStep(s3, k);
    assert Next(s3, w).state.threads == s.threads[k := t.(batch := t.batch[1..])];
    ThreeSteps(s1, s2, s3, w);
    RunThen(s, WorkerStep(k, false), [w, w, w]);
    assert Steps(k, [false, true, true, true]) == [WorkerStep(k, false)] + [w, w, w];
  }

  /** A thread serves a context as long as it is wanted, and then erases it exactly
      when its stream has ended, else gives it back. */
  lemma {:induction false} TurnIsServed(s: State, k: nat, turn: Turn)
    requires AtWork(s, k) && s.threads[k].batch != []
    ensures Run(s, TurnActions(k, turn)).Moved?
    ensures Finished(s, Run(s, TurnActions(k, turn)).state, k, turn.ends)
    decreases turn.rounds
  {
    if turn.rounds == 0 {
      if turn.ends {
        EndedIsErased(s, k);
      } else {
        UnwantedIsReturned(s, k);
      }
    } else {
      RoundGoesOn(s, k);
      TurnIsServed(s, k, Turn(turn.rounds - 1, turn.ends));
      RunAppend(s, Steps(k, [false, false]), TurnActions(k, Turn(turn.rounds - 1, turn.ends)));
    }
  }

  function BatchActions(k: nat, turns: seq<Turn>): seq<Action> {
    if turns == [] then [WorkerStep(k, false)] else TurnActions(k, turns[0]) + BatchActions(k, turns[1..])
  }

  /** What serving a batch leaves of the contexts: those whose stream ended are gone,
      the others of the batch are not handled, the rest is as before. */
  ghost predicate Served(s: State, e: State, batch: seq<Ctx>, turns: seq<Turn>)
    requires |turns| == |batch|
  {
    && (forall j | 0 <= j < |batch| ::
          if turns[j].ends then batch[j] !in e.heap
          else batch[j] in e.heap && batch[j] in s.heap && e.heap[batch[j]] == Record(s.heap[batch[j]].guild, false))
    && (forall c | c !in batch :: (c in e.heap <==> c in s.heap) && (c in s.heap ==> e.heap[c] == s.heap[c]))
  }

  lemma ServedFirst(s: State, s1: State, e: State, batch: seq<Ctx>, turns: seq<Turn>)
    requires |turns| == |batch| > 0 && NoDuplicates(batch) && batch[0] in s.heap
    requires s1.heap == if turns[0].ends then s.heap - {batch[0]}
                        else s.heap[batch[0] := Record(s.heap[batch[0]].guild, false)]
    requires Served(s1, e, batch[1..], turns[1..])
    ensures Served(s, e, batch, turns)
  {
    assert batch[0] !in batch[1..];
    forall j | 0 <= j < |batch|
      ensures if turns[j].ends then batch[j] !in e.heap
              else batch[j] in e.heap && batch[j] in s.heap && e.heap[batch[j]] == Record(s.heap[batch[j]].guild, false)
    {
      if j > 0 {
        assert batch[1..][j - 1] == batch[j] && turns[1..][j - 1] == turns[j];
      }
    }
    forall c | c !in batch ensures (c in e.heap <==> c in s.heap) && (c in s.heap ==> e.heap[c] == s.heap[c]) {
      assert c !in batch[1..] && c != batch[0];
    }
  }

  /** However the turns go, a thread serves its whole batch in order and goes to fetch
      the next one. */
  lemma {:induction false} BatchIsServed(s: State, k: nat, turns: seq<Turn>)
    requires AtWork(s, k) && |turns| == |s.threads[k].batch|
    ensures Run(s, BatchActions(k, turns)).Moved?
    ensures var e := Run(s, BatchActions(k, turns)).state;
            && Served(s, e, s.threads[k].batch, turns)
            && e.threads == s.threads[k := s.threads[k].(batch := [], pc := Loop)] && e.lock.Free? && e.main == s.main
    decreases |turns|
  {
    var t := s.threads[k];
    if turns == [] {
      Run1(s, WorkerStep(k, false));
    } else {
      TurnIsServed(s, k, turns[0]);
      var s1 := Run(s, TurnActions(k, turns[0])).state;
      RunAppend(s, TurnActions(k, turns[0]), BatchActions(k, turns[1..]));
      BatchIsServed(s1, k, turns[1..]);
      var e := Run(s1, BatchActions(k, turns[1..])).state;
      ServedFirst(s, s1, e, t.batch, turns);
    }
  }

  /** A thread that looks for work takes its whole inbox, or goes to sleep. */
  lemma InboxIsTaken(s: State, k: nat)
    requires k < |s.threads| && s.threads[k].pc.Loop? && s.threads[k].lock.Free?
    ensures var t := s.threads[k];
            Run(s, Steps(k, [false, false]))
            == Moved(SetThread(s, k, if t.inbox == [] then Thread(Free, [], 0, [], Asleep)
                                     else Thread(Free, [], |t.inbox|, t.inbox, Serving)))
  {
    var t, w := s.threads[k], WorkerStep(k, false);
    var s1 := SetThread(s, k, t.(lock := HeldBy(Worker(k)), pc := Taking));
    assert Next(s, w) == Moved(s1);
    RunThen(s, w, [w]);
    Run1(s1, w);
    assert Steps(k, [false, false]) == [w] + [w];
    var e := Next(s1, w).state;
    assert e.threads == s.threads[k := e.threads[k]];
  }

  /** An idle thread stays asleep by itself; it may also be woken with no notification. */
  lemma SleepsUntilWoken(s: State, k: nat)
    requires k < |s.threads| && s.threads[k].pc.Asleep?
    ensures Next(s, WorkerStep(k, false)).Blocked?
    ensures Next(s, SpuriousWake(k)) == Moved(SetThread(s, k, s.threads[k].(pc := Waking)))
  {
  }

  /** A thread that was notified looks for work again. */
  lemma NotifiedLooksAgain(s: State, k: nat)
    requires k < |s.threads| && s.threads[k].pc.Waking? && s.threads[k].lock.Free?
    ensures Run(s, Steps(k, [false, false])) == Moved(SetThread(s, k, s.threads[k].(pc := Loop)))
  {
    var t, w := s.threads[k], WorkerStep(k, false);
    var s1 := SetThread(s, k, t.(lock := HeldBy(Worker(k)), pc := Woken));
    assert Next(s, w) == Moved(s1);
    RunThen(s, w, [w]);
    Run1(s1, w);
    assert Steps(k, [false, false]) == [w] + [w];
  }

  // ------------------------------------------------------------- a whole check

  /** Main goes through the contexts, nobody else holds a mutex of a thread, and what
      it has read of the loads in its present call is what they are. */
  ghost predicate Checking(s: State) {
    && Inv(s) && s.lock == HeldBy(Main)
    && (forall k | 0 <= k < |s.threads| :: s.threads[k].lock == HeldBy(Main) || s.threads[k].lock.Free?)
    && (s.main.Visit? || HandsOver(s, s.main.i, Loads(s)))
  }

  /** Main will mark the context at `j` before it releases the lock: the one it is
      handing over, and those further on that need a handler. */
  ghost predicate WillMark(s: State, j: nat, needy: set<Ctx>)
    requires !s.main.Outside? && !s.main.WantContexts? && j < |s.contexts|
  {
    || (!s.main.Visit? && j == s.main.i)
    || ((if s.main.Visit? then j >= s.main.i else j > s.main.i) && s.contexts[j] in needy)
  }

  /** Main has released the lock, has marked what it was to mark and stranded nobody. */
  ghost predicate Checked(s: State, e: State, needy: set<Ctx>)
    requires !s.main.Outside? && !s.main.WantContexts?
  {
    && Inv(e) && e.main.Outside? && e.lock.Free? && e.contexts == s.contexts && |e.threads| == |s.threads|
    && (forall j | 0 <= j < |s.contexts| :: s.contexts[j] in s.heap && s.contexts[j] in e.heap
          && e.heap[s.contexts[j]].guild == s.heap[s.contexts[j]].guild
          && (e.heap[s.contexts[j]].handled <==> s.heap[s.contexts[j]].handled || WillMark(s, j, needy)))
    && (s.threads != [] ==> forall c | Stranded(e, c) :: Stranded(s, c))
  }

  /** What `need_handler` answers for the context that main is at. */
  ghost function Answer(s: State, needy: set<Ctx>): bool {
    s.main.Visit? && s.main.i < |s.contexts| && s.contexts[s.main.i] in needy
  }

  lemma CheckingMoves(s: State, needy: set<Ctx>)
    requires Checking(s) && !s.main.Outside? && !s.main.WantContexts?
    ensures Next(s, MainStep(Answer(s, needy))).Moved?
  {
    MainKeepsInv(s, Answer(s, needy));
  }

  /** One step of main leaves it checking, with the same contexts to be marked in the
      end, and strands nobody. */
  ghost predicate Onwards(s: State, e: State, needy: set<Ctx>)
    requires !s.main.Outside? && !s.main.WantContexts?
  {
    && Checking(e) && !e.main.Outside? && !e.main.WantContexts?
    && e.contexts == s.contexts && |e.threads| == |s.threads|
    && (forall j | 0 <= j < |s.contexts| ::
          && s.contexts[j] in s.heap && s.contexts[j] in e.heap
          && e.heap[s.contexts[j]].guild == s.heap[s.contexts[j]].guild
          && (e.heap[s.contexts[j]].handled || WillMark(e, j, needy)
              <==> s.heap[s.contexts[j]].handled || WillMark(s, j, needy)))
    && (s.threads != [] ==> forall c | Stranded(e, c) :: Stranded(s, c))
  }

  lemma VisitStep(s: State, needy: set<Ctx>)
    requires Checking(s) && s.main.Visit? && s.main.i < |s.contexts|
    ensures Onwards(s, Next(s, MainStep(Answer(s, needy))).state, needy)
  {
    MainKeepsInv(s, Answer(s, needy));
    var e := Next(s, MainStep(Answer(s, needy))).state;
    assert e == s.(main := e.main);
    SameOwners(s, e);
  }

  /** Within a call of `notify_work` main only moves contexts into an inbox. */
  ghost predicate InCall(s: State, e: State) {
    && e.heap == s.heap && e.contexts == s.contexts && e.lock == s.lock && |e.threads| == |s.threads|
    && !s.main.Outside? && !s.main.WantContexts? && !s.main.Visit?
    && !e.main.Outside? && !e.main.WantContexts? && !e.main.Visit? && e.main.i == s.main.i
    && (forall k | 0 <= k < |s.threads| ::
          && e.threads[k].size == s.threads[k].size
          && (e.threads[k].lock == s.threads[k].lock || e.threads[k].lock == HeldBy(Main) || e.threads[k].lock.Free?))
  }

  lemma FirstScanInCall(s: State)
    requires MainOk(s) && (s.main.First? || s.main.FirstLocked?) && FirstScanStep(s).Moved?
    ensures InCall(s, FirstScanStep(s).state)
  {
  }

  lemma SecondScanInCall(s: State)
    requires MainOk(s) && (s.main.Second? || s.main.SecondLocked?) && SecondScanStep(s).Moved?
    ensures InCall(s, SecondScanStep(s).state)
  {
  }

  lemma MainInCall(s: State, need: bool)
    requires MainOk(s) && MainStepOf(s, need).Moved?
    requires !s.main.Outside? && !s.main.WantContexts? && !s.main.Visit? && !s.main.MarkHandled?
    ensures InCall(s, MainStepOf(s, need).state)
  {
    if s.main.First? || s.main.FirstLocked? {
      FirstScanInCall(s);
    } else if s.main.Second? || s.main.SecondLocked? {
      SecondScanInCall(s);
    }
  }

  lemma SameLoads(s: State, e: State)
    requires InCall(s, e)
    ensures Loads(e) == Loads(s)
  {
  }

  lemma InCallIsOnwards(s: State, e: State, needy: set<Ctx>)
    requires Checking(s) && InCall(s, e) && Inv(e) && HandsOver(e, s.main.i, Loads(s))
    requires forall c | Stranded(e, c) :: Stranded(s, c)
    ensures Onwards(s, e, needy)
  {
    SameLoads(s, e);
    forall j | 0 <= j < |s.contexts| ensures WillMark(e, j, needy) <==> WillMark(s, j, needy) {
    }
  }

  lemma CallStep(s: State, needy: set<Ctx>)
    requires Checking(s) && !s.main.Outside? && !s.main.WantContexts? && !s.main.Visit? && !s.main.MarkHandled?
    ensures Next(s, MainStep(Answer(s, needy))).Moved?
    ensures Onwards(s, Next(s, MainStep(Answer(s, needy))).state, needy)
  {
    var a := MainStep(Answer(s, needy));
    CheckingMoves(s, needy);
    MainKeepsInv(s, a.need);
    MainInCall(s, a.need);
    StepReads(s, a, s.main.i);
    forall c | Stranded(Next(s, a).state, c) ensures Stranded(s, c) {
      StrandingExactly(s, a, c);
    }
    InCallIsOnwards(s, Next(s, a).state, needy);
  }

  lemma MarkStep(s: State, needy: set<Ctx>)
    requires Checking(s) && s.main.MarkHandled?
    ensures Next(s, MainStep(Answer(s, needy))).Moved?
    ensures Onwards(s, Next(s, MainStep(Answer(s, needy))).state, needy)
  {
    var a := MainStep(Answer(s, needy));
    MainKeepsInv(s, a.need);
    var e := Next(s, a).state;
    if s.threads != [] {
      ReadTheSame(s);
      SameReadingsFindAThread(s);
      forall c | Stranded(e, c) ensures Stranded(s, c) {
        StrandingExactly(s, a, c);
      }
    }
  }

  lemma ReadTheSame(s: State)
    requires Checking(s) && s.main.MarkHandled?
    ensures SameReadings(s)
  {
    var h := s.main.handoff;
    if h.Nobody? {
      assert h.first == Loads(s) && h.second == Loads(s);
    }
  }

  lemma CheckedFrom(s: State, s1: State, e: State, needy: set<Ctx>)
    requires !s.main.Outside? && !s.main.WantContexts? && Onwards(s, s1, needy) && Checked(s1, e, needy)
    ensures Checked(s, e, needy)
  {
  }

  /** Main alone goes on to the end of its check, whatever contexts need a handler. */
  lemma {:induction false} CheckGoesOn(s: State, needy: set<Ctx>) returns (actions: seq<Action>)
    requires Checking(s) && !s.main.Outside? && !s.main.WantContexts?
    ensures Run(s, actions).Moved? && Checked(s, Run(s, actions).state, needy)
    decreases Distance(s).0, Distance(s).1, Distance(s).2
  {
    var a := MainStep(Answer(s, needy));
    CheckingMoves(s, needy);
    var s1 := Next(s, a).state;
    CheckTerminates(s, a);
    if s.main.Visit? && s.main.i >= |s.contexts| {
      actions := [a];
      Run1(s, a);
      SameOwners(s, s1);
    } else {
      if s.main.Visit? {
        VisitStep(s, needy);
      } else if s.main.MarkHandled? {
        MarkStep(s, needy);
      } else {
        CallStep(s, needy);
      }
      var rest := CheckGoesOn(s1, needy);
      actions := [a] + rest;
      RunThen(s, a, rest);
      CheckedFrom(s, s1, Run(s1, rest).state, needy);
    }
  }

  /** A check that nobody interferes with hands over exactly the contexts that are not
      handled and need a handler; with at least one thread, each of them to a thread. */
  lemma CheckHandsOver(s: State, needy: set<Ctx>) returns (actions: seq<Action>)
    requires Inv(s) && s.main.Outside? && s.lock.Free?
    requires forall k | 0 <= k < |s.threads| :: s.threads[k].lock.Free?
    ensures Run(s, actions).Moved?
    ensures var e := Run(s, actions).state;
            && e.main.Outside? && e.lock.Free? && e.contexts == s.contexts
            && (forall c :: c in e.heap <==> c in s.heap)
            && (forall c | c in s.heap ::
                  && e.heap[c].guild == s.heap[c].guild
                  && (e.heap[c].handled <==> s.heap[c].handled || c in needy)
                  && (s.threads != [] && c in needy && !s.heap[c].handled ==> exists k :: Owns(e, k, c)))
  {
    var w := MainStep(false);
    var s1 := s.(main := WantContexts);
    var s2 := s.(lock := HeldBy(Main), main := Visit(0));
    assert Next(s, w) == Moved(s1) && Next(s1, w) == Moved(s2);
    StepKeepsInv(s, w);
    StepKeepsInv(s1, w);
    var rest := CheckGoesOn(s2, needy);
    actions := [w] + ([w] + rest);
    RunThen(s, w, [w] + rest);
    RunThen(s1, w, rest);
    var e := Run(s2, rest).state;
    SameOwners(s, s2);
    forall c | c in s.heap
      ensures c in e.heap && e.heap[c].guild == s.heap[c].guild
      ensures e.heap[c].handled <==> s.heap[c].handled || c in needy
      ensures s.threads != [] && c in needy && !s.heap[c].handled ==> exists k :: Owns(e, k, c)
    {
      var j :| 0 <= j < |s.contexts| && s.contexts[j] == c;
      assert WillMark(s2, j, needy) <==> c in needy;
      if s.threads != [] && c in needy && !s.heap[c].handled {
        assert !Stranded(s2, c);
        assert !Stranded(e, c);
      }
    }
  }

  // ------------------------------------------------------------- submissions

  /** A submission with memory for a context is accepted exactly when the guild has
      none yet; then it is listed last, to be handed over. */
  lemma SubmitExactly(s: State, g: Guild, address: Ctx)
    requires Inv(s) && s.lock.Free? && address !in s.heap && |s.contexts| < MAX_CONTEXTS
    ensures SubmitOf(s, g, address)
         == Moved(if exists c :: c in s.heap && s.heap[c].guild == g then s
                  else s.(heap := s.heap[address := Record(g, false)], contexts := s.contexts + [address]))
  {
    if c :| c in s.heap && s.heap[c].guild == g {
      FindIsExact(s, c);
    }
  }
}
