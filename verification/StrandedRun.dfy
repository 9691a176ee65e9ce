/** A run with one stream thread in which a context is stranded: the thread takes
    a bigger batch between the two scans of `notify_work`, so that its new load
    is the one the second scan avoids. */
module StrandedRun {
  import opened MachineWords
  import opened Sequences
  import opened StreamScheduler
  import opened StreamSchedulerSafety
  import opened StreamSchedulerTheorems

  lemma {:induction false} RunExtends(s: State, actions: seq<Action>, a: Action)
    requires Run(s, actions).Moved?
    ensures Run(s, actions + [a]) == Next(Run(s, actions).state, a)
    decreases |actions|
  {
    if actions == [] {
      assert [a][1..] == [];
    } else {
      assert (actions + [a])[1..] == actions[1..] + [a];
      RunExtends(Next(s, actions[0]).state, actions[1..], a);
    }
  }

  lemma Steps(s: State, a: Action, t: State)
    requires Reachable(1, s) && Next(s, a) == Moved(t)
    ensures Reachable(1, t)
  {
    var actions :| Run(Init(1), actions) == Moved(s);
    RunExtends(Init(1), actions, a);
  }

  /** A state with one thread. */
  ghost function At(heap: map<Ctx, Record>, contexts: seq<Ctx>, lock: Mutex, main: MainPc, t: Thread): State {
    State(heap, contexts, lock, main, [t])
  }

  /** The state in which main, holding the lock, is at `main` and the thread is `t`. */
  ghost function Held(s: State, main: MainPc, t: Thread): State {
    At(s.heap, s.contexts, HeldBy(Main), main, t)
  }

  /** Main locks the contexts and walks to the first unhandled one. */
  lemma MainStarts(s: State)
    requires Reachable(1, s) && s.main.Outside? && s.lock.Free?
    ensures Reachable(1, s.(lock := HeldBy(Main), main := Visit(0)))
  {
    Steps(s, MainStep(true), s.(main := WantContexts));
    Steps(s.(main := WantContexts), MainStep(true), s.(lock := HeldBy(Main), main := Visit(0)));
  }

  lemma MainSkips(s: State)
    requires Reachable(1, s) && s.main.Visit? && s.main.i < |s.contexts|
    requires s.contexts[s.main.i] in s.heap && s.heap[s.contexts[s.main.i]].handled
    ensures Reachable(1, s.(main := Visit(s.main.i + 1)))
  {
    Steps(s, MainStep(true), s.(main := Visit(s.main.i + 1)));
  }

  lemma MainEnds(s: State)
    requires Reachable(1, s) && s.main == Visit(|s.contexts|)
    ensures Reachable(1, s.(lock := Free, main := Outside))
  {
    Steps(s, MainStep(true), s.(lock := Free, main := Outside));
  }

  /** Main starts handing over the context it visits and locks the thread. */
  lemma MainLocksThread(s: State, t: Thread, i: nat)
    requires Reachable(1, s) && s == Held(s, Visit(i), t) && t.lock.Free? && i < |s.contexts|
    requires s.contexts[i] in s.heap && !s.heap[s.contexts[i]].handled
    ensures Reachable(1, Held(s, FirstLocked(i, 0, SIZE_MAX, []), t.(lock := HeldBy(Main))))
  {
    Steps(s, MainStep(true), Held(s, First(i, 0, SIZE_MAX, []), t));
    Steps(Held(s, First(i, 0, SIZE_MAX, []), t), MainStep(true),
          Held(s, FirstLocked(i, 0, SIZE_MAX, []), t.(lock := HeldBy(Main))));
  }

  /** The state after the context visited was pushed to the thread and marked. */
  ghost function Pushed(s: State, t: Thread, i: nat): State
    requires i < |s.contexts| && s.contexts[i] in s.heap
  {
    At(s.heap[s.contexts[i] := s.heap[s.contexts[i]].(handled := true)], s.contexts, HeldBy(Main), Visit(i + 1),
       t.(inbox := t.inbox + [s.contexts[i]]))
  }

  lemma PushedAfterNotify(s: State, t: Thread, i: nat, h: Handoff)
    requires i < |s.contexts| && s.contexts[i] in s.heap && !t.pc.Asleep? && h.To? && h.thread == 0
    requires Reachable(1, Held(s, Notify(i, h), t.(inbox := t.inbox + [s.contexts[i]])))
    ensures Reachable(1, Pushed(s, t, i))
  {
    var u := t.(inbox := t.inbox + [s.contexts[i]]);
    Steps(Held(s, Notify(i, h), u), MainStep(true), Held(s, MarkHandled(i, h), u));
    Steps(Held(s, MarkHandled(i, h), u), MainStep(true), Pushed(s, t, i));
  }

  lemma PushedToIdle(s: State, t: Thread, i: nat)
    requires Reachable(1, s) && s == Held(s, Visit(i), t) && t.lock.Free? && i < |s.contexts|
    requires s.contexts[i] in s.heap && !s.heap[s.contexts[i]].handled
    requires t.size == 0 && !t.pc.Asleep?
    ensures Reachable(1, Pushed(s, t, i))
  {
    MainLocksThread(s, t, i);
    var h := To(0, [0], []);
    assert [] + [0] == [0];
    Steps(Held(s, FirstLocked(i, 0, SIZE_MAX, []), t.(lock := HeldBy(Main))), MainStep(true),
          Held(s, Notify(i, h), t.(inbox := t.inbox + [s.contexts[i]])));
    PushedAfterNotify(s, t, i, h);
  }

  /** Main's first scan of a busy thread: the load to avoid is one more. */
  lemma FirstScanOfBusy(s: State, t: Thread, i: nat)
    requires Reachable(1, s) && s == Held(s, Visit(i), t) && t.lock.Free? && i < |s.contexts|
    requires s.contexts[i] in s.heap && !s.heap[s.contexts[i]].handled
    requires 0 < t.size < SIZE_MAX
    ensures Reachable(1, Held(s, Second(i, t.size + 1, [t.size], []), t))
  {
    MainLocksThread(s, t, i);
    assert [] + [t.size] == [t.size];
    Steps(Held(s, FirstLocked(i, 0, SIZE_MAX, []), t.(lock := HeldBy(Main))), MainStep(true),
          Held(s, First(i, t.size, t.size, [t.size]), t));
    Steps(Held(s, First(i, t.size, t.size, [t.size]), t), MainStep(true),
          Held(s, Second(i, t.size + 1, [t.size], []), t));
  }

  lemma PushedToBusy(s: State, t: Thread, i: nat)
    requires Reachable(1, s) && s == Held(s, Visit(i), t) && t.lock.Free? && i < |s.contexts|
    requires s.contexts[i] in s.heap && !s.heap[s.contexts[i]].handled
    requires 0 < t.size < SIZE_MAX && !t.pc.Asleep?
    ensures Reachable(1, Pushed(s, t, i))
  {
    FirstScanOfBusy(s, t, i);
    var x := t.size;
    var h := To(0, [x], [x]);
    Steps(Held(s, Second(i, x + 1, [x], []), t), MainStep(true),
          Held(s, SecondLocked(i, x + 1, [x], []), t.(lock := HeldBy(Main))));
    assert [] + [x] == [x];
    Steps(Held(s, SecondLocked(i, x + 1, [x], []), t.(lock := HeldBy(Main))), MainStep(true),
          Held(s, Notify(i, h), t.(inbox := t.inbox + [s.contexts[i]])));
    PushedAfterNotify(s, t, i, h);
  }

  const FIRST_HANDLED: map<Ctx, Record> := map[1 := Record(1, true)]

  /** Context 1 reaches the inbox of the idle thread. */
  lemma FirstContextQueued()
    ensures Reachable(1, At(FIRST_HANDLED, [1], Free, Outside, Thread(Free, [1], 0, [], Loop)))
  {
    assert Run(Init(1), []) == Moved(Init(1));
    var s := At(map[1 := Record(1, false)], [1], Free, Outside, IDLE_THREAD);
    assert Init(1) == At(map[], [], Free, Outside, IDLE_THREAD);
    Steps(Init(1), Submit(1, 1), s);
    MainStarts(s);
    s := s.(lock := HeldBy(Main), main := Visit(0));
    PushedToIdle(s, IDLE_THREAD, 0);
    s := Pushed(s, IDLE_THREAD, 0);
    MainEnds(s);
    assert s.heap == FIRST_HANDLED && s.threads[0].inbox == [1];
  }

  /** The thread takes it. */
  lemma FirstContextTaken()
    ensures Reachable(1, At(FIRST_HANDLED, [1], Free, Outside, Thread(Free, [], 1, [1], Serving)))
  {
    FirstContextQueued();
    var s := At(FIRST_HANDLED, [1], Free, Outside, Thread(Free, [1], 0, [], Loop));
    var taking := At(FIRST_HANDLED, [1], Free, Outside, Thread(HeldBy(Worker(0)), [1], 0, [], Taking));
    Steps(s, WorkerStep(0, false), taking);
    Steps(taking, WorkerStep(0, false), At(FIRST_HANDLED, [1], Free, Outside, Thread(Free, [], 1, [1], Serving)));
  }

  const ALL_HANDLED: map<Ctx, Record> := map[1 := Record(1, true), 2 := Record(2, true), 3 := Record(3, true)]

  /** Contexts 2 and 3 submitted. */
  const TWO_WAITING: map<Ctx, Record> := map[1 := Record(1, true), 2 := Record(2, false), 3 := Record(3, false)]

  lemma TwoMoreSubmitted()
    ensures Reachable(1, At(TWO_WAITING, [1, 2, 3], Free, Outside, Thread(Free, [], 1, [1], Serving)))
  {
    FirstContextTaken();
    var t := Thread(Free, [], 1, [1], Serving);
    var heap2 := FIRST_HANDLED[2 := Record(2, false)];
    assert [1] + [2] == [1, 2] && [1, 2] + [3] == [1, 2, 3];
    assert heap2[3 := Record(3, false)] == TWO_WAITING;
    Steps(At(FIRST_HANDLED, [1], Free, Outside, t), Submit(2, 2), At(heap2, [1, 2], Free, Outside, t));
    Steps(At(heap2, [1, 2], Free, Outside, t), Submit(3, 3), At(TWO_WAITING, [1, 2, 3], Free, Outside, t));
  }

  /** While the thread serves context 1, they reach its inbox. */
  lemma TwoMoreQueued()
    ensures Reachable(1, At(ALL_HANDLED, [1, 2, 3], Free, Outside, Thread(Free, [2, 3], 1, [1], Serving)))
  {
    TwoMoreSubmitted();
    var t := Thread(Free, [], 1, [1], Serving);
    var s := At(TWO_WAITING, [1, 2, 3], Free, Outside, t);
    MainStarts(s);
    s := s.(lock := HeldBy(Main), main := Visit(0));
    MainSkips(s);
    s := s.(main := Visit(1));
    PushedToBusy(s, t, 1);
    s := Pushed(s, t, 1);
    PushedToBusy(s, s.threads[0], 2);
    s := Pushed(s, s.threads[0], 2);
    MainEnds(s);
    assert s.heap == ALL_HANDLED && s.threads[0].inbox == [2, 3];
  }

  const TWO_HANDLED: map<Ctx, Record> := map[2 := Record(2, true), 3 := Record(3, true)]

  /** The stream of context 1 has ended: the thread waits to erase it. */
  lemma StreamEnded()
    ensures Reachable(1, At(ALL_HANDLED, [1, 2, 3], HeldBy(Worker(0)), Outside, Thread(Free, [2, 3], 1, [1], Erasing)))
  {
    TwoMoreQueued();
    var t := Thread(Free, [2, 3], 1, [1], Serving);
    Steps(At(ALL_HANDLED, [1, 2, 3], Free, Outside, t), WorkerStep(0, true),
          At(ALL_HANDLED, [1, 2, 3], Free, Outside, t.(pc := WantErase)));
    Steps(At(ALL_HANDLED, [1, 2, 3], Free, Outside, t.(pc := WantErase)), WorkerStep(0, true),
          At(ALL_HANDLED, [1, 2, 3], HeldBy(Worker(0)), Outside, t.(pc := Erasing)));
  }

  lemma ContextErased()
    ensures Reachable(1, At(TWO_HANDLED, [2, 3], Free, Outside, Thread(Free, [2, 3], 1, [], Serving)))
  {
    StreamEnded();
    var s := At(ALL_HANDLED, [1, 2, 3], HeldBy(Worker(0)), Outside, Thread(Free, [2, 3], 1, [1], Erasing));
    assert ALL_HANDLED - {1} == TWO_HANDLED && Erase([1, 2, 3], 0) == [2, 3] && [1][1..] == [];
    assert IndexOfGuild(s.heap, s.contexts, 1) == 0;
    assert EraseGuild(s, 1) == s.(heap := TWO_HANDLED, contexts := [2, 3]);
    Steps(s, WorkerStep(0, true), At(TWO_HANDLED, [2, 3], Free, Outside, Thread(Free, [2, 3], 1, [], Serving)));
  }

  const FOURTH_WAITING: map<Ctx, Record> := map[2 := Record(2, true), 3 := Record(3, true), 4 := Record(4, false)]

  /** The thread is through with its batch; context 4 is submitted. */
  lemma BatchFinished()
    ensures Reachable(1, At(FOURTH_WAITING, [2, 3, 4], Free, Outside, Thread(Free, [2, 3], 1, [], Loop)))
  {
    ContextErased();
    var s := At(TWO_HANDLED, [2, 3], Free, Outside, Thread(Free, [2, 3], 1, [], Serving));
    Steps(s, WorkerStep(0, true), s.(threads := [Thread(Free, [2, 3], 1, [], Loop)]));
    s := s.(threads := [Thread(Free, [2, 3], 1, [], Loop)]);
    assert [2, 3] + [4] == [2, 3, 4] && TWO_HANDLED[4 := Record(4, false)] == FOURTH_WAITING;
    Steps(s, Submit(4, 4), At(FOURTH_WAITING, [2, 3, 4], Free, Outside, Thread(Free, [2, 3], 1, [], Loop)));
  }

  /** Between main's two scans the thread takes its inbox: its load goes from the
      1 that main read first to the 2 that main avoids. */
  lemma LoadChangesBetweenScans()
    ensures Reachable(1, At(FOURTH_WAITING, [2, 3, 4], HeldBy(Main), Second(2, 2, [1], []),
                            Thread(Free, [], 2, [2, 3], Serving)))
  {
    BatchFinished();
    var t := Thread(Free, [2, 3], 1, [], Loop);
    var s := At(FOURTH_WAITING, [2, 3, 4], Free, Outside, t);
    MainStarts(s);
    s := s.(lock := HeldBy(Main), main := Visit(0));
    MainSkips(s);
    MainSkips(s.(main := Visit(1)));
    s := s.(main := Visit(2));
    FirstScanOfBusy(s, t, 2);
    s := Held(s, Second(2, 2, [1], []), t);
    Steps(s, WorkerStep(0, false), s.(threads := [t.(lock := HeldBy(Worker(0)), pc := Taking)]));
    Steps(s.(threads := [t.(lock := HeldBy(Worker(0)), pc := Taking)]), WorkerStep(0, false),
          s.(threads := [Thread(Free, [], 2, [2, 3], Serving)]));
  }

  /** The hand-off of `notify_work` can fail: with one stream thread a context can
      be marked handled without being given to it. */
  lemma AContextCanBeStranded()
    ensures exists s :: Reachable(1, s) && Stranded(s, 4)
  {
    LoadChangesBetweenScans();
    var t := Thread(Free, [], 2, [2, 3], Serving);
    var s := At(FOURTH_WAITING, [2, 3, 4], HeldBy(Main), Second(2, 2, [1], []), t);
    Steps(s, MainStep(true), Held(s, SecondLocked(2, 2, [1], []), t.(lock := HeldBy(Main))));
    assert [] + [2] == [2];
    Steps(Held(s, SecondLocked(2, 2, [1], []), t.(lock := HeldBy(Main))), MainStep(true),
          Held(s, Second(2, 2, [1], [2]), t));
    Steps(Held(s, Second(2, 2, [1], [2]), t), MainStep(true), Held(s, MarkHandled(2, Nobody([1], [2])), t));
    var last := At(FOURTH_WAITING[4 := Record(4, true)], [2, 3, 4], HeldBy(Main), Visit(3), t);
    Steps(Held(s, MarkHandled(2, Nobody([1], [2])), t), MainStep(true), last);
    assert Stranded(last, 4);
  }
}
