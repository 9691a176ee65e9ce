/** The rendezvous of waiters and markers on the readiness of a slave process.  One
    step is one critical section on the queue of ready states, or the notification
    after it. */
module SlaveReady {

  type Id = string

  /** An entry of `slave_ready_queue`.  `mark` identifies the call of
      `mark_slave_ready` that supplied the status; it is history, no branch
      depends on it. */
  datatype Entry = Entry(ready: bool, status: int, mark: nat)

  datatype WaiterPc = Asleep | Woken | Leaving | Returned(status: int, delivered: Delivery)

  /** What a waiter's result goes back to. */
  datatype Delivery = NoMark | Mark(mark: nat)

  datatype Waiter = Waiter(id: Id, pc: WaiterPc)

  /** `notify` holds the marks whose notification is still to come; `issued` all
      marks so far, with what they supplied. */
  datatype State = State(
    queue: map<Id, Entry>, waiters: map<nat, Waiter>, issued: seq<(Id, int)>, notify: set<nat>)

  datatype Action =
    | StartsWaiting(w: nat, id: Id)
    | Rechecks(w: nat)
    | TimesOut(w: nat)
    | SpuriousWake(w: nat)
    | Leaves(w: nat)
    | Marks(id: Id, status: int)
    | Notifies(mark: nat)

  datatype Outcome = Blocked | Moved(state: State)

  const INIT := State(map[], map[], [], {})

  function WakeAll(waiters: map<nat, Waiter>): map<nat, Waiter> {
    map w | w in waiters :: if waiters[w].pc == Asleep then waiters[w].(pc := Woken) else waiters[w]
  }

  /** The result of the waiter that erases this entry. */
  function ResultOf(e: Entry): WaiterPc {
    Returned(e.status, if e.ready then Mark(e.mark) else NoMark)
  }

  /** The predicate of `wait_until`. */
  predicate MayStop(s: State, id: Id) {
    id !in s.queue || s.queue[id].ready
  }

  function SetPc(s: State, w: nat, pc: WaiterPc): State
    requires w in s.waiters
  {
    s.(waiters := s.waiters[w := s.waiters[w].(pc := pc)])
  }

  /** The first critical section of `wait_slave_ready`. */
  function Start(s: State, w: nat, id: Id): State {
    if id in s.queue then s.(queue := s.queue - {id}, waiters := s.waiters[w := Waiter(id, ResultOf(s.queue[id]))])
    else s.(queue := s.queue[id := Entry(false, -1, 0)], waiters := s.waiters[w := Waiter(id, Woken)])
  }

  /** Its last critical section. */
  function Leave(s: State, w: nat): State
    requires w in s.waiters
  {
    var id := s.waiters[w].id;
    if id in s.queue then SetPc(s, w, ResultOf(s.queue[id])).(queue := s.queue - {id})
    else SetPc(s, w, Returned(-1, NoMark))
  }

  function Next(s: State, a: Action): Outcome {
    match a
    case StartsWaiting(w, id) => if w in s.waiters then Blocked else Moved(Start(s, w, id))
    case Rechecks(w) =>
      if w !in s.waiters || s.waiters[w].pc != Woken then Blocked
      else Moved(SetPc(s, w, if MayStop(s, s.waiters[w].id) then Leaving else Asleep))
    case TimesOut(w) =>
      if w !in s.waiters || (s.waiters[w].pc != Asleep && s.waiters[w].pc != Woken) then Blocked
      else Moved(SetPc(s, w, Leaving))
    case SpuriousWake(w) =>
      if w !in s.waiters || s.waiters[w].pc != Asleep then Blocked else Moved(SetPc(s, w, Woken))
    case Leaves(w) =>
      if w !in s.waiters || s.waiters[w].pc != Leaving then Blocked else Moved(Leave(s, w))
    case Marks(id, status) =>
      Moved(s.(queue := s.queue[id := Entry(true, status, |s.issued|)], issued := s.issued + [(id, status)],
               notify := s.notify + {|s.issued|}))
    case Notifies(mark) =>
      if mark !in s.notify then Blocked
      else Moved(s.(waiters := WakeAll(s.waiters), notify := s.notify - {mark}))
  }

  function Run(s: State, actions: seq<Action>): Outcome
    decreases |actions|
  {
    if actions == [] then Moved(s)
    else
      match Next(s, actions[0])
      case Moved(s') => Run(s', actions[1..])
      case Blocked => Blocked
  }

  ghost predicate Reachable(s: State) {
    exists actions :: Run(INIT, actions) == Moved(s)
  }

  // ---------------------------------------------------------------- invariants

  /** Waiter `w` has returned the status of this mark. */
  predicate DeliveredTo(s: State, w: nat, mark: nat) {
    w in s.waiters && s.waiters[w].pc.Returned? && s.waiters[w].pc.delivered == Mark(mark)
  }

  /** The entry of `id` holds the status of this mark, not yet delivered. */
  predicate Pending(s: State, id: Id, mark: nat) {
    id in s.queue && s.queue[id].ready && s.queue[id].mark == mark
  }

  ghost predicate EntriesOk(s: State) {
    && (forall id | id in s.queue && s.queue[id].ready ::
          s.queue[id].mark < |s.issued| && s.issued[s.queue[id].mark] == (id, s.queue[id].status))
    && (forall id | id in s.queue && !s.queue[id].ready :: s.queue[id].status == -1)
  }

  ghost predicate ResultsOk(s: State) {
    forall w | w in s.waiters && s.waiters[w].pc.Returned? ::
      match s.waiters[w].pc.delivered
      case NoMark => s.waiters[w].pc.status == -1
      case Mark(mark) => mark < |s.issued| && s.issued[mark] == (s.waiters[w].id, s.waiters[w].pc.status)
  }

  /** A mark is in one place: an entry, or one waiter's result. */
  ghost predicate MarksOnce(s: State) {
    && (forall w, mark | DeliveredTo(s, w, mark) :: forall id :: !Pending(s, id, mark))
    && (forall v, w, mark | DeliveredTo(s, v, mark) && DeliveredTo(s, w, mark) :: v == w)
  }

  ghost predicate SleepersOk(s: State) {
    forall w | w in s.waiters && s.waiters[w].pc.Asleep?
               && s.waiters[w].id in s.queue && s.queue[s.waiters[w].id].ready ::
      s.queue[s.waiters[w].id].mark in s.notify
  }

  ghost predicate Inv(s: State) {
    EntriesOk(s) && ResultsOk(s) && MarksOnce(s) && SleepersOk(s)
  }

  lemma EntriesKept(s: State, a: Action)
    requires Inv(s) && Next(s, a).Moved?
    ensures EntriesOk(Next(s, a).state)
  {
  }

  lemma ResultsKept(s: State, a: Action)
    requires Inv(s) && Next(s, a).Moved?
    ensures ResultsOk(Next(s, a).state)
  {
  }

  lemma MarksOnceKept(s: State, a: Action)
    requires Inv(s) && Next(s, a).Moved?
    ensures MarksOnce(Next(s, a).state)
  {
    var s' := Next(s, a).state;
    assert MarksHaveOneId(s) by { EntriesHaveOneId(s); }
    forall w: nat, mark: nat, id | DeliveredTo(s', w, mark) ensures !Pending(s', id, mark) {
      assert DeliveredTo(s, w, mark) || Pending(s, s'.waiters[w].id, mark);
      assert Pending(s', id, mark) ==> Pending(s, id, mark) || mark == |s.issued|;
      assert DeliveredTo(s, w, mark) ==> mark < |s.issued|;
    }
    forall v: nat, w: nat, mark: nat | DeliveredTo(s', v, mark) && DeliveredTo(s', w, mark) ensures v == w {
      assert DeliveredTo(s, v, mark) || Pending(s, s'.waiters[v].id, mark);
      assert DeliveredTo(s, w, mark) || Pending(s, s'.waiters[w].id, mark);
    }
  }

  ghost predicate MarksHaveOneId(s: State) {
    forall id, other, mark | Pending(s, id, mark) && Pending(s, other, mark) :: id == other
  }

  lemma EntriesHaveOneId(s: State)
    requires EntriesOk(s)
    ensures MarksHaveOneId(s)
  {
  }

  lemma SleepersKept(s: State, a: Action)
    requires Inv(s) && Next(s, a).Moved?
    ensures SleepersOk(Next(s, a).state)
  {
  }

  lemma {:induction false} RunKeepsInv(s: State, actions: seq<Action>)
    requires Inv(s) && Run(s, actions).Moved?
    ensures Inv(Run(s, actions).state)
    decreases |actions|
  {
    if actions != [] {
      EntriesKept(s, actions[0]);
      ResultsKept(s, actions[0]);
      MarksOnceKept(s, actions[0]);
      SleepersKept(s, actions[0]);
      RunKeepsInv(Next(s, actions[0]).state, actions[1..]);
    }
  }

  // ------------------------------------------------------------------ theorems

  lemma ReachableInv(s: State)
    requires Reachable(s)
    ensures Inv(s)
  {
    var actions :| Run(INIT, actions) == Moved(s);
    RunKeepsInv(INIT, actions);
  }

  /** A waiter returns -1, or the status that some mark supplied for its own id. */
  lemma ResultsComeFromMarks(s: State, w: nat)
    requires Reachable(s) && w in s.waiters && s.waiters[w].pc.Returned?
    ensures s.waiters[w].pc.status == -1 || (s.waiters[w].id, s.waiters[w].pc.status) in s.issued
    ensures s.waiters[w].pc.delivered.Mark? ==>
              && s.waiters[w].pc.delivered.mark < |s.issued|
              && s.issued[s.waiters[w].pc.delivered.mark] == (s.waiters[w].id, s.waiters[w].pc.status)
  {
    ReachableInv(s);
  }

  /** No mark is delivered to two waiters, and none that was delivered is still
      pending. */
  lemma MarksAreDeliveredOnce(s: State, v: nat, w: nat, mark: nat)
    requires Reachable(s) && DeliveredTo(s, v, mark)
    ensures DeliveredTo(s, w, mark) ==> v == w
    ensures forall id :: !Pending(s, id, mark)
  {
    ReachableInv(s);
  }

  /** A waiter asleep on an id that was marked is about to be notified. */
  lemma NoLostReadiness(s: State, w: nat)
    requires Reachable(s) && w in s.waiters && s.waiters[w].pc.Asleep?
    requires s.waiters[w].id in s.queue && s.queue[s.waiters[w].id].ready
    ensures s.queue[s.waiters[w].id].mark in s.notify
    ensures var woken := Next(s, Notifies(s.queue[s.waiters[w].id].mark));
            woken.Moved? && woken.state.waiters[w].pc.Woken? && MayStop(woken.state, s.waiters[w].id)
  {
    ReachableInv(s);
  }

  // -------------------------------------------------------------------- results

  /** What a waiter returns when an entry, or none, stands in the queue for its id. */
  ghost predicate ReturnsWhatStands(s: State, id: Id, pc: WaiterPc) {
    && pc.Returned?
    && (forall mark: nat | Pending(s, id, mark) ::
          mark < |s.issued| && pc == Returned(s.issued[mark].1, Mark(mark)))
    && (!(id in s.queue && s.queue[id].ready) ==> pc == Returned(-1, NoMark))
  }

  /** A waiter that is through with waiting takes the pending mark for its id, if there
      is one, and returns its status; else it returns -1. */
  lemma LeavesWithWhatStands(s: State, w: nat)
    requires Inv(s) && w in s.waiters && s.waiters[w].pc.Leaving?
    ensures Next(s, Leaves(w)).Moved?
    ensures var s' := Next(s, Leaves(w)).state;
            && w in s'.waiters && s'.waiters[w].id == s.waiters[w].id
            && ReturnsWhatStands(s, s.waiters[w].id, s'.waiters[w].pc)
            && s'.queue == s.queue - {s.waiters[w].id}
  {
  }

  /** One that begins returns at once exactly when an entry stands; else it enters one
      that is not ready, and waits. */
  lemma BeginsExactly(s: State, w: nat, id: Id)
    requires Inv(s) && w !in s.waiters
    ensures Next(s, StartsWaiting(w, id)).Moved?
    ensures var s' := Next(s, StartsWaiting(w, id)).state;
            && w in s'.waiters && s'.waiters[w].id == id
            && if id in s.queue then ReturnsWhatStands(s, id, s'.waiters[w].pc) && s'.queue == s.queue - {id}
               else s'.waiters[w].pc == Woken && s'.queue == s.queue[id := Entry(false, -1, 0)]
  {
  }

  /** One that looks again goes on sleeping exactly when its entry stands and is not
      ready. */
  lemma RechecksExactly(s: State, w: nat)
    requires w in s.waiters && s.waiters[w].pc == Woken
    ensures Next(s, Rechecks(w)).Moved?
    ensures var id, s' := s.waiters[w].id, Next(s, Rechecks(w)).state;
            && w in s'.waiters
            && s'.waiters[w] == Waiter(id, if id in s.queue && !s.queue[id].ready then Asleep else Leaving)
  {
  }

  /** A sleeper may also wake with no notification, and it leaves at its deadline,
      asleep or not; nothing else changes. */
  lemma MayWakeOrTimeOut(s: State, w: nat)
    requires w in s.waiters && s.waiters[w].pc.Asleep?
    ensures var woken := s.(waiters := s.waiters[w := Waiter(s.waiters[w].id, Woken)]);
            var leaving := s.(waiters := s.waiters[w := Waiter(s.waiters[w].id, Leaving)]);
            && Next(s, SpuriousWake(w)) == Moved(woken)
            && Next(s, TimesOut(w)) == Moved(leaving) && Next(woken, TimesOut(w)) == Moved(leaving)
  {
    var woken := s.(waiters := s.waiters[w := Waiter(s.waiters[w].id, Woken)]);
    assert woken.waiters[w := Waiter(s.waiters[w].id, Leaving)] == s.waiters[w := Waiter(s.waiters[w].id, Leaving)];
  }

  /** Whenever a waiter has returned along a run, it did so in a step in which it took
      what stood in the queue for its id: so a -1 means that no entry stood there, or
      that it was not ready, or that the mark supplied -1. */
  lemma {:induction false} ReturnedWhatStood(s: State, actions: seq<Action>, w: nat) returns (m: nat)
    requires Inv(s) && (w in s.waiters ==> !s.waiters[w].pc.Returned?) && Run(s, actions).Moved?
    requires w in Run(s, actions).state.waiters && Run(s, actions).state.waiters[w].pc.Returned?
    ensures m < |actions| && Run(s, actions[..m]).Moved?
    ensures ReturnsWhatStands(Run(s, actions[..m]).state, Run(s, actions).state.waiters[w].id,
                              Run(s, actions).state.waiters[w].pc)
    decreases |actions|
  {
    var s1 := Next(s, actions[0]).state;
    RunKeepsInv1(s, actions[0]);
    if w in s1.waiters && s1.waiters[w].pc.Returned? {
      m := 0;
      ReturnedStaysAlong(s1, actions[1..], w);
      ReturnsInStep(s, actions[0], w);
    } else {
      m := ReturnedWhatStood(s1, actions[1..], w);
      m := m + 1;
      assert actions[..m][1..] == actions[1..][..m - 1];
    }
  }

  lemma ReturnsInStep(s: State, a: Action, w: nat)
    requires Inv(s) && (w in s.waiters ==> !s.waiters[w].pc.Returned?) && Next(s, a).Moved?
    requires w in Next(s, a).state.waiters && Next(s, a).state.waiters[w].pc.Returned?
    ensures ReturnsWhatStands(s, Next(s, a).state.waiters[w].id, Next(s, a).state.waiters[w].pc)
  {
    if a.StartsWaiting? {
      BeginsExactly(s, w, a.id);
    } else {
      LeavesWithWhatStands(s, w);
    }
  }

  lemma RunKeepsInv1(s: State, a: Action)
    requires Inv(s) && Next(s, a).Moved?
    ensures Inv(Next(s, a).state)
  {
    EntriesKept(s, a);
    ResultsKept(s, a);
    MarksOnceKept(s, a);
    SleepersKept(s, a);
  }

  lemma MarkWakes(s: State, w: nat, status: int)
    requires w in s.waiters && s.waiters[w].pc.Asleep?
    ensures var id, mark := s.waiters[w].id, |s.issued|;
            && Next(s, Marks(id, status)).Moved?
            && Next(Next(s, Marks(id, status)).state, Notifies(mark)).Moved?
            && var s2 := Next(Next(s, Marks(id, status)).state, Notifies(mark)).state;
               && w in s2.waiters && s2.waiters[w] == Waiter(id, Woken)
               && s2.queue == s.queue[id := Entry(true, status, mark)]
  {
  }

  lemma ReadyLetsGo(s: State, w: nat)
    requires w in s.waiters && s.waiters[w].pc == Woken && s.waiters[w].id in s.queue && s.queue[s.waiters[w].id].ready
    ensures Next(s, Rechecks(w)).Moved? && Next(Next(s, Rechecks(w)).state, Leaves(w)).Moved?
    ensures var id, s2 := s.waiters[w].id, Next(Next(s, Rechecks(w)).state, Leaves(w)).state;
            && w in s2.waiters && s2.waiters[w] == Waiter(id, Returned(s.queue[id].status, Mark(s.queue[id].mark)))
            && s2.queue == s.queue - {id}
  {
  }

  /** A mark reaches the waiter that sleeps on its id. */
  lemma MarkReachesSleeper(s: State, w: nat, status: int)
    requires w in s.waiters && s.waiters[w].pc.Asleep?
    ensures var id, mark := s.waiters[w].id, |s.issued|;
            var o := Run(s, [Marks(id, status)] + ([Notifies(mark)] + ([Rechecks(w)] + ([Leaves(w)] + []))));
            && o.Moved? && w in o.state.waiters
            && o.state.waiters[w] == Waiter(id, Returned(status, Mark(mark)))
            && o.state.queue == s.queue - {id}
  {
    var id, mark := s.waiters[w].id, |s.issued|;
    var s1 := Next(s, Marks(id, status)).state;
    var s2 := Next(s1, Notifies(mark)).state;
    var s3 := Next(s2, Rechecks(w)).state;
    MarkWakes(s, w, status);
    ReadyLetsGo(s2, w);
    assert s2.queue - {id} == s.queue - {id};
    RunOnce(s, Marks(id, status), [Notifies(mark)] + ([Rechecks(w)] + ([Leaves(w)] + [])));
    RunOnce(s1, Notifies(mark), [Rechecks(w)] + ([Leaves(w)] + []));
    RunOnce(s2, Rechecks(w), [Leaves(w)] + []);
    RunOnce(s3, Leaves(w), []);
  }

  // ------------------------------------------------------------------ freshness

  lemma ReturnedStays(s: State, a: Action, w: nat)
    requires w in s.waiters && s.waiters[w].pc.Returned? && Next(s, a).Moved?
    ensures w in Next(s, a).state.waiters && Next(s, a).state.waiters[w] == s.waiters[w]
  {
  }

  lemma {:induction false} ReturnedStaysAlong(s: State, actions: seq<Action>, w: nat)
    requires w in s.waiters && s.waiters[w].pc.Returned? && Run(s, actions).Moved?
    ensures w in Run(s, actions).state.waiters && Run(s, actions).state.waiters[w] == s.waiters[w]
    decreases |actions|
  {
    if actions != [] {
      ReturnedStays(s, actions[0], w);
      ReturnedStaysAlong(Next(s, actions[0]).state, actions[1..], w);
    }
  }

  /** Nothing that waiter `w` has got or can get is older than the `n`-th mark. */
  ghost predicate OnlyFresh(s: State, w: nat, n: nat) {
    && w in s.waiters && n <= |s.issued|
    && (forall mark: nat | DeliveredTo(s, w, mark) :: mark >= n)
    && (!s.waiters[w].pc.Returned? ==> forall mark: nat | Pending(s, s.waiters[w].id, mark) :: mark >= n)
  }

  lemma FreshStays(s: State, a: Action, w: nat, n: nat)
    requires OnlyFresh(s, w, n) && Next(s, a).Moved?
    ensures OnlyFresh(Next(s, a).state, w, n)
  {
    var s' := Next(s, a).state;
    forall mark: nat | DeliveredTo(s', w, mark) ensures mark >= n {
      assert DeliveredTo(s, w, mark) || Pending(s, s.waiters[w].id, mark);
    }
    if !s'.waiters[w].pc.Returned? {
      forall mark: nat | Pending(s', s'.waiters[w].id, mark) ensures mark >= n {
        assert Pending(s, s.waiters[w].id, mark) || mark == |s.issued|;
      }
    }
  }

  lemma {:induction false} FreshStaysAlong(s: State, actions: seq<Action>, w: nat, n: nat)
    requires OnlyFresh(s, w, n) && Run(s, actions).Moved?
    ensures OnlyFresh(Run(s, actions).state, w, n)
    decreases |actions|
  {
    if actions != [] {
      FreshStays(s, actions[0], w, n);
      FreshStaysAlong(Next(s, actions[0]).state, actions[1..], w, n);
    }
  }

  /** A status that a waiter returns was supplied after the wait began exactly when no
      entry for its id stood in the queue at that time. */
  lemma ResultIsFreshExactly(s: State, w: nat, id: Id, actions: seq<Action>, mark: nat)
    requires Reachable(s) && w !in s.waiters && Run(Start(s, w, id), actions).Moved?
    requires DeliveredTo(Run(Start(s, w, id), actions).state, w, mark)
    ensures mark >= |s.issued| <==> id !in s.queue
  {
    ReachableInv(s);
    var started := Start(s, w, id);
    if id in s.queue {
      ReturnedStaysAlong(started, actions, w);
      assert DeliveredTo(started, w, mark);
    } else {
      FreshStaysAlong(started, actions, w, |s.issued|);
    }
  }

  lemma RunOnce(s: State, a: Action, rest: seq<Action>)
    requires Next(s, a).Moved?
    ensures Run(s, [a] + rest) == Run(Next(s, a).state, rest)
  {
    assert ([a] + rest)[1..] == rest;
  }

  /** A run in which it was not: the mark comes after its waiter has given up, and the
      next one for the same id gets it at once. */
  lemma StaleResult(id: Id, status: int)
    ensures var late := State(map[id := Entry(true, status, 0)], map[0 := Waiter(id, Returned(-1, NoMark))],
                              [(id, status)], {0});
            && Reachable(late)
            && DeliveredTo(Start(late, 1, id), 1, 0) && Start(late, 1, id).waiters[1].pc.status == status
  {
    var actions := [StartsWaiting(0, id)] + ([TimesOut(0)] + ([Leaves(0)] + ([Marks(id, status)] + [])));
    var s1 := State(map[id := Entry(false, -1, 0)], map[0 := Waiter(id, Woken)], [], {});
    var s2 := State(map[id := Entry(false, -1, 0)], map[0 := Waiter(id, Leaving)], [], {});
    var s3 := State(map[], map[0 := Waiter(id, Returned(-1, NoMark))], [], {});
    var late := State(map[id := Entry(true, status, 0)], map[0 := Waiter(id, Returned(-1, NoMark))],
                      [(id, status)], {0});
    assert Next(INIT, StartsWaiting(0, id)) == Moved(s1);
    assert Next(s1, TimesOut(0)) == Moved(s2);
    assert Next(s2, Leaves(0)) == Moved(s3) by { assert s2.queue - {id} == map[]; }
    assert Next(s3, Marks(id, status)) == Moved(late);
    RunOnce(INIT, StartsWaiting(0, id), [TimesOut(0)] + ([Leaves(0)] + ([Marks(id, status)] + [])));
    RunOnce(s1, TimesOut(0), [Leaves(0)] + ([Marks(id, status)] + []));
    RunOnce(s2, Leaves(0), [Marks(id, status)] + []);
    RunOnce(s3, Marks(id, status), []);
    assert Run(INIT, actions) == Moved(late);
  }

  // --------------------------------------------------------- two waiters of an id

  /** The entry of an id goes away exactly when a waiter of that id begins or ends. */
  lemma EntryVanishesExactly(s: State, a: Action, id: Id)
    requires Next(s, a).Moved? && id in s.queue
    ensures id !in Next(s, a).state.queue <==>
            (a.StartsWaiting? && a.id == id) || (a.Leaves? && s.waiters[a.w].id == id)
  {
  }

  /** A sleeper that may stop because its entry has gone need not be owed a
      notification: a second waiter of the same id takes the first one's entry away
      and returns at once; the first one may stop, but sleeps on with no notification
      to come. */
  lemma SecondWaiterLeavesFirstAsleep(id: Id)
    ensures var s := State(map[], map[0 := Waiter(id, Asleep), 1 := Waiter(id, Returned(-1, NoMark))], [], {});
            Reachable(s) && MayStop(s, id) && s.notify == {}
  {
    var s1 := State(map[id := Entry(false, -1, 0)], map[0 := Waiter(id, Woken)], [], {});
    var s2 := State(map[id := Entry(false, -1, 0)], map[0 := Waiter(id, Asleep)], [], {});
    var s := State(map[], map[0 := Waiter(id, Asleep), 1 := Waiter(id, Returned(-1, NoMark))], [], {});
    assert Next(INIT, StartsWaiting(0, id)) == Moved(s1);
    assert Next(s1, Rechecks(0)) == Moved(s2);
    assert Next(s2, StartsWaiting(1, id)) == Moved(s) by { assert s2.queue - {id} == map[]; }
    RunOnce(INIT, StartsWaiting(0, id), [Rechecks(0)] + ([StartsWaiting(1, id)] + []));
    RunOnce(s1, Rechecks(0), [StartsWaiting(1, id)] + []);
    RunOnce(s2, StartsWaiting(1, id), []);
    assert Run(INIT, [StartsWaiting(0, id)] + ([Rechecks(0)] + ([StartsWaiting(1, id)] + []))) == Moved(s);
  }
}
