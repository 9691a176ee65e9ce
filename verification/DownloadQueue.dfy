/** The download queue: submitters announce a file and then queue it, the main loop
    starts tasks up to a cap, a task ends an announcement, and waiters sleep until
    the announcement of their file has ended.  One step is one critical section,
    notification or counter update. */
module DownloadQueue {

  type Name = string

  datatype TaskPc = Working | Erased | Notified
  datatype Task = Task(name: Name, pc: TaskPc)

  datatype WaiterPc = Asleep | Woken | Returned
  datatype Waiter = Waiter(name: Name, pc: WaiterPc)

  /** `Admitted`: past the check of the cap.  `Spawning`: the counter is raised, the
      task is not there yet. */
  datatype MainPc = Idle | Admitted | Spawning(name: Name)

  /** `submitters` are between the two critical sections of `download`. */
  datatype State = State(
    waiting: set<Name>, submitters: multiset<Name>, queue: seq<Name>, running: int,
    main: MainPc, tasks: map<nat, Task>, waiters: map<nat, Waiter>)

  datatype Action =
    | Announce(name: Name) | Enqueue(name: Name)
    | MainStep(task: nat)
    | TaskErases(id: nat) | TaskNotifies(id: nat) | TaskEnds(id: nat)
    | StartsWaiting(id: nat, name: Name) | Rechecks(id: nat) | SpuriousWake(id: nat)

  datatype Outcome = Blocked | Moved(state: State)

  const INIT := State({}, multiset{}, [], 0, Idle, map[], map[])

  /** One call of `check_download_queue` takes up to three steps; main makes them
      one call after the other. */
  function MainNext(s: State, cap: int, task: nat): Outcome {
    match s.main
    case Idle => Moved(if s.running >= cap then s else s.(main := Admitted))
    case Admitted =>
      if s.queue == [] then Moved(s.(main := Idle))
      else Moved(s.(running := s.running + 1, main := Spawning(s.queue[0]), queue := s.queue[1..]))
    case Spawning(name) =>
      if task in s.tasks then Blocked
      else Moved(s.(tasks := s.tasks[task := Task(name, Working)], main := Idle))
  }

  /** `notify_all` */
  function WakeAll(waiters: map<nat, Waiter>): map<nat, Waiter> {
    map id | id in waiters :: if waiters[id].pc == Asleep then waiters[id].(pc := Woken) else waiters[id]
  }

  /** A waiter that holds the mutex looks for its file. */
  function Look(s: State, name: Name): Waiter {
    Waiter(name, if name in s.waiting then Asleep else Returned)
  }

  function Next(s: State, cap: int, a: Action): Outcome {
    match a
    case Announce(name) => Moved(s.(waiting := s.waiting + {name}, submitters := s.submitters + multiset{name}))
    case Enqueue(name) =>
      if name !in s.submitters then Blocked
      else Moved(s.(submitters := s.submitters - multiset{name}, queue := s.queue + [name]))
    case MainStep(task) => MainNext(s, cap, task)
    case TaskErases(id) =>
      if id !in s.tasks || s.tasks[id].pc != Working then Blocked
      else Moved(s.(waiting := s.waiting - {s.tasks[id].name}, tasks := s.tasks[id := s.tasks[id].(pc := Erased)]))
    case TaskNotifies(id) =>
      if id !in s.tasks || s.tasks[id].pc != Erased then Blocked
      else Moved(s.(waiters := WakeAll(s.waiters), tasks := s.tasks[id := s.tasks[id].(pc := Notified)]))
    case TaskEnds(id) =>
      if id !in s.tasks || s.tasks[id].pc != Notified then Blocked
      else Moved(s.(running := s.running - 1, tasks := s.tasks - {id}))
    case StartsWaiting(id, name) =>
      if id in s.waiters then Blocked else Moved(s.(waiters := s.waiters[id := Look(s, name)]))
    case Rechecks(id) =>
      if id !in s.waiters || s.waiters[id].pc != Woken then Blocked
      else Moved(s.(waiters := s.waiters[id := Look(s, s.waiters[id].name)]))
    case SpuriousWake(id) =>
      if id !in s.waiters || s.waiters[id].pc != Asleep then Blocked
      else Moved(s.(waiters := s.waiters[id := s.waiters[id].(pc := Woken)]))
  }

  function Run(s: State, cap: int, actions: seq<Action>): Outcome
    decreases |actions|
  {
    if actions == [] then Moved(s)
    else
      match Next(s, cap, actions[0])
      case Moved(s') => Run(s', cap, actions[1..])
      case Blocked => Blocked
  }

  ghost predicate Reachable(cap: int, s: State) {
    exists actions :: Run(INIT, cap, actions) == Moved(s)
  }

  // ---------------------------------------------------------------- invariants

  ghost predicate InTask(s: State, name: Name) {
    exists id :: id in s.tasks && s.tasks[id] == Task(name, Working)
  }

  /** Someone will end the announcement of `name`. */
  ghost predicate Owed(s: State, name: Name) {
    name in s.submitters || name in s.queue || s.main == Spawning(name) || InTask(s, name)
  }

  ghost predicate NotificationOwed(s: State) {
    exists id :: id in s.tasks && s.tasks[id].pc == Erased
  }

  /** The number of live tasks, one being started included. */
  function LiveTasks(s: State): nat {
    |s.tasks| + if s.main.Spawning? then 1 else 0
  }

  ghost predicate Inv(s: State, cap: int) {
    && (forall name | name in s.waiting :: Owed(s, name))
    && (forall id | id in s.waiters && s.waiters[id].pc == Asleep ::
          s.waiters[id].name in s.waiting || NotificationOwed(s))
    && s.running == LiveTasks(s)
    && (s.main.Admitted? ==> s.running < cap)
    && (s.running > 0 ==> s.running <= cap)
  }

  lemma OwedKept(s: State, cap: int, a: Action, name: Name)
    requires Inv(s, cap) && Next(s, cap, a).Moved? && name in Next(s, cap, a).state.waiting
    ensures Owed(Next(s, cap, a).state, name)
  {
    var s' := Next(s, cap, a).state;
    if name in s.waiting {
      if InTask(s, name) {
        var id :| id in s.tasks && s.tasks[id] == Task(name, Working);
        assert id in s'.tasks && s'.tasks[id] == Task(name, Working);
      } else if s.main == Spawning(name) && a.MainStep? {
        assert s'.tasks[a.task] == Task(name, Working);
      } else if name in s.queue && a.MainStep? && s.main.Admitted? {
        assert s.queue == [s.queue[0]] + s.queue[1..];
      }
    }
  }

  lemma SleepersKept(s: State, cap: int, a: Action, id: nat)
    requires Inv(s, cap) && Next(s, cap, a).Moved?
    requires var s' := Next(s, cap, a).state; id in s'.waiters && s'.waiters[id].pc == Asleep
    ensures var s' := Next(s, cap, a).state; s'.waiters[id].name in s'.waiting || NotificationOwed(s')
  {
    var s' := Next(s, cap, a).state;
    if a.TaskErases? {
      assert s'.tasks[a.id].pc == Erased;
    } else if id in s.waiters && s.waiters[id].pc == Asleep && s.waiters[id].name !in s.waiting {
      var t :| t in s.tasks && s.tasks[t].pc == Erased;
      assert t in s'.tasks && s'.tasks[t].pc == Erased;
    }
  }

  lemma SizeAfterUpdate(m: map<nat, Task>, id: nat, t: Task)
    ensures |m[id := t]| == |m| + if id in m then 0 else 1
  {
    assert m[id := t].Keys == m.Keys + {id};
  }

  lemma SizeAfterRemoval(m: map<nat, Task>, id: nat)
    requires id in m
    ensures |m - {id}| == |m| - 1
  {
    assert (m - {id}).Keys == m.Keys - {id};
  }

  /** Counter and cap, after a step of main. */
  lemma MainKeepsCount(s: State, cap: int, task: nat)
    requires s.running == LiveTasks(s) && (s.main.Admitted? ==> s.running < cap) && (s.running > 0 ==> s.running <= cap)
    requires MainNext(s, cap, task).Moved?
    ensures var s' := MainNext(s, cap, task).state;
            && s'.running == LiveTasks(s')
            && (s'.main.Admitted? ==> s'.running < cap)
            && (s'.running > 0 ==> s'.running <= cap)
  {
    if s.main.Spawning? { SizeAfterUpdate(s.tasks, task, Task(s.main.name, Working)); }
  }

  /** Main stays where it is, and as many tasks end as the counter goes down. */
  lemma OthersKeepCount(s: State, cap: int, a: Action)
    requires Next(s, cap, a).Moved? && !a.MainStep?
    ensures var s' := Next(s, cap, a).state;
            s'.main == s.main && s'.running <= s.running && s.running - s'.running == |s.tasks| - |s'.tasks|
  {
    match a
    case TaskErases(id) => SizeAfterUpdate(s.tasks, id, s.tasks[id].(pc := Erased));
    case TaskNotifies(id) => SizeAfterUpdate(s.tasks, id, s.tasks[id].(pc := Notified));
    case TaskEnds(id) => SizeAfterRemoval(s.tasks, id);
    case _ =>
  }

  lemma CountKept(s: State, cap: int, a: Action)
    requires Inv(s, cap) && Next(s, cap, a).Moved?
    ensures var s' := Next(s, cap, a).state;
            && s'.running == LiveTasks(s')
            && (s'.main.Admitted? ==> s'.running < cap)
            && (s'.running > 0 ==> s'.running <= cap)
  {
    if a.MainStep? {
      MainKeepsCount(s, cap, a.task);
    } else {
      OthersKeepCount(s, cap, a);
    }
  }

  lemma StepKeepsInv(s: State, cap: int, a: Action)
    requires Inv(s, cap) && Next(s, cap, a).Moved?
    ensures Inv(Next(s, cap, a).state, cap)
  {
    var s' := Next(s, cap, a).state;
    forall name | name in s'.waiting ensures Owed(s', name) {
      OwedKept(s, cap, a, name);
    }
    forall id | id in s'.waiters && s'.waiters[id].pc == Asleep
      ensures s'.waiters[id].name in s'.waiting || NotificationOwed(s')
    {
      SleepersKept(s, cap, a, id);
    }
    CountKept(s, cap, a);
  }

  lemma {:induction false} RunKeepsInv(s: State, cap: int, actions: seq<Action>)
    requires Inv(s, cap) && Run(s, cap, actions).Moved?
    ensures Inv(Run(s, cap, actions).state, cap)
    decreases |actions|
  {
    if actions != [] {
      StepKeepsInv(s, cap, actions[0]);
      RunKeepsInv(Next(s, cap, actions[0]).state, cap, actions[1..]);
    }
  }

  // ------------------------------------------------------------------ theorems

  lemma ReachableInv(cap: int, s: State)
    requires Reachable(cap, s)
    ensures Inv(s, cap)
  {
    var actions :| Run(INIT, cap, actions) == Moved(s);
    RunKeepsInv(INIT, cap, actions);
  }

  /** Every announced file is with a submitter, in the queue or in a task; and a
      sleeping waiter either waits for such a file or is about to be notified. */
  lemma NoOneWaitsInVain(cap: int, s: State)
    requires Reachable(cap, s)
    ensures forall name | name in s.waiting :: Owed(s, name)
    ensures forall id | id in s.waiters && s.waiters[id].pc == Asleep ::
              Owed(s, s.waiters[id].name) || NotificationOwed(s)
  {
    ReachableInv(cap, s);
  }

  /** When no submission, queue entry or task is left, nothing is announced and no
      waiter sleeps, however often the same file was submitted. */
  lemma NobodySleepsAtRest(cap: int, s: State)
    requires Reachable(cap, s)
    requires s.submitters == multiset{} && s.queue == [] && s.tasks == map[] && !s.main.Spawning?
    ensures s.waiting == {}
    ensures forall id | id in s.waiters :: s.waiters[id].pc != Asleep
  {
    ReachableInv(cap, s);
    assert forall name :: !Owed(s, name);
  }

  /** The counter is the number of live tasks and never exceeds the cap. */
  lemma CapIsRespected(cap: int, s: State)
    requires Reachable(cap, s)
    ensures s.running == LiveTasks(s)
    ensures s.running <= if cap > 0 then cap else 0
  {
    ReachableInv(cap, s);
  }

  /** Waiter `id` is not one that has come back from waiting for `name`. */
  predicate StillWaits(s: State, id: nat, name: Name) {
    id in s.waiters && s.waiters[id].name == name ==> s.waiters[id].pc != Returned
  }

  /** This step ends the announcement of `name`. */
  predicate Finishes(s: State, a: Action, name: Name) {
    a.TaskErases? && a.id in s.tasks && s.tasks[a.id] == Task(name, Working)
  }

  lemma AnnouncedKeepsWaiting(s: State, cap: int, a: Action, id: nat, name: Name)
    requires Next(s, cap, a).Moved? && name in s.waiting && StillWaits(s, id, name) && !Finishes(s, a, name)
    ensures var s' := Next(s, cap, a).state; name in s'.waiting && StillWaits(s', id, name)
  {
  }

  /** Whoever comes back from waiting for an announced file does so after a task
      has finished that file: some step of the run, the `m`-th, is that task's. */
  lemma {:induction false} ReturnFollowsTask(s: State, cap: int, actions: seq<Action>, id: nat, name: Name)
    returns (m: nat)
    requires Run(s, cap, actions).Moved? && name in s.waiting && StillWaits(s, id, name)
    requires !StillWaits(Run(s, cap, actions).state, id, name)
    ensures m < |actions| && Run(s, cap, actions[..m]).Moved?
    ensures Finishes(Run(s, cap, actions[..m]).state, actions[m], name)
    decreases |actions|
  {
    if Finishes(s, actions[0], name) {
      m := 0;
    } else {
      AnnouncedKeepsWaiting(s, cap, actions[0], id, name);
      m := ReturnFollowsTask(Next(s, cap, actions[0]).state, cap, actions[1..], id, name);
      m := m + 1;
      assert actions[..m][1..] == actions[1..][..m - 1];
    }
  }
}
