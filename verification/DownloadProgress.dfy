/** What the download queue gets done: files are started in the order in which they
    were submitted, whenever the cap allows it, and their waiters come back. */
module DownloadProgress {
  import opened DownloadQueue

  lemma RunThen(s: State, cap: int, a: Action, rest: seq<Action>)
    requires Next(s, cap, a).Moved?
    ensures Run(s, cap, [a] + rest) == Run(Next(s, cap, a).state, cap, rest)
  {
    assert ([a] + rest)[1..] == rest;
  }

  lemma Run1(s: State, cap: int, a: Action)
    requires Next(s, cap, a).Moved?
    ensures Run(s, cap, [a]) == Next(s, cap, a)
  {
    RunThen(s, cap, a, []);
    assert [a] + [] == [a];
  }

  lemma Run2(s: State, cap: int, a: Action, b: Action)
    requires Next(s, cap, a).Moved? && Next(Next(s, cap, a).state, cap, b).Moved?
    ensures Run(s, cap, [a, b]) == Next(Next(s, cap, a).state, cap, b)
  {
    RunThen(s, cap, a, [b]);
    Run1(Next(s, cap, a).state, cap, b);
    assert [a] + [b] == [a, b];
  }

  lemma Run3(s: State, cap: int, a: Action, b: Action, c: Action)
    requires Next(s, cap, a).Moved? && Next(Next(s, cap, a).state, cap, b).Moved?
    requires Next(Next(Next(s, cap, a).state, cap, b).state, cap, c).Moved?
    ensures Run(s, cap, [a, b, c]) == Next(Next(Next(s, cap, a).state, cap, b).state, cap, c)
  {
    RunThen(s, cap, a, [b, c]);
    Run2(Next(s, cap, a).state, cap, b, c);
    assert [a] + [b, c] == [a, b, c];
  }

  /** One call of `check_download_queue` starts the first file in the queue exactly when
      fewer than `cap` downloads are running and there is one; else it changes
      nothing. */
  lemma StartsExactly(s: State, cap: int, task: nat)
    requires s.main.Idle? && task !in s.tasks
    ensures s.running < cap && s.queue != [] ==>
              Run(s, cap, [MainStep(task), MainStep(task), MainStep(task)])
              == Moved(s.(running := s.running + 1, queue := s.queue[1..],
                          tasks := s.tasks[task := Task(s.queue[0], Working)]))
    ensures s.running < cap && s.queue == [] ==> Run(s, cap, [MainStep(task), MainStep(task)]) == Moved(s)
    ensures s.running >= cap ==> Run(s, cap, [MainStep(task)]) == Moved(s)
  {
    var a := MainStep(task);
    if s.running >= cap {
      Run1(s, cap, a);
    } else if s.queue == [] {
      Run2(s, cap, a, a);
    } else {
      Run3(s, cap, a, a, a);
    }
  }

  /** A submission announces its file and puts it last. */
  lemma SubmittedGoesLast(s: State, cap: int, name: Name)
    ensures Run(s, cap, [Announce(name), Enqueue(name)])
         == Moved(s.(waiting := s.waiting + {name}, queue := s.queue + [name]))
  {
    Run2(s, cap, Announce(name), Enqueue(name));
    assert s.submitters + multiset{name} - multiset{name} == s.submitters;
  }

  // ------------------------------------------------------------ first in, first out

  /** The file that a step puts into the queue, if any. */
  function Puts(a: Action): seq<Name> {
    if a.Enqueue? then [a.name] else []
  }

  /** The file whose task a step brings about, if any. */
  function Starts(s: State, cap: int, a: Action): seq<Name>
    requires Next(s, cap, a).Moved?
  {
    var e := Next(s, cap, a).state;
    if a.MainStep? && a.task !in s.tasks && a.task in e.tasks then [e.tasks[a.task].name] else []
  }

  /** The files that a run puts into the queue, in order. */
  function Enqueued(actions: seq<Action>): seq<Name> {
    if actions == [] then [] else Puts(actions[0]) + Enqueued(actions[1..])
  }

  /** The files whose tasks appear along a run, in order. */
  function Started(s: State, cap: int, actions: seq<Action>): seq<Name>
    requires Run(s, cap, actions).Moved?
    decreases |actions|
  {
    if actions == [] then []
    else Starts(s, cap, actions[0]) + Started(Next(s, cap, actions[0]).state, cap, actions[1..])
  }

  /** The files still to be started: the one being started, and the queue. */
  function Outstanding(s: State): seq<Name> {
    (if s.main.Spawning? then [s.main.name] else []) + s.queue
  }

  lemma MainKeepsOrder(s: State, cap: int, task: nat)
    requires MainNext(s, cap, task).Moved?
    ensures Outstanding(s) == Starts(s, cap, MainStep(task)) + Outstanding(MainNext(s, cap, task).state)
  {
    if s.main.Spawning? {
      assert [s.main.name] + ([] + s.queue) == [s.main.name] + s.queue;
    }
  }

  lemma StepKeepsOrder(s: State, cap: int, a: Action)
    requires Next(s, cap, a).Moved?
    ensures Outstanding(s) + Puts(a) == Starts(s, cap, a) + Outstanding(Next(s, cap, a).state)
  {
    if a.MainStep? {
      MainKeepsOrder(s, cap, a.task);
    }
  }

  /** Along every run, files are started in exactly the order in which they were put
      into the queue, none left out and none twice as often. */
  lemma {:induction false} FirstInFirstOut(s: State, cap: int, actions: seq<Action>)
    requires Run(s, cap, actions).Moved?
    ensures Outstanding(s) + Enqueued(actions)
         == Started(s, cap, actions) + Outstanding(Run(s, cap, actions).state)
    decreases |actions|
  {
    if actions != [] {
      var a, rest := actions[0], actions[1..];
      StepKeepsOrder(s, cap, a);
      var s1 := Next(s, cap, a).state;
      FirstInFirstOut(s1, cap, rest);
      Regroup(Outstanding(s), Puts(a), Enqueued(rest), Starts(s, cap, a), Outstanding(s1),
              Started(s1, cap, rest), Outstanding(Run(s1, cap, rest).state));
    }
  }

  lemma Regroup(o: seq<Name>, e: seq<Name>, es: seq<Name>, t: seq<Name>, o1: seq<Name>, ts: seq<Name>, o2: seq<Name>)
    requires o + e == t + o1 && o1 + es == ts + o2
    ensures o + (e + es) == (t + ts) + o2
  {
    assert o + (e + es) == (o + e) + es;
    assert (t + o1) + es == t + (o1 + es);
    assert t + (ts + o2) == (t + ts) + o2;
  }

  // --------------------------------------------------------------------- tasks

  /** A task takes its three steps whatever else goes on; they end the announcement of
      its file and of no other, wake every sleeper and make room for another task. */
  lemma TaskFinishes(s: State, cap: int, id: nat)
    requires id in s.tasks && s.tasks[id].pc == Working
    ensures Run(s, cap, [TaskErases(id), TaskNotifies(id), TaskEnds(id)]).Moved?
    ensures var e := Run(s, cap, [TaskErases(id), TaskNotifies(id), TaskEnds(id)]).state;
            && e.waiting == s.waiting - {s.tasks[id].name}
            && e.running == s.running - 1 && e.tasks == s.tasks - {id}
            && e.queue == s.queue && e.main == s.main && e.submitters == s.submitters
            && e.waiters.Keys == s.waiters.Keys
            && forall w | w in s.waiters ::
                 e.waiters[w] == if s.waiters[w].pc == Asleep then Waiter(s.waiters[w].name, Woken) else s.waiters[w]
  {
    var task := s.tasks[id];
    var s1 := s.(waiting := s.waiting - {task.name}, tasks := s.tasks[id := task.(pc := Erased)]);
    assert Next(s, cap, TaskErases(id)) == Moved(s1);
    Run3(s, cap, TaskErases(id), TaskNotifies(id), TaskEnds(id));
    assert s.tasks[id := task.(pc := Erased)][id := task.(pc := Notified)] - {id} == s.tasks - {id};
  }

  /** A waiter goes to sleep exactly when its file is announced, at first and whenever
      it wakes up; else it returns.  It may also wake with no notification. */
  lemma WaitsExactly(s: State, cap: int, w: nat, name: Name)
    ensures w !in s.waiters ==>
              var o := Next(s, cap, StartsWaiting(w, name));
              && o.Moved? && w in o.state.waiters
              && o.state.waiters[w] == Waiter(name, if name in s.waiting then Asleep else Returned)
    ensures w in s.waiters && s.waiters[w] == Waiter(name, Woken) ==>
              var o := Next(s, cap, Rechecks(w));
              && o.Moved? && w in o.state.waiters
              && o.state.waiters[w] == Waiter(name, if name in s.waiting then Asleep else Returned)
    ensures w in s.waiters && s.waiters[w] == Waiter(name, Asleep) ==>
              Next(s, cap, SpuriousWake(w)) == Moved(s.(waiters := s.waiters[w := Waiter(name, Woken)]))
  {
  }

  /** So whoever sleeps on the file of a task comes back once that task is through. */
  lemma WaiterComesBack(s: State, cap: int, id: nat, w: nat)
    requires id in s.tasks && s.tasks[id].pc == Working
    requires w in s.waiters && s.waiters[w] == Waiter(s.tasks[id].name, Asleep)
    ensures var o := Run(s, cap, [TaskErases(id), TaskNotifies(id), TaskEnds(id)] + [Rechecks(w)]);
            o.Moved? && w in o.state.waiters && o.state.waiters[w].pc == Returned
  {
    TaskFinishes(s, cap, id);
    var three := [TaskErases(id), TaskNotifies(id), TaskEnds(id)];
    var e := Run(s, cap, three).state;
    Run1(e, cap, Rechecks(w));
    RunAppend(s, cap, three, [Rechecks(w)]);
  }

  lemma {:induction false} RunAppend(s: State, cap: int, a: seq<Action>, b: seq<Action>)
    requires Run(s, cap, a).Moved?
    ensures Run(s, cap, a + b) == Run(Run(s, cap, a).state, cap, b)
    decreases |a|
  {
    if a == [] {
      assert a + b == b;
    } else {
      assert (a + b)[1..] == a[1..] + b;
      RunAppend(Next(s, cap, a[0]).state, cap, a[1..], b);
    }
  }
}
