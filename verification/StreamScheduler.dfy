/** The hand-off of streaming contexts from the main loop to the stream threads,
    as a transition system.  One step is what an agent does between two points
    at which another agent can interfere: acquiring a mutex, running a critical
    section and releasing it, notifying a condition variable, or calling a
    context's `run` / `need_handler`. */
module StreamScheduler {
  import opened MachineWords
  import opened Sequences

  /** The address of a heap-allocated stream context.  An address may be reused
      once the context that lived there has been deleted. */
  type Ctx = nat
  type Guild = nat

  datatype Agent = Main | Worker(id: nat)

  datatype Record = Record(guild: Guild, handled: bool)

  /** The most pointers a `std::vector<stream_ctx *>` can hold. */
  const MAX_CONTEXTS: nat := 0x0FFF_FFFF_FFFF_FFFF

  /** What `notify_work` did with a context.  `first` and `second` are the loads
      it read in its two scans, thread by thread; they are history, no branch
      depends on them. */
  datatype Handoff =
    | To(thread: nat, first: seq<nat>, second: seq<nat>)
    | Nobody(first: seq<nat>, second: seq<nat>)

  /** Where main stands.  From `Visit` on it holds the mutex of `stream_ctxs`;
      `i` indexes the context under consideration.  The next thread to be
      scanned is the one at the length of the readings so far. */
  datatype MainPc =
    | Outside
    | WantContexts
    | Visit(i: nat)
    | First(i: nat, max: nat, min: nat, first: seq<nat>)
    | FirstLocked(i: nat, max: nat, min: nat, first: seq<nat>)
    | Second(i: nat, max: nat, first: seq<nat>, second: seq<nat>)
    | SecondLocked(i: nat, max: nat, first: seq<nat>, second: seq<nat>)
    | Notify(i: nat, handoff: Handoff)
    | MarkHandled(i: nat, handoff: Handoff)

  /** Where a stream thread stands.  `Taking` and `Woken` hold its own mutex,
      `Erasing` and `Returning` hold that of `stream_ctxs`. */
  datatype WorkerPc =
    | Loop | Taking | Asleep | Waking | Woken
    | Serving | Polling | WantErase | Erasing | WantReturn | Returning

  /** `batch` is the part of `processing_ctxs` not yet finished. */
  datatype Thread = Thread(lock: Mutex, inbox: seq<Ctx>, size: nat, batch: seq<Ctx>, pc: WorkerPc)

  datatype Mutex = Free | HeldBy(agent: Agent)

  datatype State = State(
    heap: map<Ctx, Record>,
    contexts: seq<Ctx>,
    lock: Mutex,
    main: MainPc,
    threads: seq<Thread>)

  /** `need` and `done` stand for the results of the context's methods, which
      depend on the voice client and the decoder: `need_handler () != 0` for
      main; for a thread, `run () != 0` when it is serving a context and
      `need_handler () == 0` when it polls one. */
  datatype Action =
    | MainStep(need: bool)
    | WorkerStep(k: nat, done: bool)
    | SpuriousWake(k: nat)
    | Submit(guild: Guild, address: Ctx)

  /** `Fault` is a read or write through a pointer to a deleted context. */
  datatype Outcome = Blocked | Fault | Moved(state: State)

  const IDLE_THREAD := Thread(Free, [], 0, [], Loop)

  function Init(count: nat): State {
    State(map[], [], Free, Outside, seq(count, _ => IDLE_THREAD))
  }

  function SetThread(s: State, k: nat, t: Thread): State
    requires k < |s.threads|
  {
    s.(threads := s.threads[k := t])
  }

  /** The load that the second scan avoids. */
  function Avoid(max: nat, min: nat): nat {
    if max == min then max + 1 else max
  }

  /** `check_stream_contexts`, around its call of `notify_work`. */
  function CheckStep(s: State, need: bool): Outcome
    requires s.main.Outside? || s.main.WantContexts? || s.main.Visit? || s.main.MarkHandled?
  {
    match s.main
    case Outside => Moved(s.(main := WantContexts))
    case WantContexts =>
      if s.lock.Free? then Moved(s.(lock := HeldBy(Main), main := Visit(0))) else Blocked
    case Visit(i) =>
      if i >= |s.contexts| then Moved(s.(lock := Free, main := Outside))
      else if s.contexts[i] !in s.heap then Fault
      else if s.heap[s.contexts[i]].handled || !need then Moved(s.(main := Visit(i + 1)))
      else Moved(s.(main := First(i, 0, SIZE_MAX, [])))
    case MarkHandled(i, _) =>
      if i >= |s.contexts| || s.contexts[i] !in s.heap then Fault
      else
        var c := s.contexts[i];
        Moved(s.(heap := s.heap[c := s.heap[c].(handled := true)], main := Visit(i + 1)))
  }

  /** The critical section in which main pushes the context it considers to
      thread `k`. */
  function Push(s: State, k: nat, h: Handoff): State
    requires k < |s.threads| && (s.main.FirstLocked? || s.main.SecondLocked?) && s.main.i < |s.contexts|
  {
    SetThread(s, k, s.threads[k].(lock := Free, inbox := s.threads[k].inbox + [s.contexts[s.main.i]]))
    .(main := Notify(s.main.i, h))
  }

  /** The critical section in which main only reads the load of thread `k`. */
  function Read(s: State, k: nat, next: MainPc): State
    requires k < |s.threads|
  {
    SetThread(s, k, s.threads[k].(lock := Free)).(main := next)
  }

  function LockThread(s: State, k: nat, next: MainPc): Outcome
    requires k < |s.threads|
  {
    if s.threads[k].lock.Free? then Moved(SetThread(s, k, s.threads[k].(lock := HeldBy(Main))).(main := next))
    else Blocked
  }

  /** The first scan of `notify_work`: an idle thread gets the context. */
  function FirstScanStep(s: State): Outcome
    requires s.main.First? || s.main.FirstLocked?
  {
    match s.main
    case First(i, max, min, first) =>
      if |first| >= |s.threads| then Moved(s.(main := Second(i, Avoid(max, min), first, [])))
      else LockThread(s, |first|, FirstLocked(i, max, min, first))
    case FirstLocked(i, max, min, first) =>
      if i >= |s.contexts| || |first| >= |s.threads| then Fault
      else
        var size := s.threads[|first|].size;
        if size == 0 then Moved(Push(s, |first|, To(|first|, first + [0], [])))
        else Moved(Read(s, |first|, First(i, if max < size then size else max,
                                          if min > size then size else min, first + [size])))
  }

  /** The second scan: a thread whose load is not the one avoided gets it. */
  function SecondScanStep(s: State): Outcome
    requires s.main.Second? || s.main.SecondLocked?
  {
    match s.main
    case Second(i, max, first, second) =>
      if |second| >= |s.threads| then Moved(s.(main := MarkHandled(i, Nobody(first, second))))
      else LockThread(s, |second|, SecondLocked(i, max, first, second))
    case SecondLocked(i, max, first, second) =>
      if i >= |s.contexts| || |second| >= |s.threads| then Fault
      else
        var size := s.threads[|second|].size;
        if size == max then Moved(Read(s, |second|, Second(i, max, first, second + [size])))
        else Moved(Push(s, |second|, To(|second|, first, second + [size])))
  }

  function Wake(s: State, k: nat): State
    requires k < |s.threads|
  {
    SetThread(s, k, s.threads[k].(pc := Waking))
  }

  /** `t_cv.notify_one`: without a waiter it has no effect. */
  function NotifyStep(s: State): Outcome
    requires s.main.Notify?
  {
    var h := s.main.handoff;
    if !h.To? || h.thread >= |s.threads| then Fault
    else
      var s' := if s.threads[h.thread].pc.Asleep? then Wake(s, h.thread) else s;
      Moved(s'.(main := MarkHandled(s.main.i, h)))
  }

  function MainStepOf(s: State, need: bool): Outcome {
    if s.main.First? || s.main.FirstLocked? then FirstScanStep(s)
    else if s.main.Second? || s.main.SecondLocked? then SecondScanStep(s)
    else if s.main.Notify? then NotifyStep(s)
    else CheckStep(s, need)
  }

  /** The index of the first listed context of guild `g`, or the length of the
      list. */
  function IndexOfGuild(heap: map<Ctx, Record>, list: seq<Ctx>, g: Guild): (i: nat)
    requires forall c | c in list :: c in heap
    ensures i <= |list|
    ensures i < |list| ==> heap[list[i]].guild == g
    ensures forall j | 0 <= j < i :: heap[list[j]].guild != g
  {
    if list == [] then 0
    else if heap[list[0]].guild == g then 0
    else 1 + IndexOfGuild(heap, list[1..], g)
  }

  /** `erase_ctx_unlocked`: deletes the first context of the guild, if any. */
  function EraseGuild(s: State, g: Guild): State
    requires forall c | c in s.contexts :: c in s.heap
  {
    var i := IndexOfGuild(s.heap, s.contexts, g);
    if i == |s.contexts| then s
    else s.(heap := s.heap - {s.contexts[i]}, contexts := Erase(s.contexts, i))
  }

  /** A thread outside its batch. */
  predicate Resting(pc: WorkerPc) {
    pc.Loop? || pc.Taking? || pc.Asleep? || pc.Waking? || pc.Woken?
  }

  /** A stream thread fetching work under its own mutex. */
  function FetchStep(s: State, k: nat): Outcome
    requires k < |s.threads| && Resting(s.threads[k].pc)
  {
    var t := s.threads[k];
    match t.pc
    case Loop =>
      if t.lock.Free? then Moved(SetThread(s, k, t.(lock := HeldBy(Worker(k)), pc := Taking))) else Blocked
    case Taking =>
      if t.inbox == [] then Moved(SetThread(s, k, t.(lock := Free, size := 0, batch := [], pc := Asleep)))
      else Moved(SetThread(s, k, t.(lock := Free, size := |t.inbox|, batch := t.inbox, inbox := [], pc := Serving)))
    case Asleep => Blocked
    case Waking =>
      if t.lock.Free? then Moved(SetThread(s, k, t.(lock := HeldBy(Worker(k)), pc := Woken))) else Blocked
    case Woken => Moved(SetThread(s, k, t.(lock := Free, pc := Loop)))
  }

  /** A stream thread running and polling the first context of its batch. */
  function ServeStep(s: State, k: nat, done: bool): Outcome
    requires k < |s.threads| && (s.threads[k].pc.Serving? || s.threads[k].pc.Polling?)
  {
    var t := s.threads[k];
    if t.pc.Serving? && t.batch == [] then Moved(SetThread(s, k, t.(pc := Loop)))
    else if t.batch == [] || t.batch[0] !in s.heap then Fault
    else if t.pc.Serving? then Moved(SetThread(s, k, t.(pc := if done then WantErase else Polling)))
    else Moved(SetThread(s, k, t.(pc := if done then WantReturn else Serving)))
  }

  /** Thread `k` leaves the critical section in which it settled the first
      context of its batch. */
  function Settle(s: State, k: nat): State
    requires k < |s.threads| && s.threads[k].batch != []
  {
    SetThread(s, k, s.threads[k].(batch := s.threads[k].batch[1..], pc := Serving)).(lock := Free)
  }

  /** A stream thread entering and running its critical section on the
      contexts: erase the context, or make it available to main again. */
  function SettleStep(s: State, k: nat): Outcome
    requires k < |s.threads| && !Resting(s.threads[k].pc) && !s.threads[k].pc.Serving? && !s.threads[k].pc.Polling?
  {
    var t := s.threads[k];
    match t.pc
    case WantErase =>
      if s.lock.Free? then Moved(SetThread(s, k, t.(pc := Erasing)).(lock := HeldBy(Worker(k)))) else Blocked
    case WantReturn =>
      if s.lock.Free? then Moved(SetThread(s, k, t.(pc := Returning)).(lock := HeldBy(Worker(k)))) else Blocked
    case Erasing =>
      if t.batch == [] || t.batch[0] !in s.heap || (exists c | c in s.contexts :: c !in s.heap) then Fault
      else Moved(Settle(EraseGuild(s, s.heap[t.batch[0]].guild), k))
    case Returning =>
      if t.batch == [] || t.batch[0] !in s.heap then Fault
      else
        var c := t.batch[0];
        Moved(Settle(s.(heap := s.heap[c := s.heap[c].(handled := false)]), k))
  }

  function WorkerStepOf(s: State, k: nat, done: bool): Outcome
    requires k < |s.threads|
  {
    var pc := s.threads[k].pc;
    if pc.Serving? || pc.Polling? then ServeStep(s, k, done)
    else if pc.WantErase? || pc.WantReturn? || pc.Erasing? || pc.Returning? then SettleStep(s, k)
    else FetchStep(s, k)
  }

  /** `submit_stream_ctx`, one critical section on `stream_ctxs`: throws when the
      guild already has a context, else lists a new one at a free address. */
  function SubmitOf(s: State, g: Guild, address: Ctx): Outcome {
    if !s.lock.Free? || address in s.heap || |s.contexts| >= MAX_CONTEXTS then Blocked
    else if exists c | c in s.contexts :: c !in s.heap then Fault
    else if IndexOfGuild(s.heap, s.contexts, g) < |s.contexts| then Moved(s)
    else Moved(s.(heap := s.heap[address := Record(g, false)], contexts := s.contexts + [address]))
  }

  function Next(s: State, a: Action): Outcome {
    match a
    case MainStep(need) => MainStepOf(s, need)
    case WorkerStep(k, done) => if k < |s.threads| then WorkerStepOf(s, k, done) else Blocked
    case SpuriousWake(k) =>
      if k < |s.threads| && s.threads[k].pc.Asleep? then Moved(Wake(s, k))
      else Blocked
    case Submit(g, address) => SubmitOf(s, g, address)
  }

  /** The state after a whole run, or how the run failed. */
  function Run(s: State, actions: seq<Action>): Outcome
    decreases |actions|
  {
    if actions == [] then Moved(s)
    else
      match Next(s, actions[0])
      case Moved(s') => Run(s', actions[1..])
      case failure => failure
  }

  ghost predicate Reachable(count: nat, s: State) {
    exists actions :: Run(Init(count), actions) == Moved(s)
  }
}
