/** The pool with its threads: an interleaving of the critical sections, sleeps and notifies of n
    workers, whose tasks may enqueue tasks, and of the one outside thread that enqueues and then
    waits. */
module PoolModel {
  import opened Wrappers
  import opened ThreadPools

  /** AtLock: about to evaluate the wait predicate under the lock.  Working: outside the lock, in a
      task.  Notifying: that task has enqueued and owes notify_one. */
  datatype Worker = AtLock | Asleep | Working(task: Task) | Notifying(task: Task) | Exited

  datatype Outside = Enqueuing | OwesOne | OwesAll | Joining | Returned

  /** nextId numbers the tasks in order of enqueueing; finished lists them in order of completion;
      crashed records a failed CHECK. */
  datatype Pool = Pool(
    core: Core,
    workers: seq<Worker>,
    outside: Outside,
    nextId: nat,
    finished: seq<nat>,
    crashed: bool)

  datatype Step =
    | OutsideEnqueue(priority: int)
    | OutsideNotify(woken: Option<nat>)
    | Wait
    | NotifyAll
    | Join
    | TakeTask(w: nat, at: nat)
    | TaskEnqueue(w: nat, priority: int)
    | TaskNotify(w: nat, woken: Option<nat>)
    | Finish(w: nat)
    | SpuriousWakeup(w: nat)

  predicate WorkerIs(s: Pool, w: nat, state: Worker) {
    w < |s.workers| && s.workers[w] == state
  }

  predicate MayWake(s: Pool, woken: Option<nat>) {
    match woken
    case Some(w) => WorkerIs(s, w, Asleep)
    case None => Asleep !in s.workers
  }

  predicate Enabled(s: Pool, t: Step) {
    match t
    case OutsideEnqueue(_) => s.outside == Enqueuing
    case OutsideNotify(woken) => s.outside == OwesOne && MayWake(s, woken)
    case Wait => s.outside == Enqueuing
    case NotifyAll => s.outside == OwesAll
    case Join => s.outside == Joining && forall w :: 0 <= w < |s.workers| ==> s.workers[w] == Exited
    case TakeTask(w, at) =>
      && WorkerIs(s, w, AtLock)
      && (s.core.state != Stopped && s.core.tasks != [] ==> IsTop(s.core.tasks, at))
    case TaskEnqueue(w, _) => w < |s.workers| && s.workers[w].Working?
    case TaskNotify(w, woken) => w < |s.workers| && s.workers[w].Notifying? && MayWake(s, woken)
    case Finish(w) => w < |s.workers| && s.workers[w].Working? && s.core.busy > 0
    case SpuriousWakeup(w) => WorkerIs(s, w, Asleep)
  }

  function Wake(workers: seq<Worker>, woken: Option<nat>): seq<Worker>
    requires woken.Some? ==> woken.value < |workers|
  {
    if woken.Some? then workers[woken.value := AtLock] else workers
  }

  function Awoken(w: Worker): Worker {
    if w == Asleep then AtLock else w
  }

  function WakeAll(workers: seq<Worker>): (r: seq<Worker>)
    ensures |r| == |workers| && forall w :: 0 <= w < |r| ==> r[w] == Awoken(workers[w])
  {
    seq(|workers|, w requires 0 <= w < |workers| => Awoken(workers[w]))
  }

  /** Enqueue: aborts on a stopped pool. */
  function Enqueued(s: Pool, priority: int): Pool {
    if s.core.state == Stopped then s.(crashed := true)
    else s.(core := Push(s.core, Task(s.nextId, priority)), nextId := s.nextId + 1)
  }

  function Next(s: Pool, t: Step): Pool
    requires Enabled(s, t)
  {
    match t
    case OutsideEnqueue(p) => Enqueued(s, p).(outside := OwesOne)
    case OutsideNotify(woken) => s.(workers := Wake(s.workers, woken), outside := Enqueuing)
    case Wait => s.(core := BeginStop(s.core), outside := OwesAll)
    case NotifyAll => s.(workers := WakeAll(s.workers), outside := Joining)
    case Join => s.(outside := Returned)
    case TakeTask(w, at) =>
      if s.core.state == Stopped then
        s.(workers := s.workers[w := Exited], crashed := s.crashed || s.core.tasks != [])
      else if s.core.tasks == [] then s.(workers := s.workers[w := Asleep])
      else s.(core := Take(s.core, at), workers := s.workers[w := Working(s.core.tasks[at])])
    case TaskEnqueue(w, p) =>
      var r := Enqueued(s, p);
      r.(workers := s.workers[w := Notifying(s.workers[w].task)])
    case TaskNotify(w, woken) =>
      s.(workers := Wake(s.workers[w := Working(s.workers[w].task)], woken))
    case Finish(w) =>
      var core := FinishTask(s.core);
      var r := s.(core := core, finished := s.finished + [s.workers[w].task.id]);
      if s.core.state != Running && ReadyToStop(core) then r.(workers := WakeAll(s.workers[w := Exited]))
      else r.(workers := s.workers[w := AtLock])
    case SpuriousWakeup(w) => s.(workers := s.workers[w := AtLock])
  }

  function Start(workers: nat): Pool {
    Pool(Core([], 0, Running), seq(workers, _ => AtLock), Enqueuing, 0, [], false)
  }

  predicate Legal(s: Pool, ts: seq<Step>)
    decreases |ts|
  {
    ts == [] || (Enabled(s, ts[0]) && Legal(Next(s, ts[0]), ts[1..]))
  }

  function After(s: Pool, ts: seq<Step>): Pool
    requires Legal(s, ts)
    decreases |ts|
  {
    if ts == [] then s else After(Next(s, ts[0]), ts[1..])
  }
}
