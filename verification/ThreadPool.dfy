/** The pool's fields and the bodies of its critical sections. */
module ThreadPools {
  import opened Wrappers

  /** A queued closure; the smaller the priority number the sooner it runs. */
  datatype Task = Task(id: nat, priority: int)

  datatype State = Running | Stopping | Stopped

  /** What task_lock_ guards. */
  datatype Core = Core(tasks: seq<Task>, busy: nat, state: State)

  predicate ReadyToStop(c: Core) {
    c.tasks == [] && c.busy == 0
  }

  /** std::priority_queue's top: no queued task is more urgent.  Ties may go either way. */
  predicate IsTop(tasks: seq<Task>, i: nat) {
    i < |tasks| && forall j :: 0 <= j < |tasks| ==> tasks[i].priority <= tasks[j].priority
  }

  function Without(tasks: seq<Task>, i: nat): seq<Task>
    requires i < |tasks|
  {
    tasks[..i] + tasks[i + 1..]
  }

  function Push(c: Core, t: Task): Core {
    c.(tasks := c.tasks + [t])
  }

  function Take(c: Core, i: nat): Core
    requires i < |c.tasks|
  {
    c.(tasks := Without(c.tasks, i), busy := c.busy + 1)
  }

  function BeginStop(c: Core): Core {
    c.(state := if ReadyToStop(c) then Stopped else Stopping)
  }

  function FinishTask(c: Core): Core
    requires c.busy > 0
  {
    var d := c.(busy := c.busy - 1);
    if d.state != Running && ReadyToStop(d) then d.(state := Stopped) else d
  }

  lemma {:induction false} TopExists(tasks: seq<Task>) returns (i: nat)
    requires tasks != []
    ensures IsTop(tasks, i)
  {
    if |tasks| == 1 {
      i := 0;
    } else {
      var rest := tasks[1..];
      var j := TopExists(rest);
      i := if tasks[0].priority <= rest[j].priority then 0 else j + 1;
      forall k | 0 <= k < |tasks| ensures tasks[i].priority <= tasks[k].priority {
        if k > 0 {
          assert tasks[k] == rest[k - 1];
        }
      }
    }
  }

  /** What a worker finds once the wait predicate lets it through. */
  datatype Outcome = Exit | Got(task: Task) | Blocked

  class ThreadPool {
    var tasks: seq<Task>
    var busyThreads: nat
    var state: State

    function Model(): Core
      reads this
    {
      Core(tasks, busyThreads, state)
    }

    constructor ()
      ensures Model() == Core([], 0, Running)
    {
      tasks, busyThreads, state := [], 0, Running;
    }

    /** Returns false where the source's CHECK would abort. */
    method Enqueue(t: Task) returns (ok: bool)
      modifies this
      ensures ok <==> old(state) != Stopped
      ensures Model() == if ok then Push(old(Model()), t) else old(Model())
    {
      if state == Stopped {
        return false;
      }
      tasks := tasks + [t];
      return true;
    }

    /** The first block of Wait. */
    method BeginWait()
      modifies this
      ensures Model() == BeginStop(old(Model()))
    {
      if tasks == [] && busyThreads == 0 {
        state := Stopped;
      } else {
        state := Stopping;
      }
    }

    /** tasks_.top() and tasks_.pop(). */
    method PopTop() returns (task: Task, ghost at: nat)
      requires tasks != []
      modifies this`tasks
      ensures IsTop(old(tasks), at) && task == old(tasks)[at] && tasks == Without(old(tasks), at)
    {
      var best, j := 0, 1;
      while j < |tasks|
        invariant 0 <= best < j <= |tasks|
        invariant forall k :: 0 <= k < j ==> tasks[best].priority <= tasks[k].priority
      {
        if tasks[j].priority < tasks[best].priority {
          best := j;
        }
        j := j + 1;
      }
      task, at := tasks[best], best;
      tasks := tasks[..best] + tasks[best + 1..];
    }

    /** RunWorker from taking the lock to leaving it: the wait predicate, the exit test, the pop. */
    method TakeOrBlock() returns (outcome: Outcome, ghost at: nat)
      modifies this
      ensures outcome == Exit <==> old(state) == Stopped
      ensures outcome == Blocked <==> old(state) != Stopped && old(tasks) == []
      ensures outcome.Got? ==>
                && IsTop(old(tasks), at) && outcome.task == old(tasks)[at]
                && Model() == Take(old(Model()), at)
      ensures !outcome.Got? ==> Model() == old(Model())
    {
      at := 0;
      if state == Stopped {
        return Exit, 0;
      }
      if tasks == [] {
        return Blocked, 0;
      }
      var task, i := PopTop();
      at := i;
      busyThreads := busyThreads + 1;
      return Got(task), at;
    }

    /** RunWorker after the task: returns whether this worker stops the pool, wakes everybody and
        exits. */
    method AfterTask() returns (stopped: bool)
      requires busyThreads > 0
      modifies this
      ensures Model() == FinishTask(old(Model()))
      ensures stopped <==> old(state) != Running && ReadyToStop(FinishTask(old(Model())))
    {
      busyThreads := busyThreads - 1;
      if state != Running && tasks == [] && busyThreads == 0 {
        state := Stopped;
        return true;
      }
      return false;
    }
  }
}
