/** What holds in every run of the pool: conservation of tasks, the Running/Stopping/Stopped protocol, no
    lost wakeup, progress, and what Wait promises. */
module PoolRuns {
  import opened Wrappers
  import opened Sequences
  import opened ThreadPools
  import opened PoolModel
  import opened PoolCounts

  // Invariants

  /** Every task enqueued so far is in one place: queued, held by a worker, or finished. */
  predicate Conserved(s: Pool, id: nat) {
    QueueCount(s.core.tasks, id) + HoldCount(s.workers, id) + FinishCount(s.finished, id)
    == if id < s.nextId then 1 else 0
  }

  predicate Awake(w: Worker) {
    w != Asleep && w != Exited
  }

  predicate StateInv(s: Pool) {
    && s.core.busy == BusyCount(s.workers)
    && (s.core.state == Stopped ==> ReadyToStop(s.core))
    && (s.core.state == Stopping ==> !ReadyToStop(s.core))
    && (s.core.state == Running <==> s.outside == Enqueuing || s.outside == OwesOne)
    && !s.crashed
  }

  /** A queued task always has somebody on the way to it, and a stopped pool lets nobody sleep
      unnoticed. */
  predicate WakeInv(s: Pool) {
    && (s.core.tasks != [] ==>
          s.outside == OwesOne || s.outside == OwesAll ||
          exists w :: 0 <= w < |s.workers| && Awake(s.workers[w]))
    && (s.core.state == Stopped && s.outside != OwesAll ==> Asleep !in s.workers)
    && (Exited in s.workers ==> s.core.state == Stopped)
    && (s.outside == Returned ==> forall w :: 0 <= w < |s.workers| ==> s.workers[w] == Exited)
  }

  ghost predicate PoolInv(s: Pool) {
    |s.workers| > 0 && StateInv(s) && WakeInv(s) && forall id :: Conserved(s, id)
  }

  lemma {:induction false} StartCounts(workers: seq<Worker>, id: nat)
    requires forall w :: 0 <= w < |workers| ==> workers[w] == AtLock
    ensures BusyCount(workers) == 0 && HoldCount(workers, id) == 0
    decreases |workers|
  {
    if workers == [] {
    } else {
      StartCounts(workers[1..], id);
    }
  }

  lemma StartInv(workers: nat)
    requires workers > 0
    ensures PoolInv(Start(workers))
  {
    forall id ensures Conserved(Start(workers), id) {
      StartCounts(Start(workers).workers, id);
    }
    StartCounts(Start(workers).workers, 0);
  }

  lemma BusyIsNotIdle(s: Pool, w: nat)
    requires PoolInv(s) && w < |s.workers| && Busy(s.workers[w])
    ensures s.core.busy > 0 && s.core.state != Stopped
  {
    BusyWitness(s.workers);
  }

  lemma ConservedTake(s: Pool, w: nat, at: nat, id: nat)
    requires Conserved(s, id) && Enabled(s, TakeTask(w, at))
    ensures Conserved(Next(s, TakeTask(w, at)), id)
  {
    CountsUpdate(s.workers, w, Next(s, TakeTask(w, at)).workers[w], id);
    if s.core.state != Stopped && s.core.tasks != [] {
      QueueRemove(s.core.tasks, at, id);
    }
  }

  lemma ConservedEnqueue(s: Pool, w: nat, p: int, id: nat)
    requires PoolInv(s) && Enabled(s, TaskEnqueue(w, p))
    ensures Conserved(Next(s, TaskEnqueue(w, p)), id)
  {
    assert Conserved(s, id) && Conserved(s, s.nextId);
    BusyIsNotIdle(s, w);
    QueueAppend(s.core.tasks, Task(s.nextId, p), id);
    CountsUpdate(s.workers, w, Notifying(s.workers[w].task), id);
  }

  lemma ConservedNotify(s: Pool, w: nat, woken: Option<nat>, id: nat)
    requires Conserved(s, id) && Enabled(s, TaskNotify(w, woken))
    ensures Conserved(Next(s, TaskNotify(w, woken)), id)
  {
    var working := s.workers[w := Working(s.workers[w].task)];
    CountsUpdate(s.workers, w, Working(s.workers[w].task), id);
    if woken.Some? { CountsUpdate(working, woken.value, AtLock, id); }
  }

  lemma ConservedFinish(s: Pool, w: nat, id: nat)
    requires Conserved(s, id) && Enabled(s, Finish(w))
    ensures Conserved(Next(s, Finish(w)), id)
  {
    FinishAppend(s.finished, s.workers[w].task.id, id);
    CountsUpdate(s.workers, w, Exited, id);
    CountsUpdate(s.workers, w, AtLock, id);
    CountsWakeAll(s.workers[w := Exited], id);
  }

  lemma ConservedNext(s: Pool, t: Step, id: nat)
    requires PoolInv(s) && Enabled(s, t)
    ensures Conserved(Next(s, t), id)
  {
    assert Conserved(s, id) && Conserved(s, s.nextId);
    match t
    case OutsideEnqueue(p) => QueueAppend(s.core.tasks, Task(s.nextId, p), id);
    case OutsideNotify(woken) =>
      if woken.Some? { CountsUpdate(s.workers, woken.value, AtLock, id); }
    case NotifyAll => CountsWakeAll(s.workers, id);
    case TakeTask(w, at) => ConservedTake(s, w, at, id);
    case TaskEnqueue(w, p) => ConservedEnqueue(s, w, p, id);
    case TaskNotify(w, woken) => ConservedNotify(s, w, woken, id);
    case Finish(w) => ConservedFinish(s, w, id);
    case SpuriousWakeup(w) => CountsUpdate(s.workers, w, AtLock, id);
    case _ =>
  }

  lemma StateNext(s: Pool, t: Step)
    requires PoolInv(s) && Enabled(s, t)
    ensures StateInv(Next(s, t))
  {
    match t
    case OutsideNotify(woken) =>
      if woken.Some? { CountsUpdate(s.workers, woken.value, AtLock, 0); }
    case NotifyAll => CountsWakeAll(s.workers, 0);
    case TakeTask(w, at) => CountsUpdate(s.workers, w, Next(s, t).workers[w], 0);
    case TaskEnqueue(w, p) =>
      BusyIsNotIdle(s, w);
      CountsUpdate(s.workers, w, Notifying(s.workers[w].task), 0);
    case TaskNotify(w, woken) =>
      var working := s.workers[w := Working(s.workers[w].task)];
      CountsUpdate(s.workers, w, Working(s.workers[w].task), 0);
      if woken.Some? { CountsUpdate(working, woken.value, AtLock, 0); }
    case Finish(w) =>
      BusyIsNotIdle(s, w);
      CountsUpdate(s.workers, w, Exited, 0);
      CountsUpdate(s.workers, w, AtLock, 0);
      CountsWakeAll(s.workers[w := Exited], 0);
    case SpuriousWakeup(w) => CountsUpdate(s.workers, w, AtLock, 0);
    case _ =>
  }

  lemma WakeNext(s: Pool, t: Step)
    requires PoolInv(s) && Enabled(s, t)
    ensures WakeInv(Next(s, t))
  {
    var r := Next(s, t);
    match t
    case OutsideEnqueue(_) =>
    case OutsideNotify(woken) =>
      if woken.Some? {
        assert r.workers[woken.value] == AtLock && Awake(r.workers[woken.value]);
      } else {
        assert s.workers[0] in s.workers;
        assert Awake(r.workers[0]);
      }
    case Wait =>
    case NotifyAll =>
      assert s.workers[0] in s.workers;
      assert r.workers[0] == Awoken(s.workers[0]);
    case Join => assert s.workers[0] in s.workers;
    case TakeTask(w, _) =>
      if s.core.state != Stopped && s.core.tasks != [] {
        assert Awake(r.workers[w]);
      }
    case TaskEnqueue(w, _) =>
      BusyIsNotIdle(s, w);
      assert Awake(r.workers[w]);
    case TaskNotify(w, woken) =>
      BusyIsNotIdle(s, w);
      assert Awake(r.workers[w]);
    case Finish(w) =>
      BusyIsNotIdle(s, w);
      if r.core.state != Stopped {
        assert Awake(r.workers[w]);
      }
    case SpuriousWakeup(w) => assert Awake(r.workers[w]);
  }

  lemma PoolInvNext(s: Pool, t: Step)
    requires PoolInv(s) && Enabled(s, t)
    ensures PoolInv(Next(s, t))
  {
    StateNext(s, t);
    WakeNext(s, t);
    forall id ensures Conserved(Next(s, t), id) {
      ConservedNext(s, t, id);
    }
  }

  lemma {:induction false} PoolInvRun(s: Pool, ts: seq<Step>)
    requires PoolInv(s) && Legal(s, ts)
    ensures PoolInv(After(s, ts))
    decreases |ts|
  {
    if ts == [] {
    } else {
      PoolInvNext(s, ts[0]);
      PoolInvRun(Next(s, ts[0]), ts[1..]);
    }
  }

  // What Wait promises

  /** In every interleaving: no CHECK fails, and once Wait has returned every task, also one
      enqueued by a task, has run exactly once. */
  lemma WaitReturnsWhenAllDone(workers: nat, ts: seq<Step>, id: nat)
    requires workers > 0 && Legal(Start(workers), ts)
    ensures var s := After(Start(workers), ts);
            && !s.crashed
            && FinishCount(s.finished, id) <= 1
            && (s.outside == Returned ==> FinishCount(s.finished, id) == if id < s.nextId then 1 else 0)
  {
    StartInv(workers);
    PoolInvRun(Start(workers), ts);
    var s := After(Start(workers), ts);
    assert Conserved(s, id);
    if s.outside == Returned {
      assert s.workers[0] in s.workers;
      NobodyHolds(s.workers, id);
    }
  }

  lemma {:induction false} NobodyHolds(workers: seq<Worker>, id: nat)
    requires forall w :: 0 <= w < |workers| ==> workers[w] == Exited
    ensures HoldCount(workers, id) == 0
    decreases |workers|
  {
    if workers == [] {
    } else {
      NobodyHolds(workers[1..], id);
    }
  }

  /** Without workers, which hardware_concurrency() may report, Wait returns and the task is lost. */
  lemma NoWorkersLoseTasks() returns (ts: seq<Step>)
    ensures Legal(Start(0), ts)
    ensures var s := After(Start(0), ts);
            s.outside == Returned && s.nextId == 1 && s.finished == []
  {
    var s0 := Start(0);
    var s1 := Next(s0, OutsideEnqueue(0));
    var s2 := Next(s1, OutsideNotify(None));
    var s3 := Next(s2, Wait);
    var s4 := Next(s3, NotifyAll);
    var t4 := [Join];
    var t3 := [NotifyAll] + t4;
    var t2 := [Wait] + t3;
    var t1 := [OutsideNotify(None)] + t2;
    ts := [OutsideEnqueue(0)] + t1;
    assert t4[1..] == [] && t3[1..] == t4 && t2[1..] == t3 && t1[1..] == t2 && ts[1..] == t1;
    var s5 := Next(s4, Join);
    assert Legal(s4, t4) && After(s4, t4) == s5;
    assert Legal(s3, t3) && After(s3, t3) == s5;
    assert Legal(s2, t2) && After(s2, t2) == s5;
    assert Legal(s1, t1) && After(s1, t1) == s5;
  }

  /** So a run in which Wait returns over an unfinished task exists exactly without workers. */
  ghost predicate CanLoseTask(workers: nat) {
    exists ts, id :: Legal(Start(workers), ts) && LostIn(After(Start(workers), ts), id)
  }

  predicate LostIn(s: Pool, id: nat) {
    s.outside == Returned && id < s.nextId && FinishCount(s.finished, id) != 1
  }

  lemma LosesTaskIffNoWorkers(workers: nat)
    ensures CanLoseTask(workers) <==> workers == 0
  {
    if workers == 0 {
      var ts := NoWorkersLoseTasks();
      assert LostIn(After(Start(0), ts), 0);
    } else {
      forall ts, id | Legal(Start(workers), ts) ensures !LostIn(After(Start(workers), ts), id) {
        WaitReturnsWhenAllDone(workers, ts, id);
      }
    }
  }

  // Progress

  /** What must happen eventually: everything but new tasks and wakeups nobody asked for. */
  predicate Driven(t: Step) {
    !t.OutsideEnqueue? && !t.TaskEnqueue? && !t.SpuriousWakeup?
  }

  /** Until Wait has returned some such step is possible. */
  lemma NeverStuck(s: Pool) returns (t: Step)
    requires PoolInv(s) && s.outside != Returned
    ensures Driven(t) && Enabled(s, t)
  {
    var woken := if Asleep in s.workers
      then (var w :| 0 <= w < |s.workers| && s.workers[w] == Asleep; Some(w)) else None;
    assert MayWake(s, woken);
    if s.outside == Enqueuing {
      t := Wait;
    } else if s.outside == OwesOne {
      t := OutsideNotify(woken);
    } else if s.outside == OwesAll {
      t := NotifyAll;
    } else if w :| 0 <= w < |s.workers| && Awake(s.workers[w]) {
      match s.workers[w]
      case AtLock =>
        if s.core.tasks != [] {
          var at := TopExists(s.core.tasks);
          t := TakeTask(w, at);
        } else {
          t := TakeTask(w, 0);
        }
      case Working(_) =>
        BusyIsNotIdle(s, w);
        t := Finish(w);
      case Notifying(_) => t := TaskNotify(w, woken);
    } else {
      BusyWitness(s.workers);
      assert s.core.state == Stopped;
      t := Join;
    }
  }

  function Weight(w: Worker): nat {
    match w
    case Asleep => 0
    case Exited => 0
    case AtLock => 1
    case Working(_) => 2
    case Notifying(_) => 4
  }

  function Weights(workers: seq<Worker>): nat {
    Sum(workers, Weight)
  }

  function OutsideWeight(s: Pool): nat {
    match s.outside
    case Returned => 0
    case Joining => 1
    case OwesAll => |s.workers| + 2
    case Enqueuing => |s.workers| + 3
    case OwesOne => |s.workers| + 5
  }

  function WorkLeft(s: Pool): nat {
    2 * |s.core.tasks| + Weights(s.workers) + OutsideWeight(s)
    + if s.core.state == Stopped then 0 else |s.workers|
  }

  lemma {:induction false} WeightsWakeAll(workers: seq<Worker>)
    ensures Weights(WakeAll(workers)) <= Weights(workers) + |workers|
    decreases |workers|
  {
    if workers == [] {
    } else {
      assert WakeAll(workers)[1..] == WakeAll(workers[1..]);
      WeightsWakeAll(workers[1..]);
    }
  }

  lemma FinishDecreases(s: Pool, w: nat)
    requires PoolInv(s) && Enabled(s, Finish(w))
    ensures WorkLeft(Next(s, Finish(w))) < WorkLeft(s)
  {
    BusyIsNotIdle(s, w);
    SumUpdate(s.workers, Weight, w, AtLock);
    SumUpdate(s.workers, Weight, w, Exited);
    WeightsWakeAll(s.workers[w := Exited]);
  }

  lemma TakeDecreases(s: Pool, w: nat, at: nat)
    requires PoolInv(s) && Enabled(s, TakeTask(w, at))
    ensures WorkLeft(Next(s, TakeTask(w, at))) < WorkLeft(s)
  {
    SumUpdate(s.workers, Weight, w, Next(s, TakeTask(w, at)).workers[w]);
  }

  lemma TaskNotifyDecreases(s: Pool, w: nat, woken: Option<nat>)
    requires PoolInv(s) && Enabled(s, TaskNotify(w, woken))
    ensures WorkLeft(Next(s, TaskNotify(w, woken))) < WorkLeft(s)
  {
    var working := s.workers[w := Working(s.workers[w].task)];
    SumUpdate(s.workers, Weight, w, Working(s.workers[w].task));
    if woken.Some? { SumUpdate(working, Weight, woken.value, AtLock); }
  }

  lemma WorkDecreases(s: Pool, t: Step)
    requires PoolInv(s) && Enabled(s, t) && Driven(t)
    ensures WorkLeft(Next(s, t)) < WorkLeft(s)
  {
    match t
    case OutsideNotify(woken) =>
      if woken.Some? { SumUpdate(s.workers, Weight, woken.value, AtLock); }
    case Wait =>
    case NotifyAll => WeightsWakeAll(s.workers);
    case Join =>
    case TakeTask(w, at) => TakeDecreases(s, w, at);
    case TaskNotify(w, woken) => TaskNotifyDecreases(s, w, woken);
    case Finish(w) => FinishDecreases(s, w);
  }

  lemma WorkGrows(s: Pool, t: Step)
    requires PoolInv(s) && Enabled(s, t) && !Driven(t)
    ensures WorkLeft(Next(s, t)) <= WorkLeft(s) + 4
  {
    match t
    case OutsideEnqueue(_) =>
    case TaskEnqueue(w, _) => SumUpdate(s.workers, Weight, w, Notifying(s.workers[w].task));
    case SpuriousWakeup(w) => SumUpdate(s.workers, Weight, w, AtLock);
  }

  /** The steps of the surroundings: enqueueing and spurious wakeups. */
  function Undriven(ts: seq<Step>): nat {
    if ts == [] then 0 else (if Driven(ts[0]) then 0 else 1) + Undriven(ts[1..])
  }

  /** With finitely many tasks and spurious wakeups the pool makes finitely many steps. */
  lemma {:induction false} RunsAreBounded(s: Pool, ts: seq<Step>)
    requires PoolInv(s) && Legal(s, ts)
    ensures |ts| + WorkLeft(After(s, ts)) <= WorkLeft(s) + 5 * Undriven(ts)
    decreases |ts|
  {
    if ts == [] {
    } else {
      PoolInvNext(s, ts[0]);
      if Driven(ts[0]) {
        WorkDecreases(s, ts[0]);
      } else {
        WorkGrows(s, ts[0]);
      }
      RunsAreBounded(Next(s, ts[0]), ts[1..]);
    }
  }

  /** A run that cannot go on by itself has returned from Wait with everything done. */
  lemma MaximalRunsReturn(workers: nat, ts: seq<Step>, id: nat)
    requires workers > 0 && Legal(Start(workers), ts)
    requires forall t :: Driven(t) ==> !Enabled(After(Start(workers), ts), t)
    ensures var s := After(Start(workers), ts);
            s.outside == Returned && FinishCount(s.finished, id) == if id < s.nextId then 1 else 0
  {
    StartInv(workers);
    PoolInvRun(Start(workers), ts);
    WaitReturnsWhenAllDone(workers, ts, id);
    if After(Start(workers), ts).outside != Returned {
      var t := NeverStuck(After(Start(workers), ts));
      assert false;
    }
  }
}
