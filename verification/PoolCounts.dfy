/** How often a task is queued, held by a worker and finished, and how many workers are busy. */
module PoolCounts {
  import opened ThreadPools
  import opened PoolModel

  predicate Busy(w: Worker) {
    w.Working? || w.Notifying?
  }

  function BusyCount(workers: seq<Worker>): nat {
    if workers == [] then 0 else (if Busy(workers[0]) then 1 else 0) + BusyCount(workers[1..])
  }

  predicate Holds(w: Worker, id: nat) {
    Busy(w) && w.task.id == id
  }

  function HoldCount(workers: seq<Worker>, id: nat): nat {
    if workers == [] then 0 else (if Holds(workers[0], id) then 1 else 0) + HoldCount(workers[1..], id)
  }

  function QueueCount(tasks: seq<Task>, id: nat): nat {
    if tasks == [] then 0 else (if tasks[0].id == id then 1 else 0) + QueueCount(tasks[1..], id)
  }

  function FinishCount(finished: seq<nat>, id: nat): nat {
    if finished == [] then 0 else (if finished[0] == id then 1 else 0) + FinishCount(finished[1..], id)
  }

  lemma {:induction false} CountsUpdate(workers: seq<Worker>, w: nat, state: Worker, id: nat)
    requires w < |workers|
    ensures BusyCount(workers[w := state])
         == BusyCount(workers) - (if Busy(workers[w]) then 1 else 0) + if Busy(state) then 1 else 0
    ensures HoldCount(workers[w := state], id)
         == HoldCount(workers, id) - (if Holds(workers[w], id) then 1 else 0) + if Holds(state, id) then 1 else 0
    decreases |workers|
  {
    var after := workers[w := state];
    if w == 0 {
      assert after[1..] == workers[1..];
    } else {
      assert after[1..] == workers[1..][w - 1 := state];
      CountsUpdate(workers[1..], w - 1, state, id);
    }
  }

  lemma {:induction false} CountsWakeAll(workers: seq<Worker>, id: nat)
    ensures BusyCount(WakeAll(workers)) == BusyCount(workers)
    ensures HoldCount(WakeAll(workers), id) == HoldCount(workers, id)
    decreases |workers|
  {
    if workers == [] {
    } else {
      assert WakeAll(workers)[1..] == WakeAll(workers[1..]);
      CountsWakeAll(workers[1..], id);
    }
  }

  lemma {:induction false} QueueAppend(tasks: seq<Task>, t: Task, id: nat)
    ensures QueueCount(tasks + [t], id) == QueueCount(tasks, id) + if t.id == id then 1 else 0
    decreases |tasks|
  {
    if tasks == [] {
      assert tasks + [t] == [t];
    } else {
      assert (tasks + [t])[1..] == tasks[1..] + [t];
      QueueAppend(tasks[1..], t, id);
    }
  }

  lemma {:induction false} QueueRemove(tasks: seq<Task>, i: nat, id: nat)
    requires i < |tasks|
    ensures QueueCount(Without(tasks, i), id) == QueueCount(tasks, id) - if tasks[i].id == id then 1 else 0
    decreases |tasks|
  {
    if i == 0 {
      assert Without(tasks, 0) == tasks[1..];
    } else {
      assert Without(tasks, i)[1..] == Without(tasks[1..], i - 1);
      QueueRemove(tasks[1..], i - 1, id);
    }
  }

  lemma {:induction false} FinishAppend(finished: seq<nat>, n: nat, id: nat)
    ensures FinishCount(finished + [n], id) == FinishCount(finished, id) + if n == id then 1 else 0
    decreases |finished|
  {
    if finished == [] {
      assert finished + [n] == [n];
    } else {
      assert (finished + [n])[1..] == finished[1..] + [n];
      FinishAppend(finished[1..], n, id);
    }
  }

  lemma {:induction false} BusyWitness(workers: seq<Worker>)
    ensures BusyCount(workers) > 0 <==> exists w :: 0 <= w < |workers| && Busy(workers[w])
    decreases |workers|
  {
    if workers == [] {
    } else {
      BusyWitness(workers[1..]);
      if BusyCount(workers[1..]) > 0 {
        var v :| 0 <= v < |workers[1..]| && Busy(workers[1..][v]);
        assert Busy(workers[v + 1]);
      }
    }
  }
}
