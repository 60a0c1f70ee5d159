/** Cold boot: the queued events handled one after the other, or split among subprocesses by stride. */
module Coldboots {
  import opened Wrappers
  import opened Sequences

  /** One call of a handler for one event of the queue. */
  datatype Call = Call(event: nat, handler: nat)

  type Calls = seq<Call>

  const UINT32_RANGE := 0x1_0000_0000

  function EventCalls(i: nat, handlers: nat): Calls {
    seq(handlers, h requires 0 <= h < handlers => Call(i, h))
  }

  /** The events from i on, in order, each handled by all handlers in order. */
  function SequentialFrom(i: nat, queue: nat, handlers: nat): Calls
    decreases queue - i
  {
    if i >= queue then [] else EventCalls(i, handlers) + SequentialFrom(i + 1, queue, handlers)
  }

  /** Every nth event from i on. */
  function StrideFrom(i: nat, n: nat, queue: nat, handlers: nat): Calls
    requires n > 0
    decreases queue - i
  {
    if i >= queue then [] else EventCalls(i, handlers) + StrideFrom(i + n, n, queue, handlers)
  }

  /** The call itself when its event is of the residue class. */
  function Kept(c: Call, n: nat, r: nat): Calls
    requires n > 0
  {
    if c.event % n == r then [c] else []
  }

  /** The calls for events of one residue class. */
  function Class(calls: Calls, n: nat, r: nat): Calls
    requires n > 0
  {
    if calls == [] then [] else Kept(calls[0], n, r) + Class(calls[1..], n, r)
  }

  /** out mixes the sequences, keeping the order of each. */
  ghost predicate Interleaving(seqs: seq<Calls>, out: Calls)
    decreases |out|
  {
    if out == [] then forall p :: 0 <= p < |seqs| ==> seqs[p] == []
    else
      exists p ::
        && 0 <= p < |seqs| && seqs[p] != [] && seqs[p][0] == out[0]
        && Interleaving(seqs[p := seqs[p][1..]], out[1..])
  }

  function Strides(n: nat, queue: nat, handlers: nat): seq<Calls>
    requires n > 0
  {
    seq(n, p requires 0 <= p < n => StrideFrom(p, n, queue, handlers))
  }

  // The 32 bit index

  /** What a subprocess has done, and whether its loop has ended. */
  datatype Worked = Worked(calls: Calls, done: bool)

  /** At most so many rounds of a subprocess from index i on, an unsigned 32 bit number. */
  function Rounds(i: nat, n: nat, queue: nat, handlers: nat, rounds: nat): Worked
    decreases rounds
  {
    if i >= queue then Worked([], true)
    else if rounds == 0 then Worked([], false)
    else
      var rest := Rounds((i + n) % UINT32_RANGE, n, queue, handlers, rounds - 1);
      rest.(calls := EventCalls(i, handlers) + rest.calls)
  }

  /** The first index of the stride that is not in the queue. */
  function StrideEnd(i: nat, n: nat, queue: nat): (end: nat)
    requires n > 0
    ensures end >= queue && end >= i
    decreases queue - i
  {
    if i >= queue then i else StrideEnd(i + n, n, queue)
  }

  lemma {:induction false} RoundsAreStride(i: nat, n: nat, queue: nat, handlers: nat, rounds: nat)
    requires n > 0 && StrideEnd(i, n, queue) < UINT32_RANGE && i + rounds >= queue
    ensures Rounds(i, n, queue, handlers, rounds) == Worked(StrideFrom(i, n, queue, handlers), true)
    decreases queue - i
  {
    if i >= queue {
    } else {
      assert StrideEnd(i, n, queue) == StrideEnd(i + n, n, queue) >= i + n;
      RoundsAreStride(i + n, n, queue, handlers, rounds - 1);
    }
  }

  lemma {:induction false} NeverDone(i: nat, n: nat, queue: nat, handlers: nat, rounds: nat)
    requires i < UINT32_RANGE <= queue
    ensures !Rounds(i, n, queue, handlers, rounds).done
    decreases rounds
  {
    if rounds == 0 {
    } else {
      NeverDone((i + n) % UINT32_RANGE, n, queue, handlers, rounds - 1);
    }
  }

  lemma Cancel(a: Calls, b: Calls, c: Calls)
    requires a + b == a + c
    ensures b == c
  {
    assert b == (a + b)[|a|..] && c == (a + c)[|a|..];
  }

  /** Past 2^32 the index wraps to a smaller one that is in the queue, and the loop goes on. */
  lemma {:induction false} WrappedIsNotStride(i: nat, n: nat, queue: nat, handlers: nat, rounds: nat)
    requires 0 < n < UINT32_RANGE && i < UINT32_RANGE <= StrideEnd(i, n, queue) && handlers > 0
    ensures Rounds(i, n, queue, handlers, rounds) != Worked(StrideFrom(i, n, queue, handlers), true)
    decreases rounds
  {
    var worked := Rounds(i, n, queue, handlers, rounds);
    if rounds == 0 || queue >= UINT32_RANGE {
      NeverDoneOrNoRounds(i, n, queue, handlers, rounds);
    } else {
      var next := (i + n) % UINT32_RANGE;
      var rest := Rounds(next, n, queue, handlers, rounds - 1);
      if i + n < UINT32_RANGE {
        WrappedIsNotStride(i + n, n, queue, handlers, rounds - 1);
      } else {
        assert next == i + n - UINT32_RANGE < i;
        WrapGoesOn(next, n, queue, handlers, rounds - 1);
      }
      if worked == Worked(StrideFrom(i, n, queue, handlers), true) {
        Cancel(EventCalls(i, handlers), rest.calls, StrideFrom(i + n, n, queue, handlers));
        assert false;
      }
    }
  }

  lemma NeverDoneOrNoRounds(i: nat, n: nat, queue: nat, handlers: nat, rounds: nat)
    requires i < queue && i < UINT32_RANGE && (rounds == 0 || queue >= UINT32_RANGE)
    ensures !Rounds(i, n, queue, handlers, rounds).done
  {
    if rounds > 0 {
      NeverDone(i, n, queue, handlers, rounds);
    }
  }

  lemma WrapGoesOn(i: nat, n: nat, queue: nat, handlers: nat, rounds: nat)
    requires i < queue && handlers > 0
    ensures Rounds(i, n, queue, handlers, rounds) != Worked([], true)
  {
    assert |EventCalls(i, handlers)| == handlers;
  }

  lemma {:induction false} StrideEndBelow(i: nat, n: nat, queue: nat)
    requires n > 0
    ensures StrideEnd(i, n, queue) < queue + n || StrideEnd(i, n, queue) == i
    decreases queue - i
  {
    if i >= queue {
    } else {
      StrideEndBelow(i + n, n, queue);
    }
  }

  /** The stride of the last event of the queue ends furthest. */
  lemma {:induction false} FurthestEnd(i: nat, n: nat, queue: nat)
    requires n > 0 && i < queue && i % n == (queue - 1) % n
    ensures StrideEnd(i, n, queue) == queue + n - 1
    decreases queue - i
  {
    if i == queue - 1 {
      assert StrideEnd(i + n, n, queue) == i + n;
    } else {
      if queue - 1 < i + n {
        ModApart(i, queue - 1, n);
      }
      ModStep(i, n);
      FurthestEnd(i + n, n, queue);
    }
  }

  ghost predicate DoStrides(n: nat, queue: nat, handlers: nat, rounds: nat)
    requires n > 0
  {
    forall p: nat :: p < n ==> Rounds(p, n, queue, handlers, rounds) == Worked(StrideFrom(p, n, queue, handlers), true)
  }

  /** With enough rounds the subprocesses do their strides and end, exactly when no index leaves 32 bits. */
  lemma StridesDoneIff(n: nat, queue: nat, handlers: nat)
    requires 0 < n < UINT32_RANGE && handlers > 0
    ensures (exists rounds: nat :: DoStrides(n, queue, handlers, rounds)) <==> queue + n <= UINT32_RANGE
  {
    if queue + n <= UINT32_RANGE {
      StridesDone(n, queue, handlers, queue);
    } else {
      var p := (queue - 1) % n;
      ModUnique(p, 0, p, n);
      FurthestEnd(p, n, queue);
      forall rounds: nat
        ensures !DoStrides(n, queue, handlers, rounds)
      {
        WrappedIsNotStride(p, n, queue, handlers, rounds);
      }
    }
  }

  /** Two subprocesses and a queue of 2^32 - 1 events: the even indices never leave the queue. */
  lemma WrappingQueue(handlers: nat, rounds: nat)
    requires handlers > 0
    ensures !DoStrides(2, UINT32_RANGE - 1, handlers, rounds)
  {
    StridesDoneIff(2, UINT32_RANGE - 1, handlers);
  }

  lemma StridesDone(n: nat, queue: nat, handlers: nat, rounds: nat)
    requires 0 < n && queue + n <= UINT32_RANGE && rounds >= queue
    ensures DoStrides(n, queue, handlers, rounds)
  {
    forall p: nat | p < n
      ensures Rounds(p, n, queue, handlers, rounds) == Worked(StrideFrom(p, n, queue, handlers), true)
    {
      StrideEndBelow(p, n, queue);
      RoundsAreStride(p, n, queue, handlers, rounds);
    }
  }

  // Residue classes

  lemma {:induction false} ClassParts(a: Calls, b: Calls, n: nat, r: nat)
    requires n > 0
    ensures Class(a + b, n, r) == Class(a, n, r) + Class(b, n, r)
    decreases |a|
  {
    if a == [] {
      assert a + b == b;
    } else {
      assert (a + b)[1..] == a[1..] + b;
      ClassParts(a[1..], b, n, r);
      Assoc(Kept(a[0], n, r), Class(a[1..], n, r), Class(b, n, r));
    }
  }

  lemma {:induction false} ClassAll(calls: Calls, n: nat, r: nat, i: nat)
    requires n > 0 && forall j :: 0 <= j < |calls| ==> calls[j].event == i
    ensures Class(calls, n, r) == if i % n == r then calls else []
    decreases |calls|
  {
    if calls == [] {
    } else {
      ClassAll(calls[1..], n, r, i);
    }
  }

  lemma AtLeast(d: int, n: nat)
    requires d >= 1
    ensures d * n >= n
  {
    assert d * n == (d - 1) * n + n;
  }

  lemma Distribute(p: int, q: int, n: nat)
    ensures (p - q) * n == p * n - q * n
  {
  }

  lemma ModUnique(x: int, q: int, r: int, n: nat)
    requires 0 <= r < n && x == q * n + r
    ensures x % n == r
  {
    var p := x / n;
    Distribute(p, q, n);
    Distribute(q, p, n);
    if p > q {
      AtLeast(p - q, n);
    } else if p < q {
      AtLeast(q - p, n);
    }
  }

  lemma ModStep(j: nat, n: nat)
    requires n > 0
    ensures (j + n) % n == j % n
  {
    Distribute(j / n, -1, n);
    ModUnique(j + n, j / n + 1, j % n, n);
  }

  lemma ModApart(i: nat, j: nat, n: nat)
    requires i < j < i + n
    ensures i % n != j % n
  {
    var p, q := i / n, j / n;
    Distribute(q, p, n);
    if q > p {
      AtLeast(q - p, n);
    } else if q < p {
      AtLeast(p - q, n);
    }
  }

  /** From the sequential order a class picks every nth event. */
  lemma {:induction false} ClassOfSequential(i: nat, j: nat, n: nat, queue: nat, handlers: nat)
    requires n > 0 && i <= j < i + n
    ensures Class(SequentialFrom(i, queue, handlers), n, j % n) == StrideFrom(j, n, queue, handlers)
    decreases queue - i
  {
    if i >= queue {
    } else {
      ClassParts(EventCalls(i, handlers), SequentialFrom(i + 1, queue, handlers), n, j % n);
      ClassAll(EventCalls(i, handlers), n, j % n, i);
      if i == j {
        ModStep(j, n);
        ClassOfSequential(i + 1, j + n, n, queue, handlers);
      } else {
        ModApart(i, j, n);
        ClassOfSequential(i + 1, j, n, queue, handlers);
      }
    }
  }

  lemma {:induction false} StrideInClass(i: nat, n: nat, queue: nat, handlers: nat)
    requires n > 0
    ensures forall c :: c in StrideFrom(i, n, queue, handlers) ==> c.event % n == i % n
    decreases queue - i
  {
    if i >= queue {
    } else {
      ModStep(i, n);
      StrideInClass(i + n, n, queue, handlers);
    }
  }

  // Interleavings

  predicate InClasses(seqs: seq<Calls>) {
    forall p, c :: 0 <= p < |seqs| && c in seqs[p] ==> c.event % |seqs| == p
  }

  lemma {:induction false} EmptyClass(calls: Calls, n: nat, r: nat)
    requires n > 0 && forall c :: c in calls ==> c.event % n != r
    ensures Class(calls, n, r) == []
    decreases |calls|
  {
    if calls == [] {
    } else {
      EmptyClass(calls[1..], n, r);
    }
  }

  lemma TakeOne(seqs: seq<Calls>, p: nat)
    requires p < |seqs| && seqs[p] != [] && InClasses(seqs)
    ensures InClasses(seqs[p := seqs[p][1..]])
    ensures seqs[p][0].event % |seqs| == p
  {
    var rest := seqs[p := seqs[p][1..]];
    forall q: nat, c: Call | q < |rest| && c in rest[q]
      ensures c.event % |seqs| == q
    {
      assert c in seqs[q];
    }
    assert seqs[p][0] in seqs[p];
  }

  /** Restricted to a class, an interleaving is what the process of that class did. */
  lemma {:induction false} ClassOfInterleaving(seqs: seq<Calls>, out: Calls, n: nat, r: nat)
    requires r < n == |seqs| && InClasses(seqs) && Interleaving(seqs, out)
    ensures Class(out, n, r) == seqs[r]
    decreases |out|
  {
    if out == [] {
    } else {
      var p :|
        && 0 <= p < |seqs| && seqs[p] != [] && seqs[p][0] == out[0]
        && Interleaving(seqs[p := seqs[p][1..]], out[1..]);
      TakeOne(seqs, p);
      ClassOfInterleaving(seqs[p := seqs[p][1..]], out[1..], n, r);
    }
  }

  lemma StridesInClasses(n: nat, queue: nat, handlers: nat)
    requires n > 0
    ensures InClasses(Strides(n, queue, handlers))
  {
    var seqs := Strides(n, queue, handlers);
    forall p: nat, c: Call | p < |seqs| && c in seqs[p]
      ensures c.event % |seqs| == p
    {
      StrideInClass(p, n, queue, handlers);
      ModUnique(p, 0, p, n);
    }
  }

  lemma {:induction false} CountInClass(calls: Calls, n: nat, c: Call)
    requires n > 0
    ensures multiset(calls)[c] == multiset(Class(calls, n, c.event % n))[c]
    decreases |calls|
  {
    if calls == [] {
    } else {
      CountInClass(calls[1..], n, c);
      assert calls == [calls[0]] + calls[1..];
    }
  }

  lemma SameClass(n: nat, queue: nat, handlers: nat, out: Calls, r: nat)
    requires r < n && Interleaving(Strides(n, queue, handlers), out)
    ensures Class(out, n, r) == Class(SequentialFrom(0, queue, handlers), n, r)
  {
    StridesInClasses(n, queue, handlers);
    ClassOfInterleaving(Strides(n, queue, handlers), out, n, r);
    ModUnique(r, 0, r, n);
    ClassOfSequential(0, r, n, queue, handlers);
  }

  lemma SameClassesSameCalls(a: Calls, b: Calls, n: nat)
    requires n > 0 && forall r :: 0 <= r < n ==> Class(a, n, r) == Class(b, n, r)
    ensures multiset(a) == multiset(b)
  {
    forall c: Call
      ensures multiset(a)[c] == multiset(b)[c]
    {
      CountInClass(a, n, c);
      CountInClass(b, n, c);
    }
  }

  /** However the subprocesses are scheduled, they make the calls of the sequential runner, and within every
      residue class in its order. */
  lemma ParallelIsSequential(n: nat, queue: nat, handlers: nat, out: Calls)
    requires n > 0 && Interleaving(Strides(n, queue, handlers), out)
    ensures multiset(out) == multiset(SequentialFrom(0, queue, handlers))
    ensures forall r :: 0 <= r < n ==> Class(out, n, r) == Class(SequentialFrom(0, queue, handlers), n, r)
  {
    forall r | 0 <= r < n
      ensures Class(out, n, r) == Class(SequentialFrom(0, queue, handlers), n, r)
    {
      SameClass(n, queue, handlers, out, r);
    }
    SameClassesSameCalls(out, SequentialFrom(0, queue, handlers), n);
  }

  lemma EventCallsOnce(i: nat, handlers: nat, c: Call)
    ensures multiset(EventCalls(i, handlers))[c] == if c.event == i && c.handler < handlers then 1 else 0
  {
    var calls := EventCalls(i, handlers);
    if c.event == i && c.handler < handlers {
      var h := c.handler;
      assert calls == calls[..h] + [calls[h]] + calls[h + 1..];
      assert c !in calls[..h] && c !in calls[h + 1..];
    } else {
      assert c !in calls;
    }
  }

  /** Every event meets every handler exactly once. */
  lemma {:induction false} EachCallOnce(i: nat, queue: nat, handlers: nat, c: Call)
    ensures multiset(SequentialFrom(i, queue, handlers))[c] ==
            if i <= c.event < queue && c.handler < handlers then 1 else 0
    decreases queue - i
  {
    if i >= queue {
    } else {
      EventCallsOnce(i, handlers, c);
      EachCallOnce(i + 1, queue, handlers, c);
    }
  }

  // The runners

  class ColdbootRunnerNoParallel {
    const queue: nat
    const handlers: nat
    var calls: Calls

    constructor (queueSize: nat, handlerCount: nat)
      ensures queue == queueSize && handlers == handlerCount && calls == []
    {
      queue, handlers, calls := queueSize, handlerCount, [];
    }

    method UeventHandlerMain()
      modifies this
      ensures calls == old(calls) + SequentialFrom(0, queue, handlers)
    {
      var i := 0;
      while i < queue
        invariant 0 <= i <= queue
        invariant calls + SequentialFrom(i, queue, handlers) == old(calls) + SequentialFrom(0, queue, handlers)
      {
        ghost var before := calls;
        var h := 0;
        while h < handlers
          invariant 0 <= h <= handlers
          invariant calls == before + EventCalls(i, handlers)[..h]
        {
          calls := calls + [Call(i, h)];
          h := h + 1;
        }
        Assoc(before, EventCalls(i, handlers), SequentialFrom(i + 1, queue, handlers));
        i := i + 1;
      }
    }
  }

  /** What waitpid reports. */
  datatype Report = WaitFailed | Exited(pid: int, status: int) | Signaled(pid: int) | OtherChange(pid: int)

  datatype WaitResult = AllDone | Fatal | StillWaiting

  function PidOf(r: Report): int {
    if r.WaitFailed? then -1 else r.pid
  }

  class ColdbootRunnerSubprocess {
    const numHandlerSubprocesses: nat
    const queue: nat
    const handlers: nat
    var subprocessPids: set<int>
    var calls: Calls

    constructor (n: nat, queueSize: nat, handlerCount: nat)
      ensures numHandlerSubprocesses == n && queue == queueSize && handlers == handlerCount
      ensures subprocessPids == {} && calls == []
    {
      numHandlerSubprocesses, queue, handlers := n, queueSize, handlerCount;
      subprocessPids, calls := {}, [];
    }

    /** At most so many rounds of the loop; its index is a 32 bit unsigned integer. */
    method UeventHandlerMain(processNum: nat, totalProcesses: nat, rounds: nat) returns (done: bool)
      requires processNum < UINT32_RANGE
      modifies this`calls
      ensures var r := Rounds(processNum, totalProcesses, queue, handlers, rounds);
              done == r.done && calls == old(calls) + r.calls
    {
      var i, left := processNum, rounds;
      ghost var all := Rounds(processNum, totalProcesses, queue, handlers, rounds);
      while i < queue && left > 0
        invariant 0 <= i < UINT32_RANGE
        invariant var r := Rounds(i, totalProcesses, queue, handlers, left);
                  r.done == all.done && calls + r.calls == old(calls) + all.calls
        decreases left
      {
        ghost var before := calls;
        var h := 0;
        while h < handlers
          invariant 0 <= h <= handlers
          invariant calls == before + EventCalls(i, handlers)[..h]
        {
          calls := calls + [Call(i, h)];
          h := h + 1;
        }
        ghost var rest := Rounds((i + totalProcesses) % UINT32_RANGE, totalProcesses, queue, handlers, left - 1);
        Assoc(before, EventCalls(i, handlers), rest.calls);
        i, left := (i + totalProcesses) % UINT32_RANGE, left - 1;
      }
      done := i >= queue;
    }

    /** forks are the results of fork in the parent; work collects what each child has done in its own copy
        of the runner after so many rounds. False stands for LOG(FATAL). */
    method StartInBackground(forks: seq<int>, rounds: nat) returns (ok: bool, work: seq<Worked>)
      requires |forks| == numHandlerSubprocesses < UINT32_RANGE
      modifies this`subprocessPids
      ensures ok == forall i :: 0 <= i < |forks| ==> forks[i] >= 0
      ensures ok ==> subprocessPids == old(subprocessPids) + (set i | 0 <= i < |forks| :: forks[i])
      ensures ok ==> work == seq(|forks|, p requires 0 <= p < |forks| => Rounds(p, |forks|, queue, handlers, rounds))
    {
      work := [];
      var i := 0;
      while i < numHandlerSubprocesses
        invariant 0 <= i <= numHandlerSubprocesses && |work| == i
        invariant forall p :: 0 <= p < i ==> forks[p] >= 0
        invariant forall p :: 0 <= p < i ==> work[p] == Rounds(p, numHandlerSubprocesses, queue, handlers, rounds)
        invariant subprocessPids == old(subprocessPids) + (set p | 0 <= p < i :: forks[p])
      {
        var pid := forks[i];
        if pid < 0 {
          return false, work;
        }
        var child := new ColdbootRunnerSubprocess(numHandlerSubprocesses, queue, handlers);
        var done := child.UeventHandlerMain(i, numHandlerSubprocesses, rounds);
        work := work + [Worked(child.calls, done)];
        subprocessPids := subprocessPids + {pid};
        i := i + 1;
      }
      return true, work;
    }

    /** With what waitpid has reported so far. */
    method Wait(reports: seq<Report>) returns (r: WaitResult)
      requires -1 !in subprocessPids
      modifies this`subprocessPids
      ensures r == Reaped(old(subprocessPids), reports)
    {
      var i := 0;
      while subprocessPids != {}
        invariant 0 <= i <= |reports| && -1 !in subprocessPids
        invariant Reaped(subprocessPids, reports[i..]) == Reaped(old(subprocessPids), reports)
        decreases |reports| - i
      {
        if i == |reports| {
          return StillWaiting;
        }
        var report := reports[i];
        assert reports[i..][1..] == reports[i + 1..];
        i := i + 1;
        if report.WaitFailed? || report.pid !in subprocessPids {
          continue;
        }
        match report
        case Exited(pid, status) =>
          if status == 0 {
            subprocessPids := subprocessPids - {pid};
          } else {
            return Fatal;
          }
        case Signaled(pid) =>
          return Fatal;
        case _ =>
      }
      return AllDone;
    }
  }

  // Waiting for the subprocesses

  function Reaped(pids: set<int>, reports: seq<Report>): WaitResult
    decreases |reports|
  {
    if pids == {} then AllDone
    else if reports == [] then StillWaiting
    else if PidOf(reports[0]) !in pids then Reaped(pids, reports[1..])
    else
      match reports[0]
      case Exited(pid, status) => if status == 0 then Reaped(pids - {pid}, reports[1..]) else Fatal
      case Signaled(_) => Fatal
      case _ => Reaped(pids, reports[1..])
  }

  ghost predicate Succeeded(pid: int, reports: seq<Report>) {
    exists i :: 0 <= i < |reports| && reports[i] == Exited(pid, 0)
  }

  predicate Crash(r: Report) {
    r.Signaled? || (r.Exited? && r.status != 0)
  }

  /** Wait returns only after every subprocess has succeeded, and it dies only of a subprocess that crashed
      without having succeeded before. */
  lemma {:induction false} WaitMeansAllSucceeded(pids: set<int>, reports: seq<Report>)
    ensures Reaped(pids, reports) == AllDone ==> forall pid :: pid in pids ==> Succeeded(pid, reports)
    ensures Reaped(pids, reports) == Fatal ==>
              exists i :: 0 <= i < |reports| && Crash(reports[i]) && PidOf(reports[i]) in pids
                          && !Succeeded(PidOf(reports[i]), reports[..i])
    decreases |reports|
  {
    if pids == {} || reports == [] {
    } else {
      var rest, r := reports[1..], reports[0];
      var pids' := if PidOf(r) in pids && r == Exited(PidOf(r), 0) then pids - {PidOf(r)} else pids;
      WaitMeansAllSucceeded(pids', rest);
      forall pid | Succeeded(pid, rest)
        ensures Succeeded(pid, reports)
      {
        var i :| 0 <= i < |rest| && rest[i] == Exited(pid, 0);
        assert reports[i + 1] == Exited(pid, 0);
      }
      if PidOf(r) in pids && Crash(r) {
        assert reports[..0] == [];
        assert !Succeeded(PidOf(r), reports[..0]);
      } else if Reaped(pids, reports) == Fatal {
        var i :| 0 <= i < |rest| && Crash(rest[i]) && PidOf(rest[i]) in pids' && !Succeeded(PidOf(rest[i]), rest[..i]);
        var pid := PidOf(rest[i]);
        assert reports[i + 1] == rest[i];
        assert reports[..i + 1] == [r] + rest[..i];
        assert !Succeeded(pid, reports[..i + 1]);
      }
    }
  }

  /** The ith report is of a subprocess that crashed without having succeeded before. */
  ghost predicate BadCrash(pids: set<int>, reports: seq<Report>, i: nat) {
    i < |reports| && Crash(reports[i]) && PidOf(reports[i]) in pids && !Succeeded(PidOf(reports[i]), reports[..i])
  }

  /** The subprocesses still waited for after one report. */
  function Left(pids: set<int>, r: Report): set<int> {
    if r.Exited? && r.status == 0 then pids - {r.pid} else pids
  }

  lemma SucceededLater(r: Report, rest: seq<Report>, pid: int)
    ensures Succeeded(pid, [r] + rest) <==> r == Exited(pid, 0) || Succeeded(pid, rest)
  {
    var reports := [r] + rest;
    if r == Exited(pid, 0) {
      assert reports[0] == Exited(pid, 0);
    }
    if i :| 0 <= i < |rest| && rest[i] == Exited(pid, 0) {
      assert reports[i + 1] == Exited(pid, 0);
    }
    if i :| 0 <= i < |reports| && reports[i] == Exited(pid, 0) && i > 0 {
      assert rest[i - 1] == Exited(pid, 0);
    }
  }

  lemma BadCrashLater(pids: set<int>, r: Report, rest: seq<Report>, i: nat)
    ensures BadCrash(pids, [r] + rest, i + 1) <==> BadCrash(Left(pids, r), rest, i)
  {
    if i < |rest| {
      assert ([r] + rest)[..i + 1] == [r] + rest[..i];
      SucceededLater(r, rest[..i], PidOf(rest[i]));
    }
  }

  /** Wait dies exactly of a subprocess that crashed without having succeeded before, and returns exactly when
      there is none and every subprocess has succeeded. */
  lemma {:induction false} WaitOutcome(pids: set<int>, reports: seq<Report>)
    requires -1 !in pids
    ensures Reaped(pids, reports) == Fatal <==> exists i: nat :: BadCrash(pids, reports, i)
    ensures Reaped(pids, reports) == AllDone <==>
            && (forall i: nat :: !BadCrash(pids, reports, i)) && forall pid :: pid in pids ==> Succeeded(pid, reports)
    decreases |reports|
  {
    if pids == {} {
    } else if reports == [] {
      var pid := Element(pids);
      assert !Succeeded(pid, reports);
    } else {
      var r, rest := reports[0], reports[1..];
      assert reports == [r] + rest && reports[..0] == [];
      assert BadCrash(pids, reports, 0) <==> Crash(r) && PidOf(r) in pids;
      if !BadCrash(pids, reports, 0) {
        ReapedLater(pids, r, rest);
        WaitOutcome(Left(pids, r), rest);
        LaterOutcome(pids, r, rest);
      }
    }
  }

  lemma ReapedLater(pids: set<int>, r: Report, rest: seq<Report>)
    requires pids != {} && -1 !in pids && !(Crash(r) && PidOf(r) in pids)
    ensures Reaped(pids, [r] + rest) == Reaped(Left(pids, r), rest)
  {
    assert ([r] + rest)[1..] == rest;
    if PidOf(r) !in pids {
      assert Left(pids, r) == pids;
    }
  }

  lemma LaterOutcome(pids: set<int>, r: Report, rest: seq<Report>)
    requires !BadCrash(pids, [r] + rest, 0)
    ensures (exists i: nat :: BadCrash(pids, [r] + rest, i)) <==> exists i: nat :: BadCrash(Left(pids, r), rest, i)
    ensures (forall pid :: pid in pids ==> Succeeded(pid, [r] + rest)) <==>
            forall pid :: pid in Left(pids, r) ==> Succeeded(pid, rest)
  {
    if i: nat :| BadCrash(pids, [r] + rest, i) {
      BadCrashLater(pids, r, rest, i - 1);
    }
    if i: nat :| BadCrash(Left(pids, r), rest, i) {
      BadCrashLater(pids, r, rest, i);
    }
    forall pid
      ensures Succeeded(pid, [r] + rest) <==> r == Exited(pid, 0) || Succeeded(pid, rest)
    {
      SucceededLater(r, rest, pid);
    }
  }
}
