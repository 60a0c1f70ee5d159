/** The worker threads of the parallel main loop around the graph: every critical section, every
    sleep on the condition variable and every notify_one is one step of an interleaving. */
module ParallelMainLoop {
  import opened Wrappers
  import opened Sequences
  import opened Uevents
  import opened SchedulerModel
  import OrderedRuns

  /** Idle: about to take the lock in WaitDependencyFreeEvent.  Asleep: in the condition variable.
      Handling: outside the lock with an event.  OwesNotify: MarkEventCompleted freed something and
      has released the lock, but has not called notify_one yet. */
  datatype Worker = Idle | Asleep | Handling(n: int) | OwesNotify

  /** The thread that polls the netlink socket; it owes a notify between releasing the lock in Add
      and notify_one. */
  datatype Loop = Loop(graph: Graph, workers: seq<Worker>, listenerOwes: bool)

  datatype Step =
    | ListenerAdd(u: Uevent)
    | ListenerNotify(woken: Option<nat>)
    | TakeOrSleep(w: nat)
    | Finish(w: nat)
    | WorkerNotify(w: nat, woken: Option<nat>)
    | SpuriousWakeup(w: nat)

  predicate WorkerIs(s: Loop, w: nat, state: Worker) {
    w < |s.workers| && s.workers[w] == state
  }

  /** notify_one wakes some sleeper, or nobody when nobody sleeps. */
  predicate MayWake(s: Loop, woken: Option<nat>) {
    match woken
    case Some(w) => WorkerIs(s, w, Asleep)
    case None => Asleep !in s.workers
  }

  predicate Enabled(s: Loop, t: Step) {
    match t
    case ListenerAdd(u) => !s.listenerOwes && FreshSeqnum(s.graph, u)
    case ListenerNotify(woken) => s.listenerOwes && MayWake(s, woken)
    case TakeOrSleep(w) => WorkerIs(s, w, Idle)
    case Finish(w) => w < |s.workers| && s.workers[w].Handling? && s.workers[w].n in s.graph.inFlight
    case WorkerNotify(w, woken) => WorkerIs(s, w, OwesNotify) && MayWake(s, woken)
    case SpuriousWakeup(w) => WorkerIs(s, w, Asleep)
  }

  function Wake(workers: seq<Worker>, woken: Option<nat>): seq<Worker>
    requires woken.Some? ==> woken.value < |workers|
  {
    if woken.Some? then workers[woken.value := Idle] else workers
  }

  ghost function Next(s: Loop, t: Step): Loop
    requires Enabled(s, t)
  {
    match t
    case ListenerAdd(u) =>
      s.(graph := AddEvent(s.graph, u), listenerOwes := Latest(s.graph.events, u).None?)
    case ListenerNotify(woken) => s.(workers := Wake(s.workers, woken), listenerOwes := false)
    case TakeOrSleep(w) =>
      if s.graph.ready == [] then s.(workers := s.workers[w := Asleep])
      else s.(graph := PopEvent(s.graph), workers := s.workers[w := Handling(s.graph.ready[0])])
    case Finish(w) =>
      var n := s.workers[w].n;
      var freedAny := Dependents(s.graph.edges, n) != [];
      s.(graph := CompleteEvent(s.graph, n), workers := s.workers[w := if freedAny then OwesNotify else Idle])
    case WorkerNotify(w, woken) => s.(workers := Wake(s.workers[w := Idle], woken))
    case SpuriousWakeup(w) => s.(workers := s.workers[w := Idle])
  }

  function Start(workers: nat): Loop {
    Loop(EMPTY, seq(workers, _ => Idle), false)
  }

  ghost predicate Legal(s: Loop, ts: seq<Step>)
    decreases |ts|
  {
    ts == [] || (Enabled(s, ts[0]) && Legal(Next(s, ts[0]), ts[1..]))
  }

  ghost function After(s: Loop, ts: seq<Step>): Loop
    requires Legal(s, ts)
    decreases |ts|
  {
    if ts == [] then s else After(Next(s, ts[0]), ts[1..])
  }

  // Invariants

  /** Each event in flight is in the hands of exactly one worker. */
  ghost predicate HandsMatch(s: Loop) {
    && (forall n :: n in s.graph.inFlight <==> Handling(n) in s.workers)
    && (forall i, j :: 0 <= i < j < |s.workers| && s.workers[i].Handling? ==> s.workers[i] != s.workers[j])
  }

  /** No lost wakeup: while something is ready, a worker is not asleep or the listener still owes a
      notify. */
  predicate SomeoneComes(s: Loop) {
    s.graph.ready != [] ==> s.listenerOwes || exists w :: 0 <= w < |s.workers| && s.workers[w] != Asleep
  }

  ghost predicate LoopInv(s: Loop) {
    Inv(s.graph) && |s.workers| > 0 && HandsMatch(s) && SomeoneComes(s)
  }

  lemma InvStart(workers: nat)
    requires workers > 0
    ensures LoopInv(Start(workers))
  {
    assert Start(workers).workers[0] == Idle;
  }

  /** A worker takes n, which nobody holds. */
  lemma HandsTaken(s: Loop, r: Loop, w: nat, n: int)
    requires HandsMatch(s) && w < |s.workers| && !s.workers[w].Handling? && n !in s.graph.inFlight
    requires r.graph.inFlight == s.graph.inFlight + {n} && r.workers == s.workers[w := Handling(n)]
    ensures HandsMatch(r)
  {
    assert r.workers[w] == Handling(n);
    forall m | m in r.graph.inFlight ensures Handling(m) in r.workers {
      if m != n {
        var i :| 0 <= i < |s.workers| && s.workers[i] == Handling(m);
        assert r.workers[i] == Handling(m);
      }
    }
    assert Handling(n) !in s.workers;
  }

  /** A worker lets go of n. */
  lemma HandsReleased(s: Loop, r: Loop, w: nat, n: int, state: Worker)
    requires HandsMatch(s) && w < |s.workers| && s.workers[w] == Handling(n) && !state.Handling?
    requires r.graph.inFlight == s.graph.inFlight - {n} && r.workers == s.workers[w := state]
    ensures HandsMatch(r)
  {
    forall m | m in r.graph.inFlight ensures Handling(m) in r.workers {
      var i :| 0 <= i < |s.workers| && s.workers[i] == Handling(m);
      assert r.workers[i] == Handling(m);
    }
    forall m | Handling(m) in r.workers ensures m in r.graph.inFlight {
      var i :| 0 <= i < |r.workers| && r.workers[i] == Handling(m);
      assert i != w && s.workers[i] == Handling(m);
      assert s.workers[i] != s.workers[w];
    }
  }

  lemma HandsNext(s: Loop, t: Step)
    requires LoopInv(s) && Enabled(s, t)
    ensures HandsMatch(Next(s, t))
  {
    var r := Next(s, t);
    match t
    case TakeOrSleep(w) =>
      if s.graph.ready != [] {
        assert s.graph.ready[0] in s.graph.ready;
        HandsTaken(s, r, w, s.graph.ready[0]);
      } else {
        SameHands(s, r);
      }
    case Finish(w) => HandsReleased(s, r, w, s.workers[w].n, r.workers[w]);
    case _ => SameHands(s, r);
  }

  lemma SameHands(s: Loop, r: Loop)
    requires HandsMatch(s) && r.graph.inFlight == s.graph.inFlight && |r.workers| == |s.workers|
    requires forall i :: 0 <= i < |s.workers| && s.workers[i].Handling? ==> r.workers[i] == s.workers[i]
    requires forall i :: 0 <= i < |s.workers| && r.workers[i].Handling? ==> r.workers[i] == s.workers[i]
    ensures HandsMatch(r)
  {
    forall n | n in r.graph.inFlight ensures Handling(n) in r.workers {
      var i :| 0 <= i < |s.workers| && s.workers[i] == Handling(n);
      assert r.workers[i] == Handling(n);
    }
  }

  lemma SomeoneComesNext(s: Loop, t: Step)
    requires LoopInv(s) && Enabled(s, t)
    ensures SomeoneComes(Next(s, t))
  {
    var r := Next(s, t);
    match t
    case ListenerAdd(u) =>
    case ListenerNotify(woken) =>
      if woken.Some? {
        assert r.workers[woken.value] == Idle;
      } else {
        assert s.workers[0] in s.workers;
      }
    case TakeOrSleep(w) =>
      if s.graph.ready != [] {
        assert r.workers[w] != Asleep;
      }
    case Finish(w) => assert r.workers[w] != Asleep;
    case WorkerNotify(w, woken) => assert r.workers[w] != Asleep;
    case SpuriousWakeup(w) => assert r.workers[w] != Asleep;
  }

  lemma LoopInvNext(s: Loop, t: Step)
    requires LoopInv(s) && Enabled(s, t)
    ensures LoopInv(Next(s, t))
  {
    HandsNext(s, t);
    SomeoneComesNext(s, t);
    match t
    case ListenerAdd(u) => InvNext(s.graph, Label.Add(u));
    case TakeOrSleep(w) =>
      if s.graph.ready != [] {
        InvNext(s.graph, Pop);
      }
    case Finish(w) => InvNext(s.graph, Complete(s.workers[w].n));
    case _ =>
  }

  lemma {:induction false} NoLostWakeup(s: Loop, ts: seq<Step>)
    requires LoopInv(s) && Legal(s, ts)
    ensures LoopInv(After(s, ts))
    decreases |ts|
  {
    if ts == [] {
    } else {
      LoopInvNext(s, ts[0]);
      NoLostWakeup(Next(s, ts[0]), ts[1..]);
    }
  }

  // Progress

  /** What the workers do by themselves. */
  predicate Driven(t: Step) {
    !t.ListenerAdd? && !t.SpuriousWakeup?
  }

  /** A state in which no such step is possible has nothing left to handle. */
  lemma QuietMeansDrained(s: Loop)
    requires LoopInv(s)
    requires forall t :: Driven(t) ==> !Enabled(s, t)
    ensures s.graph.events == map[] && forall w :: 0 <= w < |s.workers| ==> s.workers[w] == Asleep
  {
    var woken := if exists w :: 0 <= w < |s.workers| && s.workers[w] == Asleep
      then (var w :| 0 <= w < |s.workers| && s.workers[w] == Asleep; Some(w)) else None;
    assert !Enabled(s, ListenerNotify(woken));
    forall w | 0 <= w < |s.workers| ensures s.workers[w] == Asleep {
      if s.workers[w].Handling? {
        assert Handling(s.workers[w].n) in s.workers;
      }
      assert !Enabled(s, TakeOrSleep(w));
      assert !Enabled(s, Finish(w));
      assert !Enabled(s, WorkerNotify(w, woken));
    }
    if s.graph.events != map[] {
      NoDeadlock(s.graph);
      if s.graph.inFlight != {} {
        var n := Element(s.graph.inFlight);
        assert false;
      }
    }
  }

  /** Work left: an event not yet popped weighs most, then what a worker still has to do. */
  function Weight(w: Worker): nat {
    match w
    case Asleep => 0
    case Idle => 1
    case OwesNotify => 3
    case Handling(_) => 4
  }

  function Weights(workers: seq<Worker>): nat {
    Sum(workers, Weight)
  }

  ghost function WorkLeft(s: Loop): nat {
    4 * |UnpoppedEvents(s.graph)| + Weights(s.workers) + if s.listenerOwes then 2 else 0
  }

  ghost function UnpoppedEvents(g: Graph): set<int> {
    g.events.Keys - g.inFlight
  }

  lemma UnpoppedAfterPop(g: Graph)
    requires Inv(g) && g.ready != []
    ensures |UnpoppedEvents(PopEvent(g))| == |UnpoppedEvents(g)| - 1
  {
    var n := g.ready[0];
    assert n in g.ready && n in UnpoppedEvents(g);
    assert UnpoppedEvents(PopEvent(g)) == UnpoppedEvents(g) - {n};
  }

  lemma UnpoppedAfterComplete(g: Graph, n: int)
    requires Inv(g) && n in g.inFlight
    ensures UnpoppedEvents(CompleteEvent(g, n)) == UnpoppedEvents(g)
  {
  }

  lemma TakeDecreases(s: Loop, w: nat)
    requires LoopInv(s) && Enabled(s, TakeOrSleep(w))
    ensures WorkLeft(Next(s, TakeOrSleep(w))) < WorkLeft(s)
  {
    if s.graph.ready == [] {
      SumUpdate(s.workers, Weight, w, Asleep);
    } else {
      UnpoppedAfterPop(s.graph);
      SumUpdate(s.workers, Weight, w, Handling(s.graph.ready[0]));
    }
  }

  lemma FinishDecreases(s: Loop, w: nat)
    requires LoopInv(s) && Enabled(s, Finish(w))
    ensures WorkLeft(Next(s, Finish(w))) < WorkLeft(s)
  {
    UnpoppedAfterComplete(s.graph, s.workers[w].n);
    FinishWeights(s, w);
  }

  lemma FinishWeights(s: Loop, w: nat)
    requires Enabled(s, Finish(w))
    ensures Weights(Next(s, Finish(w)).workers) < Weights(s.workers)
  {
    SumUpdate(s.workers, Weight, w, Next(s, Finish(w)).workers[w]);
  }

  lemma WorkDecreases(s: Loop, t: Step)
    requires LoopInv(s) && Enabled(s, t) && Driven(t)
    ensures WorkLeft(Next(s, t)) < WorkLeft(s)
  {
    match t
    case ListenerNotify(woken) =>
      if woken.Some? { SumUpdate(s.workers, Weight, woken.value, Idle); }
    case TakeOrSleep(w) => TakeDecreases(s, w);
    case Finish(w) => FinishDecreases(s, w);
    case WorkerNotify(w, woken) =>
      SumUpdate(s.workers, Weight, w, Idle);
      if woken.Some? { SumUpdate(s.workers[w := Idle], Weight, woken.value, Idle); }
  }

  function Spurious(ts: seq<Step>): nat {
    if ts == [] then 0 else (if ts[0].SpuriousWakeup? then 1 else 0) + Spurious(ts[1..])
  }

  /** Once no more events arrive the workers stop after boundedly many steps, however they are
      interleaved; a spurious wakeup costs two. */
  lemma {:induction false} DrainIsBounded(s: Loop, ts: seq<Step>)
    requires LoopInv(s) && Legal(s, ts) && forall t :: t in ts ==> !t.ListenerAdd?
    ensures |ts| + WorkLeft(After(s, ts)) <= WorkLeft(s) + 2 * Spurious(ts)
    decreases |ts|
  {
    if ts == [] {
    } else {
      var t := ts[0];
      assert t in ts;
      LoopInvNext(s, t);
      if t.SpuriousWakeup? {
        SumUpdate(s.workers, Weight, t.w, Idle);
      } else {
        WorkDecreases(s, t);
      }
      DrainIsBounded(Next(s, t), ts[1..]);
    }
  }

  /** So every run without new events that cannot be continued by a worker, from any state the loop
      can be in, has handled every event. */
  lemma EveryEventIsHandled(workers: nat, past: seq<Step>, ts: seq<Step>)
    requires workers > 0 && Legal(Start(workers), past)
    requires var s := After(Start(workers), past);
             && Legal(s, ts)
             && forall t :: Driven(t) ==> !Enabled(After(s, ts), t)
    ensures After(After(Start(workers), past), ts).graph.events == map[]
  {
    InvStart(workers);
    NoLostWakeup(Start(workers), past);
    NoLostWakeup(After(Start(workers), past), ts);
    QuietMeansDrained(After(After(Start(workers), past), ts));
  }

  ghost predicate Strands(workers: nat, ts: seq<Step>) {
    && Legal(Start(workers), ts)
    && After(Start(workers), ts).graph.events != map[]
    && forall t :: Driven(t) ==> !Enabled(After(Start(workers), ts), t)
  }

  /** One event added to a loop that has no worker. */
  lemma NoWorkersStrand() returns (ts: seq<Step>)
    ensures Strands(0, ts)
  {
    var u := OrderedRuns.DeviceEvent("/a", 0);
    var s0 := Start(0);
    var s1 := Next(s0, ListenerAdd(u));
    assert Candidates(map[], u) == {};
    assert s1.listenerOwes && MayWake(s1, None);
    var rest := [ListenerNotify(None)];
    ts := [ListenerAdd(u)] + rest;
    assert ts[1..] == rest && rest[1..] == [];
    var s2 := Next(s1, ListenerNotify(None));
    assert Legal(s1, rest) && After(s1, rest) == s2;
    assert After(s0, ts) == s2 && 0 in s2.graph.events;
  }

  /** A run can end with an event that nobody will ever handle exactly when the configured number of workers
      is zero. */
  lemma StrandsIffNoWorkers(workers: nat)
    ensures (exists ts :: Strands(workers, ts)) <==> workers == 0
  {
    if workers == 0 {
      var ts := NoWorkersStrand();
    } else {
      forall ts
        ensures !Strands(workers, ts)
      {
        if Strands(workers, ts) {
          InvStart(workers);
          NoLostWakeup(Start(workers), ts);
          QuietMeansDrained(After(Start(workers), ts));
          assert false;
        }
      }
    }
  }

  // The order the loop delivers

  /** The graph steps inside a run of the loop. */
  ghost function GraphSteps(s: Loop, ts: seq<Step>): seq<Label>
    requires Legal(s, ts)
    decreases |ts|
  {
    if ts == [] then [] else GraphStep(s, ts[0]) + GraphSteps(Next(s, ts[0]), ts[1..])
  }

  function GraphStep(s: Loop, t: Step): seq<Label>
    requires Enabled(s, t)
  {
    match t
    case ListenerAdd(u) => [Label.Add(u)]
    case TakeOrSleep(_) => if s.graph.ready == [] then [] else [Pop]
    case Finish(w) => [Complete(s.workers[w].n)]
    case _ => []
  }

  lemma {:induction false} LoopRunsGraph(s: Loop, ts: seq<Step>)
    requires Legal(s, ts)
    ensures SchedulerModel.Legal(s.graph, GraphSteps(s, ts))
    ensures SchedulerModel.After(s.graph, GraphSteps(s, ts)) == After(s, ts).graph
    decreases |ts|
  {
    if ts == [] {
    } else {
      var first, rest := GraphStep(s, ts[0]), GraphSteps(Next(s, ts[0]), ts[1..]);
      LoopRunsGraph(Next(s, ts[0]), ts[1..]);
      assert |first| == 1 ==> first[1..] == [];
      RunConcat(s.graph, first, rest);
    }
  }

  ghost predicate ArrivesParentsFirst(s: Loop, ts: seq<Step>)
    requires Legal(s, ts)
  {
    LoopRunsGraph(s, ts);
    OrderedRuns.AddsParentsFirst(s.graph, GraphSteps(s, ts))
  }

  /** If no event arrives while a pending path extends its path, no worker ever handles an event
      while an earlier one on the same or an ancestor path is pending, with another worker or not. */
  lemma HandledInOrder(workers: nat, ts: seq<Step>, f: int, e: int)
    requires workers > 0 && Legal(Start(workers), ts)
    requires ArrivesParentsFirst(Start(workers), ts)
    requires Handling(e) in After(Start(workers), ts).workers && f in After(Start(workers), ts).graph.events
    ensures e in After(Start(workers), ts).graph.events
    ensures !OrderedRuns.EarlierOnPath(After(Start(workers), ts).graph, f, e)
  {
    InvStart(workers);
    NoLostWakeup(Start(workers), ts);
    LoopRunsGraph(Start(workers), ts);
    OrderedRuns.AncestorsCompleteBeforeDispatch(GraphSteps(Start(workers), ts), f, e);
  }
}
