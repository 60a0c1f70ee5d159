/** The dependency scheduler as a state machine: which event waits on which, and what adding,
    popping and completing an event do.  The class in UeventDependencyGraph is proved against it. */
module SchedulerModel {
  import opened Wrappers
  import opened Uevents
  import opened PosixPath

  /** Sequence numbers are compared through a C int that starts at -1. */
  const SEQNUM_LIMIT := 0x8000_0000

  /** events: added and not completed.  ready: the queue of dispatchable events, first in first
      out.  edges: prerequisite to its dependents, in insertion order.  inFlight: popped and not
      completed.  next: above every number added so far. */
  datatype Graph = Graph(
    events: map<int, Uevent>,
    ready: seq<int>,
    edges: map<int, seq<int>>,
    inFlight: set<int>,
    next: int)

  const EMPTY := Graph(map[], [], map[], {}, 0)

  /** f must be looked at when u is added: it is earlier, and its path extends u's as a string or
      is u's own or an ancestor's.  The action plays no part. */
  predicate Related(f: Uevent, u: Uevent) {
    f.seqnum < u.seqnum && ((u.path <= f.path && f.path != u.path) || AncestorOrSelf(f.path, u.path))
  }

  function Candidates(events: map<int, Uevent>, u: Uevent): set<int> {
    set n | n in events && Related(events[n], u)
  }

  ghost function Max(s: set<int>): (m: int)
    requires s != {}
    ensures m in s && forall x :: x in s ==> x <= m
  {
    var x := Element(s);
    if s == {x} then x
    else
      var m := Max(s - {x});
      assert forall y :: y in s ==> y == x || y in s - {x};
      if x > m then x else m
  }

  /** The event u has to wait for: the latest related one still in the graph. */
  ghost function Latest(events: map<int, Uevent>, u: Uevent): Option<int> {
    if Candidates(events, u) == {} then None else Some(Max(Candidates(events, u)))
  }

  ghost predicate Waiting(g: Graph, n: int)
    requires n in g.events
  {
    var latest := Latest(g.events, g.events[n]);
    latest.Some? && latest.value in g.edges && n in g.edges[latest.value]
  }

  predicate NoDuplicates(s: seq<int>) {
    forall i, j :: 0 <= i < j < |s| ==> s[i] != s[j]
  }

  ghost predicate EdgesValid(g: Graph) {
    forall d :: d in g.edges ==>
      && d in g.events
      && NoDuplicates(g.edges[d])
      && forall e :: e in g.edges[d] ==>
           e in g.events && Latest(g.events, g.events[e]) == Some(d)
  }

  /** Each pending event is in exactly one of three places: once in the ready queue, in flight,
      or waiting under the one event it depends on. */
  ghost predicate Inv(g: Graph) {
    && (forall n :: n in g.events ==> g.events[n].seqnum == n && 0 <= n < g.next)
    && NoDuplicates(g.ready)
    && (forall n :: n in g.ready ==> n in g.events && n !in g.inFlight)
    && (forall n :: n in g.inFlight ==> n in g.events)
    && EdgesValid(g)
    && (forall n :: n in g.events ==> (Waiting(g, n) <==> n !in g.ready && n !in g.inFlight))
  }

  // Steps

  datatype Label = Add(u: Uevent) | Pop | Complete(n: int)

  /** The kernel numbers events upwards. */
  predicate FreshSeqnum(g: Graph, u: Uevent) {
    0 <= u.seqnum < SEQNUM_LIMIT && g.next <= u.seqnum
  }

  predicate Enabled(g: Graph, l: Label) {
    match l
    case Add(u) => FreshSeqnum(g, u)
    case Pop => g.ready != []
    case Complete(n) => n in g.inFlight
  }

  function Dependents(edges: map<int, seq<int>>, n: int): seq<int> {
    if n in edges then edges[n] else []
  }

  ghost function AddEvent(g: Graph, u: Uevent): Graph {
    var h := g.(events := g.events[u.seqnum := u], next := u.seqnum + 1);
    match Latest(g.events, u)
    case None => h.(ready := g.ready + [u.seqnum])
    case Some(d) => h.(edges := g.edges[d := Dependents(g.edges, d) + [u.seqnum]])
  }

  function PopEvent(g: Graph): Graph
    requires g.ready != []
  {
    g.(ready := g.ready[1..], inFlight := g.inFlight + {g.ready[0]})
  }

  function CompleteEvent(g: Graph, n: int): Graph {
    Graph(g.events - {n}, g.ready + Dependents(g.edges, n), g.edges - {n}, g.inFlight - {n}, g.next)
  }

  ghost function Next(g: Graph, l: Label): Graph
    requires Enabled(g, l)
  {
    match l
    case Add(u) => AddEvent(g, u)
    case Pop => PopEvent(g)
    case Complete(n) => CompleteEvent(g, n)
  }

  ghost predicate Legal(g: Graph, ls: seq<Label>)
    decreases |ls|
  {
    ls == [] || (Enabled(g, ls[0]) && Legal(Next(g, ls[0]), ls[1..]))
  }

  ghost function After(g: Graph, ls: seq<Label>): Graph
    requires Legal(g, ls)
    decreases |ls|
  {
    if ls == [] then g else After(Next(g, ls[0]), ls[1..])
  }

  // What every step keeps

  lemma MaxUnique(s: set<int>, m: int)
    requires m in s && forall x :: x in s ==> x <= m
    ensures Max(s) == m
  {
  }

  /** Later events do not change what an event waits for. */
  lemma LatestAfterAdd(g: Graph, u: Uevent, e: Uevent)
    requires e.seqnum <= u.seqnum && u.seqnum !in g.events
    ensures Latest(g.events[u.seqnum := u], e) == Latest(g.events, e)
  {
    assert Candidates(g.events[u.seqnum := u], e) == Candidates(g.events, e);
  }

  /** Removing an event leaves everything waiting on another one where it is. */
  lemma LatestAfterRemove(events: map<int, Uevent>, n: int, e: Uevent, d: int)
    requires Latest(events, e) == Some(d) && d != n
    ensures Latest(events - {n}, e) == Some(d)
  {
    var rest := Candidates(events - {n}, e);
    assert rest == Candidates(events, e) - {n};
    assert d in rest;
    MaxUnique(rest, d);
  }

  lemma LatestIsRelated(events: map<int, Uevent>, u: Uevent)
    requires Latest(events, u).Some?
    ensures var d := Latest(events, u).value; d in events && Related(events[d], u)
  {
    var d := Latest(events, u).value;
    assert d in Candidates(events, u);
  }

  lemma NoDuplicatesConcat(a: seq<int>, b: seq<int>)
    requires NoDuplicates(a) && NoDuplicates(b)
    requires forall x :: x in a ==> x !in b
    ensures NoDuplicates(a + b)
  {
    forall i, j | 0 <= i < j < |a + b| ensures (a + b)[i] != (a + b)[j] {
      if i < |a| && |a| <= j {
        assert a[i] in a && b[j - |a|] in b;
      }
    }
  }

  lemma EdgesAfterAdd(g: Graph, u: Uevent)
    requires Inv(g) && FreshSeqnum(g, u)
    ensures EdgesValid(AddEvent(g, u))
  {
    var n := u.seqnum;
    var h := AddEvent(g, u);
    LatestAfterAdd(g, u, u);
    if Latest(g.events, u).Some? {
      var target := Latest(g.events, u).value;
      LatestIsRelated(g.events, u);
      var was := Dependents(g.edges, target);
      assert n !in was;
      NoDuplicatesConcat(was, [n]);
    }
    forall d, e | d in h.edges && e in h.edges[d]
      ensures e in h.events && Latest(h.events, h.events[e]) == Some(d)
    {
      if e != n {
        assert d in g.edges && e in g.edges[d];
        LatestAfterAdd(g, u, g.events[e]);
      }
    }
  }

  lemma WaitingAfterAdd(g: Graph, u: Uevent, e: int)
    requires Inv(g) && FreshSeqnum(g, u) && e in AddEvent(g, u).events
    ensures var h := AddEvent(g, u);
            Waiting(h, e) <==> e !in h.ready && e !in h.inFlight
  {
    var n := u.seqnum;
    if e == n {
      LatestAfterAdd(g, u, u);
      assert n !in g.ready && n !in g.inFlight;
    } else {
      LatestAfterAdd(g, u, g.events[e]);
      assert Waiting(AddEvent(g, u), e) <==> Waiting(g, e);
    }
  }

  lemma InvAdd(g: Graph, u: Uevent)
    requires Inv(g) && FreshSeqnum(g, u)
    ensures Inv(AddEvent(g, u))
  {
    var n := u.seqnum;
    var h := AddEvent(g, u);
    EdgesAfterAdd(g, u);
    assert n !in g.ready;
    NoDuplicatesConcat(g.ready, [n]);
    forall e | e in h.events
      ensures Waiting(h, e) <==> e !in h.ready && e !in h.inFlight
    {
      WaitingAfterAdd(g, u, e);
    }
  }

  lemma InvPop(g: Graph)
    requires Inv(g) && g.ready != []
    ensures Inv(PopEvent(g))
  {
    var h := PopEvent(g);
    assert forall n :: n in g.ready <==> n == g.ready[0] || n in h.ready;
    forall e | e in h.events
      ensures Waiting(h, e) <==> e !in h.ready && e !in h.inFlight
    {
      assert Waiting(h, e) <==> Waiting(g, e);
    }
  }

  lemma WaitingUnder(g: Graph, d: int, e: int)
    requires Inv(g) && d in g.edges && e in g.edges[d]
    ensures e in g.events && Waiting(g, e) && e !in g.ready && e !in g.inFlight
  {
  }

  lemma InvComplete(g: Graph, n: int)
    requires Inv(g) && n in g.inFlight
    ensures Inv(CompleteEvent(g, n))
  {
    var h := CompleteEvent(g, n);
    var freed := Dependents(g.edges, n);
    forall e | e in freed ensures e in g.events && e !in g.ready && e !in g.inFlight {
      WaitingUnder(g, n, e);
    }
    NoDuplicatesConcat(g.ready, freed);
    forall d, e | d in h.edges && e in h.edges[d]
      ensures e in h.events && Latest(h.events, h.events[e]) == Some(d)
    {
      WaitingUnder(g, d, e);
      LatestAfterRemove(g.events, n, g.events[e], d);
    }
    assert EdgesValid(h);
    forall e | e in h.events
      ensures Waiting(h, e) <==> e !in h.ready && e !in h.inFlight
    {
      if Waiting(g, e) {
        var d := Latest(g.events, g.events[e]).value;
        if d != n {
          LatestAfterRemove(g.events, n, g.events[e], d);
          assert d in h.edges && e in h.edges[d];
          assert e !in freed;
        } else {
          assert e in freed;
        }
      } else if Waiting(h, e) {
        var d := Latest(h.events, h.events[e]).value;
        WaitingUnder(g, d, e);
      }
    }
  }

  lemma InvNext(g: Graph, l: Label)
    requires Inv(g) && Enabled(g, l)
    ensures Inv(Next(g, l))
  {
    match l
    case Add(u) => InvAdd(g, u);
    case Pop => InvPop(g);
    case Complete(n) => InvComplete(g, n);
  }

  /** Conservation over whole runs. */
  lemma {:induction false} InvRun(g: Graph, ls: seq<Label>)
    requires Inv(g) && Legal(g, ls)
    ensures Inv(After(g, ls))
    decreases |ls|
  {
    if ls == [] {
    } else {
      InvNext(g, ls[0]);
      InvRun(Next(g, ls[0]), ls[1..]);
    }
  }

  lemma {:induction false} RunConcat(g: Graph, a: seq<Label>, b: seq<Label>)
    requires Legal(g, a) && Legal(After(g, a), b)
    ensures Legal(g, a + b) && After(g, a + b) == After(After(g, a), b)
    decreases |a|
  {
    if a == [] {
      assert a + b == b;
    } else {
      assert (a + b)[0] == a[0] && (a + b)[1..] == a[1..] + b;
      RunConcat(Next(g, a[0]), a[1..], b);
    }
  }

  /** Edges point to smaller sequence numbers, so they have no cycle. */
  lemma EdgesDescend(g: Graph, d: int, e: int)
    requires Inv(g) && d in g.edges && e in g.edges[d]
    ensures d < e
  {
    LatestIsRelated(g.events, g.events[e]);
  }

  /** No deadlock: while anything is pending, something can be popped or is being handled. */
  lemma NoDeadlock(g: Graph)
    requires Inv(g) && g.events != map[]
    ensures g.ready != [] || g.inFlight != {}
  {
    var least := LeastPending(g.events, g.events.Keys);
    if Waiting(g, least) {
      LatestIsRelated(g.events, g.events[least]);
      assert false;
    }
  }

  lemma LeastPending(events: map<int, Uevent>, among: set<int>) returns (least: int)
    requires among != {}
    ensures least in among && forall n :: n in among ==> least <= n
  {
    var x := Element(among);
    if among == {x} {
      least := x;
    } else {
      least := LeastPending(events, among - {x});
      assert forall n :: n in among ==> n == x || n in among - {x};
      if x < least {
        least := x;
      }
    }
  }

  // Every added event is popped exactly once

  /** How often n is added in a run. */
  function Added(ls: seq<Label>, n: int): nat {
    if ls == [] then 0
    else (if ls[0].Add? && ls[0].u.seqnum == n then 1 else 0) + Added(ls[1..], n)
  }

  /** How often n is handed to a worker in a run. */
  ghost function Popped(g: Graph, ls: seq<Label>, n: int): nat
    requires Legal(g, ls)
    decreases |ls|
  {
    if ls == [] then 0
    else (if ls[0].Pop? && g.ready[0] == n then 1 else 0) + Popped(Next(g, ls[0]), ls[1..], n)
  }

  function Unpopped(g: Graph, n: int): nat {
    if n in g.events && n !in g.inFlight then 1 else 0
  }

  lemma UnpoppedNext(g: Graph, l: Label, n: int)
    requires Inv(g) && Enabled(g, l)
    ensures Unpopped(Next(g, l), n) + (if l.Pop? && g.ready[0] == n then 1 else 0)
         == Unpopped(g, n) + (if l.Add? && l.u.seqnum == n then 1 else 0)
  {
    match l
    case Add(u) => assert u.seqnum !in g.inFlight;
    case Pop => assert g.ready[0] in g.ready;
    case Complete(_) =>
  }

  /** Over any run: what was unpopped at the start and what was added is what was popped and what
      is still unpopped, each the right number of times. */
  lemma {:induction false} PoppedConservation(g: Graph, ls: seq<Label>, n: int)
    requires Inv(g) && Legal(g, ls)
    ensures Unpopped(g, n) + Added(ls, n) == Popped(g, ls, n) + Unpopped(After(g, ls), n)
    decreases |ls|
  {
    if ls == [] {
    } else {
      InvNext(g, ls[0]);
      UnpoppedNext(g, ls[0], n);
      PoppedConservation(Next(g, ls[0]), ls[1..], n);
    }
  }

  lemma {:induction false} AddedAtMostOnce(g: Graph, ls: seq<Label>, n: int)
    requires Legal(g, ls)
    ensures Added(ls, n) <= if n < g.next then 0 else 1
    decreases |ls|
  {
    if ls == [] {
    } else {
      AddedAtMostOnce(Next(g, ls[0]), ls[1..], n);
    }
  }

  /** A run that starts and ends with an empty graph pops every added event exactly once, and
      nothing else. */
  lemma DrainedRunPopsEachOnce(ls: seq<Label>, n: int)
    requires Legal(EMPTY, ls) && After(EMPTY, ls).events == map[]
    ensures Popped(EMPTY, ls, n) == if exists l :: l in ls && l.Add? && l.u.seqnum == n then 1 else 0
  {
    PoppedConservation(EMPTY, ls, n);
    AddedAtMostOnce(EMPTY, ls, n);
    AddedPositive(ls, n);
  }

  lemma {:induction false} AddedPositive(ls: seq<Label>, n: int)
    ensures Added(ls, n) > 0 <==> exists l :: l in ls && l.Add? && l.u.seqnum == n
  {
    if ls == [] {
    } else {
      AddedPositive(ls[1..], n);
      assert forall l :: l in ls <==> l == ls[0] || l in ls[1..];
    }
  }

  // An event that leaves the graph does not come back

  lemma {:induction false} GoneForGood(g: Graph, ls: seq<Label>, n: int)
    requires Inv(g) && Legal(g, ls) && n < g.next && n !in g.events
    ensures n !in After(g, ls).events
    decreases |ls|
  {
    if ls == [] {
    } else {
      InvNext(g, ls[0]);
      GoneForGood(Next(g, ls[0]), ls[1..], n);
    }
  }
}
