/** The ready queue is first in first out: in which order a run hands events out, said of the run's labels
    and of which events are ready or in flight in its states. */
module ReadyOrder {
  import opened Uevents
  import opened SchedulerModel

  /** The state after i steps of a run. */
  ghost function State(g: Graph, ls: seq<Label>, i: nat): Graph
    requires Legal(g, ls) && i <= |ls|
    decreases i
  {
    if i == 0 then g else State(Next(g, ls[0]), ls[1..], i - 1)
  }

  /** Step i of a run hands event n to a worker. */
  ghost predicate HandedOut(g: Graph, ls: seq<Label>, i: nat, n: int)
    requires Legal(g, ls)
  {
    i < |ls| && ls[i].Pop? && n !in State(g, ls, i).inFlight && n in State(g, ls, i + 1).inFlight
  }

  lemma {:induction false} StateIsAfter(g: Graph, ls: seq<Label>, i: nat)
    requires Legal(g, ls) && i <= |ls|
    ensures Legal(g, ls[..i]) && State(g, ls, i) == After(g, ls[..i])
    decreases i
  {
    if i == 0 {
    } else {
      StateIsAfter(Next(g, ls[0]), ls[1..], i - 1);
      assert ls[..i][0] == ls[0] && ls[..i][1..] == ls[1..][..i - 1];
    }
  }

  lemma {:induction false} OneStep(g: Graph, ls: seq<Label>, i: nat)
    requires Legal(g, ls) && i < |ls|
    ensures Enabled(State(g, ls, i), ls[i]) && State(g, ls, i + 1) == Next(State(g, ls, i), ls[i])
    decreases i
  {
    if i == 0 {
    } else {
      OneStep(Next(g, ls[0]), ls[1..], i - 1);
    }
  }

  lemma {:induction false} StateInv(g: Graph, ls: seq<Label>, i: nat)
    requires Inv(g) && Legal(g, ls) && i <= |ls|
    ensures Inv(State(g, ls, i))
    decreases i
  {
    if i == 0 {
    } else {
      InvNext(g, ls[0]);
      StateInv(Next(g, ls[0]), ls[1..], i - 1);
    }
  }

  // Places in the queue

  /** m is in the queue, and k is behind it or not there. */
  predicate Ahead(queue: seq<int>, m: int, k: int) {
    exists i :: 0 <= i < |queue| && queue[i] == m && k !in queue[..i + 1]
  }

  lemma AheadAppend(queue: seq<int>, more: seq<int>, m: int, k: int)
    requires Ahead(queue, m, k)
    ensures Ahead(queue + more, m, k)
  {
    var i :| 0 <= i < |queue| && queue[i] == m && k !in queue[..i + 1];
    assert (queue + more)[..i + 1] == queue[..i + 1];
  }

  lemma AheadTail(queue: seq<int>, m: int, k: int)
    requires Ahead(queue, m, k) && queue[0] != m
    ensures Ahead(queue[1..], m, k)
  {
    var i :| 0 <= i < |queue| && queue[i] == m && k !in queue[..i + 1];
    assert queue[1..][..i] == queue[..i + 1][1..];
    assert queue[1..][i - 1] == m && k !in queue[1..][..i];
  }

  lemma AheadNotFront(queue: seq<int>, m: int, k: int)
    requires Ahead(queue, m, k)
    ensures queue != [] && queue[0] != k
  {
    var i :| 0 <= i < |queue| && queue[i] == m && k !in queue[..i + 1];
    assert queue[..i + 1][0] == queue[0];
  }

  lemma AheadOfAbsent(queue: seq<int>, m: int, k: int)
    requires m in queue && k !in queue
    ensures Ahead(queue, m, k)
  {
    var i :| 0 <= i < |queue| && queue[i] == m;
    assert forall x :: x in queue[..i + 1] ==> x in queue;
  }

  /** Until m is handed out it stays ahead of k, and k is not handed out. */
  lemma AheadNext(g: Graph, l: Label, m: int, k: int)
    requires Inv(g) && Enabled(g, l) && Ahead(g.ready, m, k)
    ensures l.Pop? ==> k in g.inFlight || k !in Next(g, l).inFlight
    ensures (l.Pop? && m !in g.inFlight && m in Next(g, l).inFlight) || Ahead(Next(g, l).ready, m, k)
  {
    match l
    case Add(u) => AheadAppend(g.ready, [u.seqnum], m, k);
    case Complete(n) => AheadAppend(g.ready, Dependents(g.edges, n), m, k);
    case Pop =>
      AheadNotFront(g.ready, m, k);
      if g.ready[0] == m {
        assert m in g.ready;
      } else {
        AheadTail(g.ready, m, k);
      }
  }

  lemma {:induction false} AheadIsFirst(g: Graph, ls: seq<Label>, i: nat, p: nat, m: int, k: int) returns (q: nat)
    requires Inv(g) && Legal(g, ls) && i <= p && HandedOut(g, ls, p, k) && Ahead(State(g, ls, i).ready, m, k)
    ensures i <= q < p && HandedOut(g, ls, q, m)
    decreases p - i
  {
    var h := State(g, ls, i);
    StateInv(g, ls, i);
    OneStep(g, ls, i);
    AheadNext(h, ls[i], m, k);
    if ls[i].Pop? && m !in h.inFlight && m in Next(h, ls[i]).inFlight {
      q := i;
    } else {
      q := AheadIsFirst(g, ls, i + 1, p, m, k);
    }
  }

  // First in, first out

  /** An event that is ready is handed out before every event that was not ready then. */
  lemma FirstReadyFirstOut(g: Graph, ls: seq<Label>, i: nat, p: nat, m: int, k: int) returns (q: nat)
    requires Inv(g) && Legal(g, ls) && i <= p && HandedOut(g, ls, p, k)
    requires m in State(g, ls, i).ready && k !in State(g, ls, i).ready
    ensures i <= q < p && HandedOut(g, ls, q, m)
  {
    AheadOfAbsent(State(g, ls, i).ready, m, k);
    q := AheadIsFirst(g, ls, i, p, m, k);
  }

  function PopCount(ls: seq<Label>): nat {
    if ls == [] then 0 else (if ls[0].Pop? then 1 else 0) + PopCount(ls[1..])
  }

  lemma PopCountSplit(ls: seq<Label>, i: nat, q: nat)
    requires i < q <= |ls|
    ensures PopCount(ls[i..q]) == (if ls[i].Pop? then 1 else 0) + PopCount(ls[i + 1..q])
  {
    assert ls[i..q][0] == ls[i] && ls[i..q][1..] == ls[i + 1..q];
  }

  lemma {:induction false} OutWithin(g: Graph, ls: seq<Label>, i: nat, at: nat, m: int) returns (q: nat)
    requires Inv(g) && Legal(g, ls) && i <= |ls| && at < PopCount(ls[i..])
    requires at < |State(g, ls, i).ready| && State(g, ls, i).ready[at] == m
    ensures i <= q < |ls| && HandedOut(g, ls, q, m) && PopCount(ls[i..q]) == at
    decreases |ls| - i
  {
    var h := State(g, ls, i);
    assert ls[i..|ls|] == ls[i..] && ls[i + 1..|ls|] == ls[i + 1..];
    PopCountSplit(ls, i, |ls|);
    StateInv(g, ls, i);
    OneStep(g, ls, i);
    if ls[i].Pop? && at == 0 {
      assert m in h.ready;
      assert ls[i..i] == [];
      q := i;
    } else {
      q := OutWithin(g, ls, i + 1, if ls[i].Pop? then at - 1 else at, m);
      PopCountSplit(ls, i, q);
    }
  }

  /** However many events become ready meanwhile, fewer are handed out before a ready event than are ready
      with it. */
  lemma ReadyIsOutWithin(g: Graph, ls: seq<Label>, i: nat, m: int) returns (q: nat)
    requires Inv(g) && Legal(g, ls) && i <= |ls| && m in State(g, ls, i).ready
    requires PopCount(ls[i..]) >= |State(g, ls, i).ready|
    ensures i <= q < |ls| && HandedOut(g, ls, q, m)
    ensures PopCount(ls[i..q]) < |State(g, ls, i).ready|
  {
    var at :| 0 <= at < |State(g, ls, i).ready| && State(g, ls, i).ready[at] == m;
    q := OutWithin(g, ls, i, at, m);
  }

  // Events freed together

  predicate Ascending(s: seq<int>) {
    forall i, j :: 0 <= i < j < |s| ==> s[i] < s[j]
  }

  /** Dependents wait in the order in which they were added. */
  predicate WaitInOrder(g: Graph) {
    forall d :: d in g.edges ==> Ascending(g.edges[d])
  }

  lemma AscendingSnoc(s: seq<int>, n: int)
    requires Ascending(s) && forall x :: x in s ==> x < n
    ensures Ascending(s + [n])
  {
    forall i, j | 0 <= i < j < |s + [n]|
      ensures (s + [n])[i] < (s + [n])[j]
    {
      assert s[i] in s;
    }
  }

  lemma DependentsBelow(g: Graph, d: int)
    requires Inv(g)
    ensures forall e :: e in Dependents(g.edges, d) ==> e < g.next
  {
    if d in g.edges {
      forall e | e in g.edges[d]
        ensures e < g.next
      {
        WaitingUnder(g, d, e);
      }
    }
  }

  lemma WaitInOrderNext(g: Graph, l: Label)
    requires Inv(g) && WaitInOrder(g) && Enabled(g, l)
    ensures WaitInOrder(Next(g, l))
  {
    if l.Add? && Latest(g.events, l.u).Some? {
      var d := Latest(g.events, l.u).value;
      DependentsBelow(g, d);
      AscendingSnoc(Dependents(g.edges, d), l.u.seqnum);
    }
  }

  lemma {:induction false} WaitInOrderRun(g: Graph, ls: seq<Label>, i: nat)
    requires Inv(g) && WaitInOrder(g) && Legal(g, ls) && i <= |ls|
    ensures WaitInOrder(State(g, ls, i))
    decreases i
  {
    if i == 0 {
    } else {
      WaitInOrderNext(g, ls[0]);
      InvNext(g, ls[0]);
      WaitInOrderRun(Next(g, ls[0]), ls[1..], i - 1);
    }
  }

  lemma {:induction false} AddedAbove(g: Graph, ls: seq<Label>, y: nat)
    requires Legal(g, ls) && y < |ls| && ls[y].Add?
    ensures g.next <= ls[y].u.seqnum
    decreases y
  {
    if y == 0 {
    } else {
      AddedAbove(Next(g, ls[0]), ls[1..], y - 1);
    }
  }

  /** Of two events added in a run the first has the smaller number. */
  lemma {:induction false} AddedInOrder(g: Graph, ls: seq<Label>, x: nat, y: nat)
    requires Legal(g, ls) && x < y < |ls| && ls[x].Add? && ls[y].Add?
    ensures ls[x].u.seqnum < ls[y].u.seqnum
    decreases x
  {
    if x == 0 {
      AddedAbove(Next(g, ls[0]), ls[1..], y - 1);
    } else {
      AddedInOrder(Next(g, ls[0]), ls[1..], x - 1, y - 1);
    }
  }

  lemma AheadInFreed(ready: seq<int>, freed: seq<int>, a: int, b: int)
    requires Ascending(freed) && a in freed && a !in ready && b !in ready && a < b
    ensures Ahead(ready + freed, a, b)
  {
    var i :| 0 <= i < |freed| && freed[i] == a;
    var at := |ready| + i;
    assert (ready + freed)[..at + 1] == ready + freed[..i + 1];
    assert (ready + freed)[at] == a && b !in freed[..i + 1];
  }

  lemma FreedInOrder(g: Graph, n: int, a: int, b: int)
    requires Inv(g) && WaitInOrder(g) && n in g.inFlight && a < b
    requires a !in g.ready && b !in g.ready && a in CompleteEvent(g, n).ready
    ensures Ahead(CompleteEvent(g, n).ready, a, b)
  {
    AheadInFreed(g.ready, Dependents(g.edges, n), a, b);
  }

  /** The event added at y becomes ready with the completion at i and is handed out at p. */
  ghost predicate HandedOutLater(ls: seq<Label>, y: nat, i: nat, p: nat)
    requires Legal(EMPTY, ls)
  {
    && y < i < p < |ls| && ls[y].Add? && ls[i].Complete?
    && ls[y].u.seqnum !in State(EMPTY, ls, i).ready && ls[y].u.seqnum in State(EMPTY, ls, i + 1).ready
    && HandedOut(EMPTY, ls, p, ls[y].u.seqnum)
  }

  lemma FreedAhead(ls: seq<Label>, x: nat, y: nat, i: nat)
    requires Legal(EMPTY, ls) && x < y < i < |ls| && ls[x].Add? && ls[y].Add? && ls[i].Complete?
    requires ls[x].u.seqnum !in State(EMPTY, ls, i).ready && ls[y].u.seqnum !in State(EMPTY, ls, i).ready
    requires ls[x].u.seqnum in State(EMPTY, ls, i + 1).ready
    ensures Ahead(State(EMPTY, ls, i + 1).ready, ls[x].u.seqnum, ls[y].u.seqnum)
  {
    var g := State(EMPTY, ls, i);
    AddedInOrder(EMPTY, ls, x, y);
    StateInv(EMPTY, ls, i);
    WaitInOrderRun(EMPTY, ls, i);
    OneStep(EMPTY, ls, i);
    FreedInOrder(g, ls[i].n, ls[x].u.seqnum, ls[y].u.seqnum);
  }

  /** What one completion makes ready is handed out in the order in which it was added. */
  lemma FreedTogetherOutInOrder(ls: seq<Label>, x: nat, y: nat, i: nat, p: nat) returns (q: nat)
    requires Legal(EMPTY, ls) && x < y && HandedOutLater(ls, y, i, p)
    requires ls[x].Add? && ls[x].u.seqnum !in State(EMPTY, ls, i).ready
    requires ls[x].u.seqnum in State(EMPTY, ls, i + 1).ready
    ensures i < q < p && HandedOut(EMPTY, ls, q, ls[x].u.seqnum)
  {
    FreedAhead(ls, x, y, i);
    q := AheadIsFirst(EMPTY, ls, i + 1, p, ls[x].u.seqnum, ls[y].u.seqnum);
  }
}
