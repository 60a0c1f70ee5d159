/** Which order the scheduler guarantees.  An event keeps one edge only, so it is the chain of
    edges, and nothing else, that every schedule respects. */
module DispatchOrder {
  import opened Wrappers
  import opened PosixPath
  import opened Uevents
  import opened SchedulerModel

  /** f is on the chain of edges that starts at the waiting event e. */
  ghost predicate OnChain(g: Graph, f: int, e: int)
    requires Inv(g) && e in g.events
    decreases e
  {
    Waiting(g, e) &&
    var d := Latest(g.events, g.events[e]).value;
    WaitingPrerequisite(g, e);
    f == d || OnChain(g, f, d)
  }

  lemma WaitingPrerequisite(g: Graph, e: int)
    requires Inv(g) && e in g.events && Waiting(g, e)
    ensures var d := Latest(g.events, g.events[e]).value; d in g.events && 0 <= d < e
  {
    EdgesDescend(g, Latest(g.events, g.events[e]).value, e);
  }

  /** Whatever the schedule and whatever is added later, e is not handed to a worker while f is
      pending. */
  ghost predicate Guaranteed(g: Graph, f: int, e: int) {
    forall ls :: Legal(g, ls) && f in After(g, ls).events ==> e !in After(g, ls).inFlight
  }

  // The chain is respected

  lemma {:induction false} ChainStep(g: Graph, l: Label, f: int, e: int)
    requires Inv(g) && Enabled(g, l) && e in g.events && OnChain(g, f, e)
    requires f in Next(g, l).events
    ensures Inv(Next(g, l)) && e in Next(g, l).events && OnChain(Next(g, l), f, e)
    decreases e
  {
    InvNext(g, l);
    WaitingPrerequisite(g, e);
    var h := Next(g, l);
    var d := Latest(g.events, g.events[e]).value;
    if f != d {
      ChainStep(g, l, f, d);
    }
    EdgeSurvives(g, l, e);
  }

  /** An event that waits goes on waiting under the same edge until that edge's prerequisite
      completes. */
  lemma EdgeSurvives(g: Graph, l: Label, e: int)
    requires Inv(g) && Enabled(g, l) && e in g.events && Waiting(g, e)
    requires Latest(g.events, g.events[e]).value in Next(g, l).events
    ensures Inv(Next(g, l)) && e in Next(g, l).events && Waiting(Next(g, l), e)
    ensures Next(g, l).events[e] == g.events[e]
    ensures Latest(Next(g, l).events, g.events[e]) == Latest(g.events, g.events[e])
  {
    InvNext(g, l);
    var d := Latest(g.events, g.events[e]).value;
    match l
    case Add(u) => LatestAfterAdd(g, u, g.events[e]);
    case Pop =>
    case Complete(n) => LatestAfterRemove(g.events, n, g.events[e], d);
  }

  lemma {:induction false} ChainRun(g: Graph, ls: seq<Label>, f: int, e: int)
    requires Inv(g) && Legal(g, ls) && e in g.events && OnChain(g, f, e)
    requires f in After(g, ls).events
    ensures e in After(g, ls).events && e !in After(g, ls).inFlight
    decreases |ls|
  {
    if ls == [] {
      assert Waiting(g, e);
    } else {
      InvNext(g, ls[0]);
      ChainBelow(g, f, e);
      if f !in Next(g, ls[0]).events {
        GoneForGood(Next(g, ls[0]), ls[1..], f);
      } else {
        ChainStep(g, ls[0], f, e);
        ChainRun(Next(g, ls[0]), ls[1..], f, e);
      }
    }
  }

  lemma {:induction false} ChainBelow(g: Graph, f: int, e: int)
    requires Inv(g) && e in g.events && OnChain(g, f, e)
    ensures f in g.events && 0 <= f < e
    decreases e
  {
    WaitingPrerequisite(g, e);
    var d := Latest(g.events, g.events[e]).value;
    if f != d {
      ChainBelow(g, f, d);
    }
  }

  lemma ChainGuarantees(g: Graph, f: int, e: int)
    requires Inv(g) && e in g.events && OnChain(g, f, e)
    ensures Guaranteed(g, f, e)
  {
    forall ls | Legal(g, ls) && f in After(g, ls).events
      ensures e !in After(g, ls).inFlight
    {
      ChainRun(g, ls, f, e);
    }
  }

  // Nothing else is

  function Pops(k: nat): (ls: seq<Label>)
    ensures |ls| == k
  {
    if k == 0 then [] else [Pop] + Pops(k - 1)
  }

  /** Popping up to a place in the ready queue hands out what is there and completes nothing. */
  lemma {:induction false} PopUpTo(g: Graph, i: nat)
    requires Inv(g) && i < |g.ready|
    ensures Legal(g, Pops(i + 1))
    ensures After(g, Pops(i + 1)).events == g.events && g.ready[i] in After(g, Pops(i + 1)).inFlight
    ensures g.inFlight <= After(g, Pops(i + 1)).inFlight
    decreases i
  {
    var h := Next(g, Pop);
    InvNext(g, Pop);
    assert Pops(i + 1)[0] == Pop && Pops(i + 1)[1..] == Pops(i);
    if i == 0 {
      assert Pops(0) == [];
    } else {
      PopUpTo(h, i - 1);
    }
  }

  /** With f off e's chain there is a schedule that hands e out while f is pending: let the chain
      complete in order and never complete f. */
  lemma {:induction false} OvertakingRun(g: Graph, f: int, e: int) returns (ls: seq<Label>)
    requires Inv(g) && f in g.events && e in g.events && f != e && !OnChain(g, f, e)
    ensures Legal(g, ls) && f in After(g, ls).events && e in After(g, ls).inFlight
    ensures e in After(g, ls).events && Inv(After(g, ls))
    decreases e
  {
    if e in g.inFlight {
      ls := [];
    } else if e in g.ready {
      var i :| 0 <= i < |g.ready| && g.ready[i] == e;
      PopUpTo(g, i);
      ls := Pops(i + 1);
    } else {
      WaitingPrerequisite(g, e);
      var d := Latest(g.events, g.events[e]).value;
      var toD := OvertakingRun(g, f, d);
      StillWaits(g, toD, d, e);
      var h := After(g, toD);
      InvNext(h, Complete(d));
      var k := Next(h, Complete(d));
      assert e in Dependents(h.edges, d) && e in k.ready;
      var i :| 0 <= i < |k.ready| && k.ready[i] == e;
      PopUpTo(k, i);
      var rest := [Complete(d)] + Pops(i + 1);
      assert rest[0] == Complete(d) && rest[1..] == Pops(i + 1);
      RunConcat(g, toD, rest);
      ls := toD + rest;
    }
    InvRun(g, ls);
  }

  /** While its prerequisite is pending an event goes on waiting under it. */
  lemma {:induction false} StillWaits(g: Graph, ls: seq<Label>, d: int, e: int)
    requires Inv(g) && Legal(g, ls) && e in g.events && Waiting(g, e)
    requires Latest(g.events, g.events[e]) == Some(d) && d in After(g, ls).events
    ensures Inv(After(g, ls)) && e in After(g, ls).events && Waiting(After(g, ls), e)
    ensures Latest(After(g, ls).events, After(g, ls).events[e]) == Some(d)
    decreases |ls|
  {
    if ls == [] {
    } else {
      InvNext(g, ls[0]);
      WaitingPrerequisite(g, e);
      if d in Next(g, ls[0]).events {
        EdgeSurvives(g, ls[0], e);
        StillWaits(Next(g, ls[0]), ls[1..], d, e);
      } else {
        GoneForGood(Next(g, ls[0]), ls[1..], d);
      }
    }
  }

  /** The exact guarantee: of two pending events the scheduler orders those on one chain of edges,
      and only those. */
  lemma GuaranteedIffOnChain(g: Graph, f: int, e: int)
    requires Inv(g) && f in g.events && e in g.events && f != e
    ensures Guaranteed(g, f, e) <==> OnChain(g, f, e)
  {
    if OnChain(g, f, e) {
      ChainGuarantees(g, f, e);
    } else {
      var ls := OvertakingRun(g, f, e);
      assert Legal(g, ls) && f in After(g, ls).events && e in After(g, ls).inFlight;
    }
  }

  // Adding an event

  /** The test that decides it before Add: every related pending event is the one that
      FindDependency returns or on that one's chain. */
  ghost predicate RelatedOnOneChain(g: Graph, u: Uevent)
    requires Inv(g)
  {
    forall f :: f in Candidates(g.events, u) ==> Covered(g, u, f)
  }

  /** f is what FindDependency returns for u, or on its chain. */
  ghost predicate Covered(g: Graph, u: Uevent, f: int)
    requires Inv(g)
  {
    Candidates(g.events, u) != {} &&
    (LatestIsPending(g, u);
     var d := Latest(g.events, u).value;
     f == d || OnChain(g, f, d))
  }

  lemma LatestIsPending(g: Graph, u: Uevent)
    requires Candidates(g.events, u) != {}
    ensures Latest(g.events, u).Some? && Latest(g.events, u).value in g.events
  {
    LatestIsRelated(g.events, u);
  }

  /** The chain of a new event is its prerequisite and that one's chain as it was. */
  lemma ChainOfAdded(g: Graph, u: Uevent, f: int)
    requires Inv(g) && FreshSeqnum(g, u) && f in g.events
    ensures Inv(Next(g, Add(u)))
    ensures OnChain(Next(g, Add(u)), f, u.seqnum) <==> Covered(g, u, f)
  {
    InvNext(g, Add(u));
    var h := Next(g, Add(u));
    LatestAfterAdd(g, u, u);
    if Candidates(g.events, u) == {} {
      assert !Waiting(h, u.seqnum);
    } else {
      LatestIsPending(g, u);
      var d := Latest(g.events, u).value;
      assert Waiting(h, u.seqnum);
      ChainUnchangedByAdd(g, u, f, d);
    }
  }

  lemma {:induction false} ChainUnchangedByAdd(g: Graph, u: Uevent, f: int, e: int)
    requires Inv(g) && FreshSeqnum(g, u) && e in g.events
    ensures Inv(Next(g, Add(u)))
    ensures OnChain(Next(g, Add(u)), f, e) <==> OnChain(g, f, e)
    decreases e
  {
    InvNext(g, Add(u));
    var h := Next(g, Add(u));
    LatestAfterAdd(g, u, g.events[e]);
    assert Waiting(h, e) <==> Waiting(g, e);
    if Waiting(g, e) {
      WaitingPrerequisite(g, e);
      ChainUnchangedByAdd(g, u, f, Latest(g.events, g.events[e]).value);
    }
  }

  /** "All earlier related events are complete before dispatch" holds of a new event, for every
      schedule, exactly when its related pending events form one chain. */
  lemma AllRelatedFirstIff(g: Graph, u: Uevent)
    requires Inv(g) && FreshSeqnum(g, u)
    ensures (forall f :: f in Candidates(g.events, u) ==> Guaranteed(Next(g, Add(u)), f, u.seqnum))
            <==> RelatedOnOneChain(g, u)
  {
    InvNext(g, Add(u));
    forall f | f in Candidates(g.events, u)
      ensures Guaranteed(Next(g, Add(u)), f, u.seqnum) <==> Covered(g, u, f)
    {
      ChainOfAdded(g, u, f);
      GuaranteedIffOnChain(Next(g, Add(u)), f, u.seqnum);
    }
  }
}
