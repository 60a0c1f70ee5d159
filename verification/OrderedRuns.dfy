/** When the scheduler delivers the order it documents, and two runs in which it does not. */
module OrderedRuns {
  import opened Wrappers
  import opened PosixPath
  import opened Uevents
  import opened SchedulerModel
  import opened DispatchOrder

  /** No other pending path extends u's as a string: no event of a descendant device, and no
      device whose name merely starts with u's, is in the graph. */
  predicate NoExtensionPending(g: Graph, u: Uevent) {
    forall n :: n in g.events ==> !(u.path <= g.events[n].path && g.events[n].path != u.path)
  }

  /** Every event of the run is added in such a state. */
  ghost predicate AddsParentsFirst(g: Graph, ls: seq<Label>)
    requires Legal(g, ls)
    decreases |ls|
  {
    ls != [] ==>
      && (ls[0].Add? ==> NoExtensionPending(g, ls[0].u))
      && AddsParentsFirst(Next(g, ls[0]), ls[1..])
  }

  /** f is on e's own or an ancestor path and earlier. */
  predicate EarlierOnPath(g: Graph, f: int, e: int)
    requires f in g.events && e in g.events
  {
    f < e && AncestorOrSelf(g.events[f].path, g.events[e].path)
  }

  /** One edge each is enough: it covers the whole ancestor chain. */
  ghost predicate Ordered(g: Graph)
    requires Inv(g)
  {
    forall f, e :: f in g.events && e in g.events && EarlierOnPath(g, f, e) ==> OnChain(g, f, e)
  }

  lemma OrderedAdd(g: Graph, u: Uevent)
    requires Inv(g) && Ordered(g) && FreshSeqnum(g, u) && NoExtensionPending(g, u)
    requires ParentsFirst(g)
    ensures Inv(Next(g, Add(u))) && Ordered(Next(g, Add(u))) && ParentsFirst(Next(g, Add(u)))
  {
    InvNext(g, Add(u));
    var h := Next(g, Add(u));
    forall f, e | f in h.events && e in h.events && EarlierOnPath(h, f, e)
      ensures OnChain(h, f, e)
    {
      if e != u.seqnum {
        assert EarlierOnPath(g, f, e);
        ChainUnchangedByAdd(g, u, f, e);
      } else {
        NewestCovers(g, u, f);
        ChainOfAdded(g, u, f);
      }
    }
  }

  /** No pending event is on a path that extends that of a later pending event. */
  predicate ParentsFirst(g: Graph) {
    forall f, d :: f in g.events && d in g.events && f < d ==>
      !(g.events[d].path <= g.events[f].path && g.events[f].path != g.events[d].path)
  }

  lemma NewestCovers(g: Graph, u: Uevent, f: int)
    requires Inv(g) && Ordered(g) && ParentsFirst(g) && NoExtensionPending(g, u)
    requires FreshSeqnum(g, u) && f in g.events && AncestorOrSelf(g.events[f].path, u.path)
    ensures Covered(g, u, f)
  {
    assert f in Candidates(g.events, u);
    LatestIsPending(g, u);
    LatestIsRelated(g.events, u);
    var d := Latest(g.events, u).value;
    if f != d {
      AncestorsComparable(g.events[f].path, g.events[d].path, u.path);
      if !AncestorOrSelf(g.events[f].path, g.events[d].path) {
        AncestorIsPrefix(g.events[d].path, g.events[f].path);
        assert false;
      }
      assert EarlierOnPath(g, f, d);
    }
  }

  lemma OrderedNext(g: Graph, l: Label)
    requires Inv(g) && Ordered(g) && ParentsFirst(g) && Enabled(g, l)
    requires l.Add? ==> NoExtensionPending(g, l.u)
    ensures Inv(Next(g, l)) && Ordered(Next(g, l)) && ParentsFirst(Next(g, l))
  {
    InvNext(g, l);
    if l.Add? {
      OrderedAdd(g, l.u);
    } else {
      var h := Next(g, l);
      forall f, e | f in h.events && e in h.events && EarlierOnPath(h, f, e)
        ensures OnChain(h, f, e)
      {
        assert EarlierOnPath(g, f, e);
        ChainStep(g, l, f, e);
      }
    }
  }

  lemma {:induction false} OrderedRun(g: Graph, ls: seq<Label>)
    requires Inv(g) && Ordered(g) && ParentsFirst(g) && Legal(g, ls) && AddsParentsFirst(g, ls)
    ensures Inv(After(g, ls)) && Ordered(After(g, ls))
    decreases |ls|
  {
    if ls == [] {
    } else {
      OrderedNext(g, ls[0]);
      OrderedRun(Next(g, ls[0]), ls[1..]);
    }
  }

  /** Along any run that starts empty and adds no event while a pending path extends its path, an
      event that is ready or being handled has no earlier event on its own or an ancestor path
      still pending. */
  lemma AncestorsCompleteBeforeDispatch(ls: seq<Label>, f: int, e: int)
    requires Legal(EMPTY, ls) && AddsParentsFirst(EMPTY, ls)
    requires var g := After(EMPTY, ls);
             && e in g.events && (e in g.inFlight || e in g.ready)
             && f in g.events
    ensures !EarlierOnPath(After(EMPTY, ls), f, e)
  {
    OrderedRun(EMPTY, ls);
    var g := After(EMPTY, ls);
    assert !Waiting(g, e);
  }

  // Two runs that break the documented order

  function DeviceEvent(path: string, n: int): Uevent {
    Uevent("change", path, "", "", "", "", "", "", "", -1, -1, -1, n)
  }

  /** Adds u after a run that reached g; d is the prerequisite, or -1. */
  lemma RunAdd(ls: seq<Label>, g: Graph, u: Uevent, d: int)
    requires Legal(EMPTY, ls) && After(EMPTY, ls) == g && Inv(g) && FreshSeqnum(g, u)
    requires d == -1 || (d in g.events && Related(g.events[d], u))
    requires forall n :: n in g.events && n > d ==> !Related(g.events[n], u)
    ensures Legal(EMPTY, ls + [Add(u)]) && After(EMPTY, ls + [Add(u)]) == AddEvent(g, u)
    ensures Inv(AddEvent(g, u))
    ensures var h := g.(events := g.events[u.seqnum := u], next := u.seqnum + 1);
            AddEvent(g, u) == if d == -1 then h.(ready := g.ready + [u.seqnum])
                              else h.(edges := g.edges[d := Dependents(g.edges, d) + [u.seqnum]])
  {
    InvNext(g, Add(u));
    if d != -1 {
      MaxUnique(Candidates(g.events, u), d);
    } else {
      assert Candidates(g.events, u) == {};
    }
    assert [Add(u)][1..] == [];
    RunConcat(EMPTY, ls, [Add(u)]);
  }

  /** A chain of edges that misses f, and an overtaking run from it. */
  lemma Overtake(adds: seq<Label>, f: int, e: int) returns (ls: seq<Label>)
    requires Legal(EMPTY, adds) && Inv(After(EMPTY, adds))
    requires var g := After(EMPTY, adds);
             f in g.events && e in g.events && f != e && !OnChain(g, f, e)
    ensures Legal(EMPTY, ls) && f in After(EMPTY, ls).events
    ensures e in After(EMPTY, ls).events && e in After(EMPTY, ls).inFlight
    ensures After(EMPTY, ls).events[f] == After(EMPTY, adds).events[f]
    ensures After(EMPTY, ls).events[e] == After(EMPTY, adds).events[e]
  {
    var g := After(EMPTY, adds);
    var more := OvertakingRun(g, f, e);
    KeepsEvent(g, more, f);
    KeepsEvent(g, more, e);
    RunConcat(EMPTY, adds, more);
    ls := adds + more;
  }

  lemma {:induction false} KeepsEvent(g: Graph, ls: seq<Label>, n: int)
    requires Inv(g) && Legal(g, ls) && n in g.events && n in After(g, ls).events
    ensures After(g, ls).events[n] == g.events[n]
    decreases |ls|
  {
    if ls == [] {
    } else {
      InvNext(g, ls[0]);
      if n in Next(g, ls[0]).events {
        KeepsEvent(Next(g, ls[0]), ls[1..], n);
      } else {
        GoneForGood(Next(g, ls[0]), ls[1..], n);
      }
    }
  }

  /** An event at the head of the queue's share has an empty chain; one behind d has d and d's. */
  lemma ReadyHasNoChain(g: Graph, f: int, e: int)
    requires Inv(g) && e in g.ready
    ensures !OnChain(g, f, e)
  {
  }

  lemma ChainBehind(g: Graph, f: int, d: int, e: int)
    requires Inv(g) && d in g.edges && e in g.edges[d] && f != d && !OnChain(g, f, d)
    ensures !OnChain(g, f, e)
  {
    WaitingUnder(g, d, e);
  }

  lemma PathsSideBySide()
    ensures !AncestorOrSelf("/a/b", "/a/c") && !("/a/c" <= "/a/b")
  {
    AncestorIffSlashPrefix("/a/b", "/a/c");
    assert "/a/c"[3] != "/a/b"[3];
  }

  lemma PathsSharingAPrefix()
    ensures !AncestorOrSelf("/a/b", "/a/bc") && !("/a/bc" <= "/a/b") && "/a/b" <= "/a/bc"
  {
    AncestorIffSlashPrefix("/a/b", "/a/bc");
  }

  lemma PathsNested()
    ensures AncestorOrSelf("/a", "/a/b") && "/a" <= "/a/c"
  {
    AncestorIffSlashPrefix("/a", "/a/b");
  }

  /** The four events of the first run. */
  predicate Siblings(u1: Uevent, u2: Uevent, u3: Uevent, u4: Uevent) {
    && u1 == DeviceEvent("/a/b", 1) && u2 == DeviceEvent("/a/c", 2)
    && u3 == DeviceEvent("/a", 3) && u4 == DeviceEvent("/a/b", 4)
  }

  lemma SiblingsRelated(u1: Uevent, u2: Uevent, u3: Uevent, u4: Uevent)
    requires Siblings(u1, u2, u3, u4)
    ensures u1.seqnum == 1 && u2.seqnum == 2 && u3.seqnum == 3 && u4.seqnum == 4 && u1.path == u4.path
    ensures !Related(u1, u2) && Related(u2, u3) && Related(u3, u4)
  {
    PathsSideBySide();
    PathsNested();
  }

  /** "/a/b", "/a/c", "/a", "/a/b": the fourth event waits on the third only and that one on the
      second only, so the fourth can be handled together with the first, on the same device. */
  lemma SiblingHidesSameDevice() returns (ls: seq<Label>)
    ensures Legal(EMPTY, ls)
    ensures var g := After(EMPTY, ls);
            && 1 in g.events && 4 in g.inFlight && 4 in g.events
            && g.events[1].path == g.events[4].path
  {
    var u1, u2, u3, u4 := DeviceEvent("/a/b", 1), DeviceEvent("/a/c", 2),
      DeviceEvent("/a", 3), DeviceEvent("/a/b", 4);
    SiblingsRelated(u1, u2, u3, u4);
    var two := SiblingTwo(u1, u2);
    var three := SiblingThird(two, u1, u2, u3);
    var adds := SiblingFourth(three, u1, u2, u3, u4);
    SiblingChain(After(EMPTY, adds), u1, u2, u3, u4);
    ls := Overtake(adds, 1, 4);
  }

  lemma SiblingTwo(u1: Uevent, u2: Uevent) returns (two: seq<Label>)
    requires u1.seqnum == 1 && u2.seqnum == 2 && !Related(u1, u2)
    ensures Legal(EMPTY, two) && Inv(After(EMPTY, two))
    ensures After(EMPTY, two) == Graph(map[1 := u1, 2 := u2], [1, 2], map[], {}, 3)
  {
    RunAdd([], EMPTY, u1, -1);
    RunAdd([] + [Add(u1)], AddEvent(EMPTY, u1), u2, -1);
    two := [] + [Add(u1)] + [Add(u2)];
    assert [] + [1] + [2] == [1, 2];
  }

  lemma SiblingThird(two: seq<Label>, u1: Uevent, u2: Uevent, u3: Uevent) returns (three: seq<Label>)
    requires u3.seqnum == 3 && Related(u2, u3) && Legal(EMPTY, two) && Inv(After(EMPTY, two))
    requires After(EMPTY, two) == Graph(map[1 := u1, 2 := u2], [1, 2], map[], {}, 3)
    ensures Legal(EMPTY, three) && Inv(After(EMPTY, three))
    ensures After(EMPTY, three) == Graph(map[1 := u1, 2 := u2, 3 := u3], [1, 2], map[2 := [3]], {}, 4)
  {
    RunAdd(two, After(EMPTY, two), u3, 2);
    three := two + [Add(u3)];
    assert [] + [3] == [3];
  }

  lemma SiblingFourth(three: seq<Label>, u1: Uevent, u2: Uevent, u3: Uevent, u4: Uevent) returns (adds: seq<Label>)
    requires u4.seqnum == 4 && Related(u3, u4) && Legal(EMPTY, three) && Inv(After(EMPTY, three))
    requires After(EMPTY, three) == Graph(map[1 := u1, 2 := u2, 3 := u3], [1, 2], map[2 := [3]], {}, 4)
    ensures Legal(EMPTY, adds) && Inv(After(EMPTY, adds))
    ensures After(EMPTY, adds)
         == Graph(map[1 := u1, 2 := u2, 3 := u3, 4 := u4], [1, 2], map[2 := [3], 3 := [4]], {}, 5)
  {
    RunAdd(three, After(EMPTY, three), u4, 3);
    adds := three + [Add(u4)];
    assert [] + [4] == [4];
  }

  lemma SiblingChain(g: Graph, u1: Uevent, u2: Uevent, u3: Uevent, u4: Uevent)
    requires Inv(g) && g == Graph(map[1 := u1, 2 := u2, 3 := u3, 4 := u4], [1, 2], map[2 := [3], 3 := [4]], {}, 5)
    ensures !OnChain(g, 1, 4)
  {
    assert g.ready[1] == 2 && g.edges[2][0] == 3 && g.edges[3][0] == 4;
    ReadyHasNoChain(g, 1, 2);
    ChainBehind(g, 1, 2, 3);
    ChainBehind(g, 1, 3, 4);
  }

  /** "/a/b", "/a/bc", "/a/b": starts_with knows no '/', so the unrelated second event takes the
      third one's only edge. */
  lemma NamePrefixHidesSameDevice() returns (ls: seq<Label>)
    ensures Legal(EMPTY, ls)
    ensures var g := After(EMPTY, ls);
            && 1 in g.events && 3 in g.inFlight && 3 in g.events
            && g.events[1].path == g.events[3].path
  {
    var u1, u2, u3 := DeviceEvent("/a/b", 1), DeviceEvent("/a/bc", 2), DeviceEvent("/a/b", 3);
    PathsSharingAPrefix();
    var g1 := AddEvent(EMPTY, u1);
    RunAdd([], EMPTY, u1, -1);
    var g2 := AddEvent(g1, u2);
    RunAdd([] + [Add(u1)], g1, u2, -1);
    var g3 := AddEvent(g2, u3);
    RunAdd([] + [Add(u1)] + [Add(u2)], g2, u3, 2);
    assert 2 in g3.ready && 3 in g3.edges[2];
    ReadyHasNoChain(g3, 1, 2);
    ChainBehind(g3, 1, 2, 3);
    ls := Overtake([] + [Add(u1)] + [Add(u2)] + [Add(u3)], 1, 3);
  }
}
