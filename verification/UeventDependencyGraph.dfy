/** The graph's containers and the bodies of its critical sections. */
module UeventDependencyGraphs {
  import opened Wrappers
  import opened Strings
  import opened PosixPath
  import opened Uevents
  import opened EventPaths
  import opened SchedulerModel

  /** The sorted set holds exactly the (path, seqnum) pairs of the pending events. */
  ghost predicate Indexes(paths: seq<PathKey>, events: map<int, Uevent>) {
    && Sorted(paths)
    && (forall k :: k in paths ==> k.seqnum in events && events[k.seqnum].path == k.path)
    && (forall n :: n in events ==> PathKey(events[n].path, n) in paths)
  }

  lemma KeyOrderPaths(a: PathKey, b: PathKey)
    requires KeyLess(a, b)
    ensures !LexLess(b.path, a.path)
  {
    LexIrreflexive(a.path);
    if LexLess(b.path, a.path) && LexLess(a.path, b.path) {
      LexTransitive(a.path, b.path, a.path);
    }
  }

  /** A strict extension of u.path comes after (u.path, u.seqnum), whatever its number. */
  lemma ExtensionIsLater(u: Uevent, k: PathKey)
    requires u.path <= k.path && k.path != u.path
    ensures KeyLess(PathKey(u.path, u.seqnum), k)
  {
    PrefixNotGreater(u.path, k.path);
    LexTotal(u.path, k.path);
  }

  /** Everything past upper_bound({u.path, u.seqnum}) that extends u.path as a string lies before
      the first entry that does not. */
  lemma ExtensionsFound(paths: seq<PathKey>, u: Uevent, stop: nat, i: nat)
    requires Sorted(paths) && i < |paths|
    requires UpperBound(paths, PathKey(u.path, u.seqnum)) <= stop <= |paths|
    requires stop < |paths| ==> !(u.path <= paths[stop].path)
    requires u.path <= paths[i].path && paths[i].path != u.path
    ensures UpperBound(paths, PathKey(u.path, u.seqnum)) <= i < stop
  {
    ExtensionIsLater(u, paths[i]);
    if stop <= i {
      KeyOrderPaths(PathKey(u.path, u.seqnum), paths[stop]);
      if stop < i {
        KeyOrderPaths(paths[stop], paths[i]);
      }
      PrefixInterval(u.path, paths[stop].path, paths[i].path);
      assert false;
    }
  }

  /** The predecessor of upper_bound({a, bound}) is the latest event on path a up to bound, if
      there is one. */
  lemma PredecessorFound(paths: seq<PathKey>, events: map<int, Uevent>, a: string, bound: int, n: int)
    requires Indexes(paths, events) && n in events && events[n].path == a && n <= bound
    ensures var at := UpperBound(paths, PathKey(a, bound));
            at > 0 && paths[at - 1].path == a && n <= paths[at - 1].seqnum <= bound
  {
    var key := PathKey(a, bound);
    var at := UpperBound(paths, key);
    var i :| 0 <= i < |paths| && paths[i] == PathKey(a, n);
    LexIrreflexive(a);
    assert !KeyLess(key, paths[i]);
    assert i < at;
    var last := paths[at - 1];
    assert i == at - 1 || KeyLess(paths[i], last);
    assert !KeyLess(key, last);
    LexTotal(last.path, a);
    if LexLess(a, last.path) || LexLess(last.path, a) {
      if LexLess(last.path, a) {
        LexTransitive(a, last.path, a);
      }
      assert false;
    }
  }

  /** What Add has to establish. */
  lemma AddKeepsValid(g: Graph, paths: seq<PathKey>, u: Uevent)
    requires Inv(g) && Indexes(paths, g.events) && FreshSeqnum(g, u)
    ensures u.seqnum !in g.events && PathKey(u.path, u.seqnum) !in paths
    ensures Inv(AddEvent(g, u))
    ensures Indexes(EventPaths.Insert(paths, PathKey(u.path, u.seqnum)), AddEvent(g, u).events)
  {
    InvNext(g, Label.Add(u));
  }

  lemma IndexesErase(paths: seq<PathKey>, events: map<int, Uevent>, n: int)
    requires Indexes(paths, events) && n in events
    ensures Indexes(Erase(paths, PathKey(events[n].path, n)), events - {n})
  {
  }

  /** A bound that is attained, or -1, names the latest candidate. */
  lemma LatestFromBound(events: map<int, Uevent>, u: Uevent, m: int)
    requires forall n :: n in events ==> n >= 0
    requires m == -1 || m in Candidates(events, u)
    requires forall n :: n in Candidates(events, u) ==> n <= m
    ensures Latest(events, u) == if m == -1 then None else Some(m)
  {
    if Candidates(events, u) != {} {
      MaxUnique(Candidates(events, u), Max(Candidates(events, u)));
    }
  }

  /** m bounds the earlier events among the entries from upper_bound up to index d. */
  ghost predicate Scanned(paths: seq<PathKey>, events: map<int, Uevent>, u: Uevent, d: nat, m: int)
    requires Sorted(paths)
  {
    && UpperBound(paths, PathKey(u.path, u.seqnum)) <= d <= |paths|
    && (m == -1 || m in Candidates(events, u))
    && forall i :: UpperBound(paths, PathKey(u.path, u.seqnum)) <= i < d && paths[i].seqnum < u.seqnum
         ==> paths[i].seqnum <= m
  }

  lemma ScanStep(paths: seq<PathKey>, events: map<int, Uevent>, u: Uevent, d: nat, m: int)
    requires Indexes(paths, events) && forall n :: n in events ==> events[n].seqnum == n
    requires Scanned(paths, events, u, d, m) && d < |paths| && u.path <= paths[d].path
    ensures var n := paths[d].seqnum;
            Scanned(paths, events, u, d + 1, if n < u.seqnum && n > m then n else m)
  {
    assert paths[d] in paths;
    if paths[d].path == u.path {
      LexIrreflexive(u.path);
      assert KeyLess(PathKey(u.path, u.seqnum), paths[d]);
    }
  }

  lemma ScanDone(paths: seq<PathKey>, events: map<int, Uevent>, u: Uevent, d: nat, m: int, n: int)
    requires Indexes(paths, events) && Scanned(paths, events, u, d, m)
    requires d < |paths| ==> !(u.path <= paths[d].path)
    requires n in events && n < u.seqnum && u.path <= events[n].path && events[n].path != u.path
    ensures n <= m
  {
    var i :| 0 <= i < |paths| && paths[i] == PathKey(events[n].path, n);
    ExtensionsFound(paths, u, d, i);
  }

  /** m bounds every candidate, but those on the rest of the walk from `ancestor`. */
  ghost predicate Searched(events: map<int, Uevent>, u: Uevent, ancestor: string, m: int) {
    && (m == -1 || m in Candidates(events, u))
    && (Terminal(ancestor) || AncestorOrSelf(ancestor, u.path))
    && forall n :: n in Candidates(events, u) ==> n <= m || AncestorOrSelf(events[n].path, ancestor)
  }

  lemma SearchStep(events: map<int, Uevent>, u: Uevent, a: string, m: int, latest: int)
    requires Searched(events, u, a, m) && !Terminal(a) && u.seqnum !in events
    requires forall n :: n in events ==> events[n].seqnum == n
    requires latest == -1 || (latest in events && events[latest].path == a && latest <= u.seqnum)
    requires forall n :: (n in events && events[n].path == a && n <= u.seqnum) ==> n <= latest
    ensures Searched(events, u, Dirname(a), if latest > m then latest else m)
  {
    WalkStep(a, u.path);
  }

  class UeventDependencyGraph {
    var events: map<int, Uevent>
    var dependencyFreeEvents: seq<int>
    var dependencies: map<int, seq<int>>
    var eventPaths: seq<PathKey>
    /** Popped and not completed; the source keeps these only in its workers' hands. */
    ghost var inFlight: set<int>
    /** Above every number added so far. */
    ghost var next: int

    ghost function Model(): Graph
      reads this
    {
      Graph(events, dependencyFreeEvents, dependencies, inFlight, next)
    }

    ghost predicate Valid()
      reads this
    {
      Inv(Model()) && Indexes(eventPaths, events)
    }

    constructor ()
      ensures Valid() && Model() == EMPTY
    {
      events, dependencyFreeEvents, dependencies := map[], [], map[];
      eventPaths, inFlight, next := [], {}, 0;
    }

    /** What the search relies on. */
    ghost predicate SearchValid()
      reads this
    {
      Indexes(eventPaths, events) && forall n :: n in events ==> events[n].seqnum == n && n >= 0
    }

    /** First half of the search: a value no smaller than any candidate on a path below u's. */
    method FindDescendant(u: Uevent) returns (maxSeqnum: int)
      requires SearchValid()
      ensures maxSeqnum == -1 || maxSeqnum in Candidates(events, u)
      ensures forall n :: (n in events && n < u.seqnum && u.path <= events[n].path && events[n].path != u.path)
                ==> n <= maxSeqnum
    {
      maxSeqnum := -1;
      var descendant := UpperBound(eventPaths, PathKey(u.path, u.seqnum));
      while descendant < |eventPaths| && u.path <= eventPaths[descendant].path
        invariant Scanned(eventPaths, events, u, descendant, maxSeqnum)
      {
        var entry := eventPaths[descendant];
        ScanStep(eventPaths, events, u, descendant, maxSeqnum);
        if entry.seqnum < u.seqnum && entry.seqnum > maxSeqnum {
          maxSeqnum := entry.seqnum;
        }
        descendant := descendant + 1;
      }
      forall n | n in events && n < u.seqnum && u.path <= events[n].path && events[n].path != u.path
        ensures n <= maxSeqnum
      {
        ScanDone(eventPaths, events, u, descendant, maxSeqnum, n);
      }
    }

    /** One step of the second half: the predecessor of upper_bound({a, bound}), or -1 when it is
        not on path a. */
    method LatestOnPath(a: string, bound: int) returns (r: int)
      requires SearchValid()
      ensures r == -1 || (r in events && events[r].path == a && r <= bound)
      ensures forall n :: (n in events && events[n].path == a && n <= bound) ==> n <= r
    {
      r := -1;
      var it := UpperBound(eventPaths, PathKey(a, bound));
      if it != 0 {
        var entry := eventPaths[it - 1];
        if entry.path == a {
          assert entry in eventPaths && !KeyLess(PathKey(a, bound), entry);
          r := entry.seqnum;
        }
      }
      forall n | n in events && events[n].path == a && n <= bound
        ensures n <= r
      {
        PredecessorFound(eventPaths, events, a, bound, n);
      }
    }

    /** The search through the sorted set finds exactly the latest related pending event. */
    method FindDependency(u: Uevent) returns (dependency: Option<int>)
      requires SearchValid() && u.seqnum !in events
      ensures dependency == Latest(events, u)
    {
      var maxSeqnum := FindDescendant(u);
      var ancestor := u.path;
      while ancestor != "/" && ancestor != "."
        invariant Searched(events, u, ancestor, maxSeqnum)
        decreases PathMeasure(ancestor)
      {
        var latest := LatestOnPath(ancestor, u.seqnum);
        SearchStep(events, u, ancestor, maxSeqnum, latest);
        if latest > maxSeqnum {
          maxSeqnum := latest;
        }
        ancestor := Dirname(ancestor);
      }
      dependency := if maxSeqnum == -1 then None else Some(maxSeqnum);
      LatestFromBound(events, u, maxSeqnum);
    }

    /** The body of Add under the lock. */
    method AddLocked(u: Uevent) returns (shouldWakeThread: bool)
      requires SearchValid() && u.seqnum !in events && PathKey(u.path, u.seqnum) !in eventPaths
      modifies this
      ensures Model() == AddEvent(old(Model()), u)
      ensures eventPaths == EventPaths.Insert(old(eventPaths), PathKey(u.path, u.seqnum))
      ensures shouldWakeThread == Latest(old(events), u).None?
    {
      shouldWakeThread := false;
      var dependency := FindDependency(u);
      if dependency.Some? {
        var d := dependency.value;
        dependencies := dependencies[d := Dependents(dependencies, d) + [u.seqnum]];
      } else {
        dependencyFreeEvents := dependencyFreeEvents + [u.seqnum];
        shouldWakeThread := true;
      }
      eventPaths := EventPaths.Insert(eventPaths, PathKey(u.path, u.seqnum));
      events, next := events[u.seqnum := u], u.seqnum + 1;
    }

    /** Returns whether a worker is to be woken once the lock is released. */
    method Add(u: Uevent) returns (shouldWakeThread: bool)
      requires Valid() && FreshSeqnum(Model(), u)
      modifies this
      ensures Valid() && Model() == Next(old(Model()), Label.Add(u))
      ensures shouldWakeThread == Latest(old(events), u).None?
    {
      AddKeepsValid(Model(), eventPaths, u);
      shouldWakeThread := AddLocked(u);
    }

    /** PopDependencyFreeEventWithoutLock: the front of the queue; the event stays in the graph
        until it is completed. */
    method PopDependencyFreeEvent() returns (r: Option<Uevent>)
      requires Valid()
      modifies this`dependencyFreeEvents, this`inFlight
      ensures Valid()
      ensures r.None? <==> old(dependencyFreeEvents) == []
      ensures r.None? ==> Model() == old(Model())
      ensures r.Some? ==>
                && Model() == Next(old(Model()), Pop)
                && r.value.seqnum == old(dependencyFreeEvents)[0]
                && r.value == events[r.value.seqnum]
    {
      if dependencyFreeEvents == [] {
        return None;
      }
      InvNext(Model(), Pop);
      var seqnum := dependencyFreeEvents[0];
      assert seqnum in dependencyFreeEvents;
      dependencyFreeEvents := dependencyFreeEvents[1..];
      inFlight := inFlight + {seqnum};
      return Some(events[seqnum]);
    }

    /** Frees the dependents in insertion order and forgets the event. */
    method MarkEventCompleted(seqnum: int) returns (shouldWakeThread: bool)
      requires Valid() && seqnum in inFlight
      modifies this
      ensures Valid() && Model() == Next(old(Model()), Complete(seqnum))
      ensures shouldWakeThread <==> Dependents(old(dependencies), seqnum) != []
    {
      InvNext(Model(), Complete(seqnum));
      shouldWakeThread := false;
      var freed := Dependents(dependencies, seqnum);
      var i := 0;
      while i < |freed|
        invariant 0 <= i <= |freed|
        invariant dependencyFreeEvents == old(dependencyFreeEvents) + freed[..i]
        invariant shouldWakeThread <==> i > 0
        modifies this`dependencyFreeEvents
      {
        dependencyFreeEvents := dependencyFreeEvents + [freed[i]];
        shouldWakeThread := true;
        i := i + 1;
      }
      assert freed[..i] == freed;
      IndexesErase(eventPaths, events, seqnum);
      dependencies := dependencies - {seqnum};
      eventPaths := Erase(eventPaths, PathKey(events[seqnum].path, seqnum));
      events := events - {seqnum};
      inFlight := inFlight - {seqnum};
    }
  }
}
