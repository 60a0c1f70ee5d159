/** The first run of ueventd: cold boot, then polling until the mount handler has all it needs.  Only then
    does first-stage init go on to mount. */
module FirstRuns {
  import opened Wrappers
  import opened MountTypes
  import opened MountHandlers
  import PlanSafety

  /** A handled uevent: the block device it reports, if it is one. */
  type Handled = Option<Report>

  ghost predicate ProbesValid(events: seq<Handled>) {
    forall i :: 0 <= i < |events| && events[i].Some? ==> ProbeValid(events[i].value.device)
  }

  ghost predicate AllValid(reports: seq<Report>) {
    forall i :: 0 <= i < |reports| ==> ProbeValid(reports[i].device)
  }

  lemma {:induction false} ReportedSnoc(s: Mounts, rs: seq<Report>, r: Report)
    ensures ReportedAll(s, rs + [r]) == Reported(ReportedAll(s, rs), r)
    decreases |rs|
  {
    if rs == [] {
      assert rs + [r] == [r];
      assert ReportedAll(Reported(s, r), [r][1..]) == Reported(s, r);
    } else {
      assert (rs + [r])[1..] == rs[1..] + [r];
      ReportedSnoc(Reported(s, rs[0]), rs[1..], r);
    }
  }

  /** The block devices among some events. */
  function Devices(events: seq<Handled>): seq<Report>
    decreases |events|
  {
    if events == [] then []
    else
      var last := events[|events| - 1];
      Devices(events[..|events| - 1]) + if last.Some? then [last.value] else []
  }

  lemma DevicesSnoc(events: seq<Handled>, e: Handled)
    ensures Devices(events + [e]) == Devices(events) + if e.Some? then [e.value] else []
  {
    assert (events + [e])[..|events + [e]| - 1] == events;
  }

  lemma {:induction false} DevicesValid(events: seq<Handled>)
    requires ProbesValid(events)
    ensures AllValid(Devices(events))
    decreases |events|
  {
    if events == [] {
    } else {
      DevicesValid(events[..|events| - 1]);
    }
  }

  /** What the socket delivers, poll after poll. */
  function Stream(polls: seq<seq<Handled>>): seq<Handled>
    decreases |polls|
  {
    if polls == [] then [] else Stream(polls[..|polls| - 1]) + polls[|polls| - 1]
  }

  lemma StreamNext(polls: seq<seq<Handled>>, i: nat)
    requires i < |polls|
    ensures Stream(polls[..i + 1]) == Stream(polls[..i]) + polls[i]
  {
    assert polls[..i + 1][..i] == polls[..i];
  }

  lemma {:induction false} StreamPrefix(polls: seq<seq<Handled>>, i: nat)
    requires i <= |polls|
    ensures Stream(polls[..i]) <= Stream(polls)
    decreases |polls| - i
  {
    if i == |polls| {
      assert polls[..i] == polls;
    } else {
      StreamNext(polls, i);
      StreamPrefix(polls, i + 1);
    }
  }

  /** Whether the handler is ready once some events have been handled. */
  predicate ReadyAfter(boot: map<string, string>, events: seq<Handled>) {
    Ready(PlanSafety.Observed(boot, Devices(events)))
  }

  /** The handler is not ready after so many of the events, from lo to hi, both not counted. */
  predicate NeverReady(boot: map<string, string>, events: seq<Handled>, lo: nat, hi: nat) {
    forall m: nat :: lo < m < hi && m <= |events| ==> !ReadyAfter(boot, events[..m])
  }

  lemma NeverReadyOn(boot: map<string, string>, a: seq<Handled>, b: seq<Handled>, lo: nat)
    requires a <= b && NeverReady(boot, a, lo, |a| + 1) && NeverReady(boot, b, |a|, |b|)
    ensures NeverReady(boot, b, lo, |b|)
  {
    forall m: nat | lo < m < |b|
      ensures !ReadyAfter(boot, b[..m])
    {
      if m <= |a| {
        assert b[..m] == a[..m];
      }
    }
  }

  lemma NeverReadyYet(boot: map<string, string>, events: seq<Handled>, lo: nat)
    requires NeverReady(boot, events, lo, |events|) && (lo < |events| ==> !ReadyAfter(boot, events))
    ensures NeverReady(boot, events, lo, |events| + 1)
  {
    assert events[..|events|] == events;
  }

  predicate ReadyAfterPolls(boot: map<string, string>, before: seq<Handled>, polls: seq<seq<Handled>>, j: nat)
    requires j <= |polls|
  {
    ReadyAfter(boot, before + Stream(polls[..j]))
  }

  lemma OneMore(delivered: seq<Handled>, i: nat)
    requires i < |delivered| && ProbesValid(delivered)
    ensures ProbesValid([delivered[i]]) && delivered[..i + 1] == delivered[..i] + [delivered[i]]
  {
    assert [delivered[i]][0] == delivered[i];
  }

  class Ueventd {
    const handler: MountHandler
    const boot: map<string, string>
    /** The events handled so far. */
    ghost var handled: seq<Handled>

    ghost predicate Valid()
      reads this, handler
    {
      ProbesValid(handled) && handler.Model() == PlanSafety.Observed(boot, Devices(handled))
    }

    /** OnPreBlockDevices */
    constructor (bootConfig: map<string, string>)
      ensures Valid() && boot == bootConfig && handled == [] && fresh(handler)
    {
      boot, handled := bootConfig, [];
      handler := new MountHandler();
      new;
      handler.ParseConfig(bootConfig);
    }

    method HandleUevent(event: Handled)
      requires Valid() && ProbesValid([event])
      modifies this, handler
      ensures Valid() && handled == old(handled) + [event]
    {
      assert [event][0] == event;
      DevicesSnoc(handled, event);
      if event.Some? {
        ReportedSnoc(Configured(ParamsOf(boot)), Devices(handled), event.value);
        handler.OnBlockDeviceAdd(event.value);
      } else {
        assert Devices(handled) + [] == Devices(handled);
      }
      handled := handled + [event];
    }

    method CanQuit() returns (ready: bool)
      requires Valid()
      ensures ready == Ready(handler.Model()) == ReadyAfter(boot, handled)
    {
      DevicesValid(handled);
      PlanSafety.ObservedInv(boot, Devices(handled));
      ready := handler.CanQuitUeventd();
    }

    /** Handles what the socket delivers in order; the callback of the first run stops it at the first event
        after which the handler is ready. */
    method Poll(delivered: seq<Handled>, firstRun: bool) returns (ghost taken: nat)
      requires Valid() && ProbesValid(delivered)
      modifies this, handler
      ensures Valid() && taken <= |delivered| && handled == old(handled) + delivered[..taken]
      ensures taken < |delivered| ==> firstRun && ReadyAfter(boot, handled)
      ensures firstRun ==> NeverReady(boot, handled, |old(handled)|, |handled|)
    {
      var i := 0;
      while i < |delivered|
        invariant 0 <= i <= |delivered| && Valid() && handled == old(handled) + delivered[..i]
        invariant firstRun ==> NeverReady(boot, handled, |old(handled)|, |handled| + 1)
      {
        ghost var before := handled;
        OneMore(delivered, i);
        HandleUevent(delivered[i]);
        i := i + 1;
        assert handled == old(handled) + delivered[..i];
        var ready := CanQuit();
        if firstRun {
          NeverReadyOn(boot, before, handled, |old(handled)|);
          if ready {
            return i;
          }
          NeverReadyYet(boot, handled, |old(handled)|);
        }
      }
      taken := i;
    }

    /** One round of main_loop; not ready means that it goes on. */
    method PollOnce(delivered: seq<Handled>, firstRun: bool) returns (ready: bool, ghost taken: nat)
      requires Valid() && ProbesValid(delivered)
      modifies this, handler
      ensures Valid() && taken <= |delivered| && handled == old(handled) + delivered[..taken]
      ensures ready == ReadyAfter(boot, handled) && (taken < |delivered| ==> firstRun && ready)
      ensures firstRun ==> NeverReady(boot, handled, |old(handled)|, |handled|)
    {
      taken := Poll(delivered, firstRun);
      ready := CanQuit();
    }

    /** main_loop; false while it would still be polling. */
    method MainLoop(polls: seq<seq<Handled>>, firstRun: bool) returns (exited: bool, ghost used: nat, ghost n: nat)
      requires Valid() && forall i :: 0 <= i < |polls| ==> ProbesValid(polls[i])
      modifies this, handler
      ensures Valid()
      ensures exited ==> LeavesAt(boot, old(handled), polls, used, n, firstRun, handled)
      ensures !exited ==> StillPolling(boot, old(handled), polls, |polls|, firstRun, handled)
    {
      used, n := 0, 0;
      var i := 0;
      PollsStart(boot, handled, polls, firstRun);
      while i < |polls|
        invariant 0 <= i <= |polls| && Valid()
        invariant StillPolling(boot, old(handled), polls, i, firstRun, handled)
      {
        ghost var before := handled;
        var ready;
        ghost var taken;
        ready, taken := PollOnce(polls[i], firstRun);
        if ready {
          PollLeaves(boot, old(handled), polls, i, firstRun, before, taken, handled);
          return true, i + 1, |Stream(polls[..i])| + taken;
        }
        PollAgain(boot, old(handled), polls, i, firstRun, before, handled);
        i := i + 1;
      }
      return false, i, n;
    }

    /** ueventd_main with the sequential loop: cold boot over the regenerated events, and the main loop unless
        the first run needs no more.  When it exits, mounting cannot meet a missing device. */
    method UeventdMain(queue: seq<Handled>, polls: seq<seq<Handled>>, firstRun: bool)
      returns (exited: bool, ghost used: nat, ghost n: nat)
      requires Valid() && ProbesValid(queue) && forall i :: 0 <= i < |polls| ==> ProbesValid(polls[i])
      modifies this, handler
      ensures Valid()
      ensures var start := old(handled) + queue;
              if firstRun && ReadyAfter(boot, start) then exited && handled == start
              else if exited then LeavesAt(boot, start, polls, used, n, firstRun, handled)
              else StillPolling(boot, start, polls, |polls|, firstRun, handled)
      ensures exited ==> Ready(handler.Model()) && PlanSafety.NeverNull(handler.Model())
    {
      used, n := 0, 0;
      var i := 0;
      while i < |queue|
        invariant 0 <= i <= |queue| && Valid() && handled == old(handled) + queue[..i]
      {
        OneMore(queue, i);
        HandleUevent(queue[i]);
        i := i + 1;
      }
      assert queue[..i] == queue;
      var ready := CanQuit();
      if firstRun && ready {
        exited := true;
      } else {
        exited, used, n := MainLoop(polls, firstRun);
      }
      if exited {
        DevicesValid(handled);
        PlanSafety.ReadyPlannerIsSafe(boot, Devices(handled));
      }
    }
  }

  /** After i polls: all that they delivered is handled and none of them was left ready. */
  ghost predicate StillPolling(boot: map<string, string>, before: seq<Handled>, polls: seq<seq<Handled>>, i: nat,
                               firstRun: bool, now: seq<Handled>)
  {
    && i <= |polls| && now == before + Stream(polls[..i])
    && (forall j: nat :: 0 < j <= i ==> !ReadyAfterPolls(boot, before, polls, j))
    && (firstRun ==> NeverReady(boot, now, |before|, |now| + 1))
  }

  /** The loop is left ready: in the first run at the first event after which the handler is ready, in a later
      one at the end of the first poll that leaves it ready. */
  ghost predicate LeavesAt(boot: map<string, string>, before: seq<Handled>, polls: seq<seq<Handled>>, used: nat,
                           n: nat, firstRun: bool, now: seq<Handled>)
  {
    && 0 < used <= |polls| && n <= |Stream(polls)| && now == before + Stream(polls)[..n] && ReadyAfter(boot, now)
    && (firstRun ==> NeverReady(boot, now, |before|, |now|))
    && (!firstRun ==> now == before + Stream(polls[..used]))
    && (!firstRun ==> forall j: nat :: 0 < j < used ==> !ReadyAfterPolls(boot, before, polls, j))
  }

  lemma PollsStart(boot: map<string, string>, before: seq<Handled>, polls: seq<seq<Handled>>, firstRun: bool)
    ensures StillPolling(boot, before, polls, 0, firstRun, before)
  {
    assert polls[..0] == [] && before + [] == before;
  }

  lemma PollAgain(boot: map<string, string>, before: seq<Handled>, polls: seq<seq<Handled>>, i: nat, firstRun: bool,
                  prior: seq<Handled>, now: seq<Handled>)
    requires i < |polls| && StillPolling(boot, before, polls, i, firstRun, prior)
    requires now == prior + polls[i][..|polls[i]|] && !ReadyAfter(boot, now)
    requires firstRun ==> NeverReady(boot, now, |prior|, |now|)
    ensures StillPolling(boot, before, polls, i + 1, firstRun, now)
  {
    Handed(before, polls, i, |polls[i]|, now);
    if firstRun {
      NeverReadyOn(boot, prior, now, |before|);
      NeverReadyYet(boot, now, |before|);
    }
  }

  lemma PollLeaves(boot: map<string, string>, before: seq<Handled>, polls: seq<seq<Handled>>, i: nat, firstRun: bool,
                   prior: seq<Handled>, taken: nat, now: seq<Handled>)
    requires i < |polls| && StillPolling(boot, before, polls, i, firstRun, prior)
    requires taken <= |polls[i]| && now == prior + polls[i][..taken] && ReadyAfter(boot, now)
    requires taken < |polls[i]| ==> firstRun
    requires firstRun ==> NeverReady(boot, now, |prior|, |now|)
    ensures LeavesAt(boot, before, polls, i + 1, |Stream(polls[..i])| + taken, firstRun, now)
  {
    Handed(before, polls, i, taken, now);
    if firstRun {
      NeverReadyOn(boot, prior, now, |before|);
    }
  }

  /** What has been handled after a poll of which some events were taken. */
  lemma Handed(before: seq<Handled>, polls: seq<seq<Handled>>, i: nat, taken: nat, now: seq<Handled>)
    requires i < |polls| && taken <= |polls[i]| && now == before + Stream(polls[..i]) + polls[i][..taken]
    ensures var n := |Stream(polls[..i])| + taken; n <= |Stream(polls)| && now == before + Stream(polls)[..n]
    ensures taken == |polls[i]| ==> now == before + Stream(polls[..i + 1])
  {
    StreamNext(polls, i);
    StreamPrefix(polls, i + 1);
    assert Stream(polls)[..|Stream(polls[..i])| + taken] == Stream(polls[..i]) + polls[i][..taken];
    assert polls[i][..|polls[i]|] == polls[i];
  }

  /** Whatever the polls deliver and however it is cut into polls, a first run that is not ready after cold boot
      handles events up to the first after which it is, and goes on as long as there is none. */
  lemma FirstRunLeavesFirst(boot: map<string, string>, start: seq<Handled>, polls: seq<seq<Handled>>, used: nat,
                            n: nat, now: seq<Handled>)
    requires !ReadyAfter(boot, start)
    ensures LeavesAt(boot, start, polls, used, n, true, now) ==>
              && n <= |Stream(polls)| && now == start + Stream(polls)[..n] && ReadyAfter(boot, now)
              && forall m: nat :: m < n ==> !ReadyAfter(boot, start + Stream(polls)[..m])
    ensures StillPolling(boot, start, polls, |polls|, true, now) ==>
              forall m: nat :: m <= |Stream(polls)| ==> !ReadyAfter(boot, start + Stream(polls)[..m])
  {
    assert start + Stream(polls)[..0] == start;
    if LeavesAt(boot, start, polls, used, n, true, now) {
      PrefixesOf(start, Stream(polls)[..n], now);
      forall m: nat | m < n
        ensures !ReadyAfter(boot, start + Stream(polls)[..m])
      {
        assert Stream(polls)[..n][..m] == Stream(polls)[..m];
        assert now[..|start| + m] == start + Stream(polls)[..m];
      }
    }
    if StillPolling(boot, start, polls, |polls|, true, now) {
      assert polls[..|polls|] == polls;
      PrefixesOf(start, Stream(polls), now);
      forall m: nat | m <= |Stream(polls)|
        ensures !ReadyAfter(boot, start + Stream(polls)[..m])
      {
        assert now[..|start| + m] == start + Stream(polls)[..m];
      }
    }
  }

  lemma PrefixesOf(start: seq<Handled>, more: seq<Handled>, now: seq<Handled>)
    requires now == start + more
    ensures forall m: nat :: m <= |more| ==> now[..|start| + m] == start + more[..m]
  {
  }
}
