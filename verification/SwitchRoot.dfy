/** GetMounts and SwitchRoot as they run, and what they do to the mounts of a boot. */
module SwitchRoots {
  import opened Wrappers
  import opened SwitchRootModel
  import opened SwitchRootTheorem

  function View(t: MountTable, root: string): seq<Option<string>> {
    seq(|t|, i requires 0 <= i < |t| => Seen(t[i], root))
  }

  class MountNamespace {
    var table: MountTable

    constructor (t: MountTable)
      ensures table == t
    {
      table := t;
    }

    method GetMounts(newRoot: string) returns (result: seq<string>)
      ensures result == Chosen(table, newRoot)
    {
      result := [];
      var i := 0;
      while i < |table|
        invariant 0 <= i <= |table|
        invariant result == Chosen(table[..i], newRoot)
      {
        assert table[..i + 1][..i] == table[..i];
        var path := table[i];
        i := i + 1;
        if path == "/" {
          continue;
        }
        if path == newRoot {
          continue;
        }
        var found := false;
        var j := 0;
        while j < |result|
          invariant 0 <= j <= |result|
          invariant found <==> Blocked(result[..j], path)
        {
          BlockedSnoc(result, j, path);
          found := found || result[j] <= path;
          j := j + 1;
        }
        assert result[..|result|] == result;
        if found {
          continue;
        }
        result := result + [path];
      }
      assert table[..|table|] == table;
    }

    /** mount with MS_MOVE, when nothing outside the table makes it fail */
    method Move(from: string, to: string, works: bool) returns (ok: bool)
      modifies this
      ensures ok == (works && Moved(old(table), from, to).Some?)
      ensures table == if ok then Moved(old(table), from, to).value else old(table)
    {
      var r := Moved(table, from, to);
      ok := works && r.Some?;
      if ok {
        table := r.value;
      }
    }

    /** The loop of moves, stopped by the first that fails. The result of mkdir is not looked at: without
        the directory the move does not work. */
    method MoveAll(mounts: seq<string>, newRoot: string, k: RootCalls) returns (done: nat)
      modifies this
      ensures done == MovesDone(old(table), mounts, 0, newRoot, k)
      ensures After(old(table), mounts, done, newRoot) == Some(table)
    {
      done := 0;
      while done < |mounts|
        invariant 0 <= done <= |mounts| && After(old(table), mounts, done, newRoot) == Some(table)
        invariant MovesDone(old(table), mounts, done, newRoot, k) == MovesDone(old(table), mounts, 0, newRoot, k)
      {
        AfterNext(old(table), mounts, done, newRoot);
        var ok := Move(mounts[done], newRoot + mounts[done], k.moves(done));
        if !ok {
          return;
        }
        done := done + 1;
      }
    }

    /** False stands for LOG(FATAL); view gives each mount's path after the chroot. */
    method SwitchRoot(newRoot: string, k: RootCalls) returns (ok: bool, view: seq<Option<string>>)
      modifies this
      ensures var moves := Chosen(old(table), newRoot);
              && After(old(table), moves, MovesDone(old(table), moves, 0, newRoot, k), newRoot) == Some(table)
              && ok == Switched(old(table), newRoot, k)
              && (ok ==> view == View(table, newRoot))
    {
      view := [];
      var mounts := GetMounts(newRoot);
      var done := MoveAll(mounts, newRoot, k);
      if done < |mounts| {
        return false, view;
      }
      if !k.chdir {
        return false, view;
      }
      if !k.moveRoot {
        return false, view;
      }
      if !k.chroot {
        return false, view;
      }
      return true, View(table, newRoot);
    }
  }

  /** Whether the nth move works as far as the table does not decide, and the answers of chdir, of moving the
      new root to "/" and of chroot. */
  datatype RootCalls = RootCalls(moves: nat -> bool, chdir: bool, moveRoot: bool, chroot: bool)

  /** How many moves are made before the first that fails. */
  function MovesDone(t: MountTable, moves: seq<string>, n: nat, root: string, k: RootCalls): (done: nat)
    requires n <= |moves|
    ensures n <= done <= |moves|
    decreases |moves| - n
  {
    if n == |moves| || !k.moves(n) || After(t, moves, n + 1, root).None? then n else MovesDone(t, moves, n + 1, root, k)
  }

  /** No move from the nth on is made to fail. */
  ghost predicate MovesWork(k: RootCalls, n: nat, hi: nat) {
    forall i: nat :: n <= i < hi ==> k.moves(i)
  }

  /** The moves get through exactly when none is made to fail and the table allows them all. */
  lemma {:induction false} AllMovesDoneIff(t: MountTable, moves: seq<string>, n: nat, root: string, k: RootCalls)
    requires n <= |moves| && After(t, moves, n, root).Some?
    ensures MovesDone(t, moves, n, root, k) == |moves| <==>
            After(t, moves, |moves|, root).Some? && MovesWork(k, n, |moves|)
    decreases |moves| - n
  {
    if n == |moves| {
    } else if !k.moves(n) {
      assert !MovesWork(k, n, |moves|);
    } else if After(t, moves, n + 1, root).None? {
      NeverAgain(t, moves, n + 1, root);
    } else {
      AllMovesDoneIff(t, moves, n + 1, root, k);
      assert MovesWork(k, n, |moves|) <==> MovesWork(k, n + 1, |moves|);
    }
  }

  /** What SwitchRoot returns. */
  ghost predicate Switched(t: MountTable, root: string, k: RootCalls) {
    MovesDone(t, Chosen(t, root), 0, root, k) == |Chosen(t, root)| && k.chdir && k.moveRoot && k.chroot
  }

  /** SwitchRoot gets through and every mount keeps its path exactly when every call works and the moves
      cover the mounts, parents first, without a clash. */
  lemma SwitchedIff(t: MountTable, root: string, k: RootCalls)
    requires TableOk(t, root)
    ensures var c := Chosen(t, root);
            Switched(t, root, k) && Preserved(t, c, root) <==>
              && MovesWork(k, 0, |c|) && k.chdir && k.moveRoot && k.chroot
              && AllCovered(t, c, root) && ParentsFirst(c) && NoClash(c, root)
  {
    AllMovesDoneIff(t, Chosen(t, root), 0, root, k);
    ChosenMovesOk(t, root);
    PreservedIff(t, Chosen(t, root), root);
  }

  lemma BlockedSnoc(result: seq<string>, j: nat, path: string)
    requires j < |result|
    ensures Blocked(result[..j + 1], path) <==> Blocked(result[..j], path) || result[j] <= path
  {
    if Blocked(result[..j], path) {
      var i :| 0 <= i < |result[..j]| && result[..j][i] <= path;
      assert result[..j + 1][i] <= path;
    }
    if result[j] <= path {
      assert result[..j + 1][j] <= path;
    }
  }

  lemma AfterNext(t: MountTable, moves: seq<string>, n: nat, root: string)
    requires n < |moves| && After(t, moves, n, root).Some?
    ensures After(t, moves, n + 1, root) == Moved(After(t, moves, n, root).value, moves[n], root + moves[n])
  {
  }

  lemma {:induction false} NeverAgain(t: MountTable, moves: seq<string>, n: nat, root: string)
    requires n <= |moves| && After(t, moves, n, root).None?
    ensures After(t, moves, |moves|, root).None?
    decreases |moves| - n
  {
    if n == |moves| {
    } else {
      NeverAgain(t, moves, n + 1, root);
    }
  }

  // The mounts that are moved

  lemma {:induction false} ChosenOk(t: MountTable, root: string)
    ensures Choice(t, Chosen(t, root), root)
    decreases |t|
  {
    if t == [] {
    } else {
      var before, p := t[..|t| - 1], t[|t| - 1];
      assert t == before + [p];
      ChosenOk(before, root);
      ChosenSnoc(before, p, root);
      if Ordinary(p, root) && !Blocked(Chosen(before, root), p) {
        ChoiceAdds(before, Chosen(before, root), p, root);
      } else {
        ChoiceKeeps(before, Chosen(before, root), p, root);
      }
    }
  }

  lemma BlockedMore(chosen: seq<string>, p: string, q: string)
    requires Blocked(chosen, q)
    ensures Blocked(chosen + [p], q)
  {
    var i :| 0 <= i < |chosen| && chosen[i] <= q;
    assert (chosen + [p])[i] <= q;
  }

  lemma ChosenSnoc(before: MountTable, p: string, root: string)
    ensures Chosen(before + [p], root) ==
            if Ordinary(p, root) && !Blocked(Chosen(before, root), p) then Chosen(before, root) + [p]
            else Chosen(before, root)
  {
    assert (before + [p])[..|before + [p]| - 1] == before;
  }

  /** c is a choice from t. */
  ghost predicate Choice(t: MountTable, c: seq<string>, root: string) {
    && (forall i :: 0 <= i < |c| ==> c[i] in t && Ordinary(c[i], root))
    && (forall i: nat, j: nat :: i < j < |c| ==> NoPrefix(c, i, j))
    && (forall i :: 0 <= i < |t| && Ordinary(t[i], root) ==> Blocked(c, t[i]))
  }

  lemma ChoiceKeeps(before: MountTable, c: seq<string>, p: string, root: string)
    requires Choice(before, c, root) && (!Ordinary(p, root) || Blocked(c, p))
    ensures Choice(before + [p], c, root)
  {
  }

  lemma ChoiceAdds(before: MountTable, c: seq<string>, p: string, root: string)
    requires Choice(before, c, root) && Ordinary(p, root) && !Blocked(c, p)
    ensures Choice(before + [p], c + [p], root)
  {
    var t, c' := before + [p], c + [p];
    forall i: nat, j: nat | i < j < |c'|
      ensures NoPrefix(c', i, j)
    {
      assert j < |c| ==> NoPrefix(c, i, j);
    }
    forall i | 0 <= i < |t| && Ordinary(t[i], root)
      ensures Blocked(c', t[i])
    {
      if i < |before| {
        BlockedMore(c, p, before[i]);
      } else {
        assert c'[|c|] <= t[i];
      }
    }
  }

  lemma ChosenMovesOk(t: MountTable, root: string)
    ensures MovesOk(t, Chosen(t, root), root)
  {
    ChosenOk(t, root);
  }

  /** Among ordinary mounts a string prefix is a directory above. */
  predicate PrefixesAreParents(t: MountTable, root: string) {
    forall i: nat, j: nat :: i < |t| && j < |t| && Ordinary(t[i], root) && Ordinary(t[j], root) && t[i] <= t[j] ==>
      Under(t[i], t[j])
  }

  predicate ListedAfterParents(t: MountTable, root: string) {
    forall i: nat, j: nat :: i < j < |t| && Ordinary(t[i], root) && Ordinary(t[j], root) ==> !Under(t[j], t[i])
  }

  lemma {:induction false} ChosenParentsFirst(t: MountTable, root: string)
    requires ListedAfterParents(t, root)
    ensures ParentsFirst(Chosen(t, root))
    decreases |t|
  {
    if t == [] {
    } else {
      var before, p := t[..|t| - 1], t[|t| - 1];
      assert forall i: nat :: i < |before| ==> before[i] == t[i];
      ChosenParentsFirst(before, root);
      ChosenOk(before, root);
      var c, c' := Chosen(before, root), Chosen(t, root);
      forall i: nat, j: nat | i < j < |c'|
        ensures NotAbove(c', j, i)
      {
        if j < |c| {
          assert NotAbove(c, j, i);
        } else {
          assert c[i] in before;
        }
      }
    }
  }

  lemma PrefixIsAbove(t: MountTable, root: string, p: string, q: string)
    requires PrefixesAreParents(t, root) && p in t && q in t && Ordinary(p, root) && Ordinary(q, root) && p <= q
    ensures Under(p, q)
  {
    var i: nat :| i < |t| && t[i] == p;
    var j: nat :| j < |t| && t[j] == q;
    assert Under(t[i], t[j]);
  }

  lemma ChosenCovers(t: MountTable, root: string)
    requires PrefixesAreParents(t, root)
    ensures AllCovered(t, Chosen(t, root), root)
  {
    ChosenOk(t, root);
    var c := Chosen(t, root);
    forall k | 0 <= k < |t| && Ordinary(t[k], root)
      ensures Covers(c, |c|, t[k])
    {
      var i :| 0 <= i < |c| && c[i] <= t[k];
      PrefixIsAbove(t, root, c[i], t[k]);
    }
  }

  /** No chosen mount is above another, and together they are above every ordinary mount. */
  lemma ChosenIsAntichainCover(t: MountTable, root: string)
    requires PrefixesAreParents(t, root) && ListedAfterParents(t, root)
    ensures AllCovered(t, Chosen(t, root), root)
    ensures var c := Chosen(t, root); forall i: nat, j: nat :: i < |c| && j < |c| && i != j ==> NotAbove(c, i, j)
  {
    ChosenCovers(t, root);
    ChosenParentsFirst(t, root);
    ChosenOk(t, root);
    var c := Chosen(t, root);
    forall i: nat, j: nat | i < |c| && j < |c| && i != j
      ensures NotAbove(c, i, j)
    {
      if i < j {
        assert NoPrefix(c, i, j);
        if Under(c[i], c[j]) {
          UnderIsPrefix(c[i], c[j]);
          assert false;
        }
      } else {
        assert NotAbove(c, i, j);
      }
    }
  }

  /** Under the usual assumptions only clashes with what is mounted around the new root are left. */
  lemma SwitchPreservesIff(t: MountTable, root: string)
    requires TableOk(t, root) && PrefixesAreParents(t, root) && ListedAfterParents(t, root)
    ensures Preserved(t, Chosen(t, root), root) <==> NoClash(Chosen(t, root), root)
  {
    ChosenMovesOk(t, root);
    ChosenCovers(t, root);
    ChosenParentsFirst(t, root);
    PreservedIff(t, Chosen(t, root), root);
  }

  /** With nothing mounted above or below the new root the namespace always survives. */
  lemma LonelyRootPreserves(t: MountTable, root: string)
    requires TableOk(t, root) && PrefixesAreParents(t, root) && ListedAfterParents(t, root)
    requires forall i :: 0 <= i < |t| && Ordinary(t[i], root) ==> !Comparable(t[i], root)
    ensures Preserved(t, Chosen(t, root), root)
  {
    var c := Chosen(t, root);
    ChosenMovesOk(t, root);
    forall i: nat, j: nat | i <= j < |c|
      ensures Apart(c, root, i, j)
    {
      assert c[i] in t && c[j] in t;
      LonelyApart(c[i], c[j], root);
    }
    SwitchPreservesIff(t, root);
  }

  lemma LonelyApart(p: string, q: string, root: string)
    requires p != "" && p[0] == '/' && !Comparable(q, root)
    ensures !Comparable(root + p, q)
  {
    BelowRoot(root, p);
    if Under(root + p, q) {
      UnderTransitive(root, root + p, q);
      assert false;
    }
    if Under(q, root + p) {
      CommonDescendant(q, root, root + p);
      assert false;
    }
  }

  // Two tables that do not survive

  const COMMON := ["/", "/system", "/dev"]

  lemma ChosenCommon()
    ensures Chosen(COMMON, "/system") == ["/dev"]
  {
    var root := "/system";
    assert Chosen([], root) == [];
    assert [] + ["/"] == ["/"] && ["/"] + ["/system"] == ["/", "/system"] && ["/", "/system"] + ["/dev"] == COMMON;
    ChosenSnoc([], "/", root);
    ChosenSnoc(["/"], "/system", root);
    ChosenSnoc(["/", "/system"], "/dev", root);
  }

  lemma DevFooSkipped()
    ensures Chosen(COMMON + ["/devfoo"], "/system") == ["/dev"]
  {
    ChosenCommon();
    assert ["/dev"][0] <= "/devfoo";
    ChosenSnoc(COMMON, "/devfoo", "/system");
  }

  /** "/devfoo" is taken for a child of "/dev" and left behind. */
  lemma PrefixIsNotParent()
    ensures TableOk(COMMON + ["/devfoo"], "/system") && ListedAfterParents(COMMON + ["/devfoo"], "/system")
    ensures !Preserved(COMMON + ["/devfoo"], Chosen(COMMON + ["/devfoo"], "/system"), "/system")
  {
    var t, root := COMMON + ["/devfoo"], "/system";
    DevFooSkipped();
    DevFooTable();
    ChosenMovesOk(t, root);
    PreservedIff(t, ["/dev"], root);
    assert !Covers(["/dev"], 1, t[3]);
    assert Ordinary(t[3], root);
  }

  lemma DevFooTable()
    ensures TableOk(COMMON + ["/devfoo"], "/system") && ListedAfterParents(COMMON + ["/devfoo"], "/system")
    ensures !Under("/dev", "/devfoo")
  {
    var t := COMMON + ["/devfoo"];
    assert t[1] == "/system";
    assert "/devfoo"[4] != ("/dev" + "/")[4];
  }

  lemma SystemDevChosen()
    ensures Chosen(COMMON + ["/system/dev"], "/system") == ["/dev", "/system/dev"]
  {
    ChosenCommon();
    assert "/dev"[1] != "/system/dev"[1];
    ChosenSnoc(COMMON, "/system/dev", "/system");
    assert ["/dev"] + ["/system/dev"] == ["/dev", "/system/dev"];
  }

  /** "/dev" is moved onto the mount that already is at "/system/dev". */
  lemma MountInsideNewRoot()
    ensures var t := COMMON + ["/system/dev"];
            && TableOk(t, "/system") && ListedAfterParents(t, "/system") && PrefixesAreParents(t, "/system")
            && !Preserved(t, Chosen(t, "/system"), "/system")
  {
    var t, root, c := COMMON + ["/system/dev"], "/system", ["/dev", "/system/dev"];
    SystemDevChosen();
    assert TableOk(t, root) by { assert t[1] == root; }
    assert root + "/dev" == "/system/dev";
    assert !Apart(c, root, 0, 1);
    SystemDevListed();
    SwitchPreservesIff(t, root);
  }

  lemma SystemDevListed()
    ensures ListedAfterParents(COMMON + ["/system/dev"], "/system")
    ensures PrefixesAreParents(COMMON + ["/system/dev"], "/system")
  {
    assert "/dev"[1] != "/system/dev"[1];
  }
}
