/** The namespace survives the root switch exactly when the moves cover everything and do not clash. */
module SwitchRootTheorem {
  import opened Wrappers
  import opened SwitchRootModel

  // Sufficiency

  /** After n moves, what they cover is below the new root and nothing else has moved. */
  ghost predicate Good(t: MountTable, moves: seq<string>, n: nat, root: string, r: MountTable)
    requires n <= |moves|
  {
    |r| == |t| && forall k :: 0 <= k < |t| ==> r[k] == if Covers(moves, n, t[k]) then root + t[k] else t[k]
  }

  ghost predicate Sound(t: MountTable, moves: seq<string>, root: string) {
    && TableOk(t, root) && MovesOk(t, moves, root)
    && AllCovered(t, moves, root) && ParentsFirst(moves) && NoClash(moves, root)
  }

  lemma UnderIsPrefix(p: string, q: string)
    requires Under(p, q)
    ensures p <= q
  {
    assert p <= p + "/";
  }

  lemma NotYetMoved(t: MountTable, moves: seq<string>, n: nat, root: string)
    requires MovesOk(t, moves, root) && n < |moves|
    ensures !Covers(moves, n, moves[n])
  {
    forall i: nat | i < n
      ensures !Under(moves[i], moves[n])
    {
      assert NoPrefix(moves, i, n);
      if Under(moves[i], moves[n]) {
        UnderIsPrefix(moves[i], moves[n]);
        assert false;
      }
    }
  }

  /** A mount that has moved is not touched again. */
  lemma MovedStays(t: MountTable, moves: seq<string>, n: nat, root: string, p: string)
    requires Sound(t, moves, root) && n < |moves| && Covers(moves, n, p)
    ensures !Under(moves[n], root + p)
    ensures !Under(root + moves[n], root + p)
  {
    var i: nat :| i < n && Under(moves[i], p);
    UnderRoot(root, moves[i], p);
    UnderRoot(root, moves[n], p);
    NotYetMoved(t, moves, n, root);
    assert Apart(moves, root, i, n) && NotAbove(moves, n, i);
    if Under(moves[n], root + p) {
      CommonDescendant(moves[n], root + moves[i], root + p);
      assert false;
    }
    if Under(moves[n], p) {
      CommonDescendant(moves[n], moves[i], p);
      assert false;
    }
  }

  /** A mount that has not moved is not buried. */
  lemma WaitingIsSafe(t: MountTable, moves: seq<string>, n: nat, root: string, k: nat)
    requires Sound(t, moves, root) && n < |moves| && k < |t| && !Covers(moves, n, t[k])
    requires !Under(moves[n], t[k])
    ensures !Under(root + moves[n], t[k])
  {
    forall j: nat | n < j < |moves| && Under(moves[j], t[k])
      ensures !Under(root + moves[n], t[k])
    {
      assert Apart(moves, root, n, j);
      if Under(root + moves[n], t[k]) {
        CommonDescendant(root + moves[n], moves[j], t[k]);
        assert false;
      }
    }
    assert moves[n] in t && moves[n] != "";
    assert Ordinary(t[k], root) ==> Covers(moves, |moves|, t[k]);
    if Under(root + moves[n], t[k]) {
      UnderIsPrefix(root + moves[n], t[k]);
    }
  }

  lemma MoveSucceeds(t: MountTable, moves: seq<string>, n: nat, root: string, r: MountTable)
    requires Sound(t, moves, root) && n < |moves| && Good(t, moves, n, root, r)
    ensures Moved(r, moves[n], root + moves[n]).Some?
  {
    var from, to := moves[n], root + moves[n];
    NotYetMoved(t, moves, n, root);
    var k :| 0 <= k < |t| && t[k] == from;
    assert r[k] == from;
    assert Apart(moves, root, n, n);
    forall i | 0 <= i < |r|
      ensures Under(from, r[i]) || !Under(to, r[i])
    {
      if Covers(moves, n, t[i]) {
        MovedStays(t, moves, n, root, t[i]);
      } else if !Under(from, t[i]) {
        WaitingIsSafe(t, moves, n, root, i);
      }
    }
  }

  lemma CoversStep(moves: seq<string>, n: nat, p: string)
    requires n < |moves|
    ensures Covers(moves, n + 1, p) <==> Covers(moves, n, p) || Under(moves[n], p)
  {
    if Covers(moves, n, p) {
      var i :| 0 <= i < n && Under(moves[i], p);
      assert 0 <= i < n + 1;
    }
  }

  lemma MoveKeepsGood(t: MountTable, moves: seq<string>, n: nat, root: string, r: MountTable)
    requires Sound(t, moves, root) && n < |moves| && Good(t, moves, n, root, r)
    requires Moved(r, moves[n], root + moves[n]).Some?
    ensures Good(t, moves, n + 1, root, Moved(r, moves[n], root + moves[n]).value)
  {
    var r' := Moved(r, moves[n], root + moves[n]).value;
    forall k | 0 <= k < |t|
      ensures r'[k] == if Covers(moves, n + 1, t[k]) then root + t[k] else t[k]
    {
      CoversStep(moves, n, t[k]);
      if Covers(moves, n, t[k]) {
        MovedStays(t, moves, n, root, t[k]);
      } else if Under(moves[n], t[k]) {
        MovedPath(root, moves[n], t[k]);
      }
    }
  }

  ghost function Target(t: MountTable, moves: seq<string>, n: nat, root: string): MountTable
    requires n <= |moves|
  {
    seq(|t|, k requires 0 <= k < |t| => if Covers(moves, n, t[k]) then root + t[k] else t[k])
  }

  lemma TargetIsGood(t: MountTable, moves: seq<string>, n: nat, root: string, r: MountTable)
    requires n <= |moves|
    ensures Good(t, moves, n, root, r) <==> r == Target(t, moves, n, root)
  {
  }

  ghost predicate StepsOnTarget(t: MountTable, moves: seq<string>, root: string) {
    forall n: nat :: n < |moves| ==>
      Moved(Target(t, moves, n, root), moves[n], root + moves[n]) == Some(Target(t, moves, n + 1, root))
  }

  lemma SoundSteps(t: MountTable, moves: seq<string>, root: string)
    requires Sound(t, moves, root)
    ensures StepsOnTarget(t, moves, root)
  {
    forall n: nat | n < |moves|
      ensures Moved(Target(t, moves, n, root), moves[n], root + moves[n]) == Some(Target(t, moves, n + 1, root))
    {
      StepOnTarget(t, moves, n, root);
    }
  }

  lemma StepOnTarget(t: MountTable, moves: seq<string>, n: nat, root: string)
    requires Sound(t, moves, root) && n < |moves|
    ensures Moved(Target(t, moves, n, root), moves[n], root + moves[n]) == Some(Target(t, moves, n + 1, root))
  {
    var r := Target(t, moves, n, root);
    TargetIsGood(t, moves, n, root, r);
    MoveSucceeds(t, moves, n, root, r);
    MoveKeepsGood(t, moves, n, root, r);
    TargetIsGood(t, moves, n + 1, root, Moved(r, moves[n], root + moves[n]).value);
  }

  lemma {:induction false} AllMovesOnTarget(t: MountTable, moves: seq<string>, n: nat, root: string)
    requires StepsOnTarget(t, moves, root) && n <= |moves|
    ensures After(t, moves, n, root) == Some(Target(t, moves, n, root))
    decreases n
  {
    if n == 0 {
      assert Target(t, moves, 0, root) == t;
    } else {
      AllMovesOnTarget(t, moves, n - 1, root);
    }
  }

  lemma RootStays(t: MountTable, moves: seq<string>, root: string)
    requires Sound(t, moves, root)
    ensures !Covers(moves, |moves|, root)
  {
    forall i: nat | i < |moves|
      ensures !Under(moves[i], root)
    {
      assert moves[i] in t && moves[i][0] == '/';
      assert Apart(moves, root, i, i);
      BelowRoot(root, moves[i]);
      if Under(moves[i], root) {
        UnderTransitive(moves[i], root, root + moves[i]);
        assert false;
      }
    }
  }

  lemma SoundMovesPreserve(t: MountTable, moves: seq<string>, root: string)
    requires Sound(t, moves, root)
    ensures Preserved(t, moves, root)
  {
    SoundSteps(t, moves, root);
    AllMovesOnTarget(t, moves, |moves|, root);
    var r := After(t, moves, |moves|, root).value;
    RootStays(t, moves, root);
    forall k | 0 <= k < |t| && t[k] != "/"
      ensures Seen(r[k], root) == Some(if t[k] == root then "/" else t[k])
    {
      if t[k] != root {
        assert Ordinary(t[k], root);
        BelowRoot(root, t[k]);
        assert root + t[k] != root;
      }
    }
  }

  // Necessity

  /** What a successful move does. */
  ghost predicate Step(r: MountTable, move: string, root: string, r': MountTable) {
    && |r'| == |r| && !Under(move, root + move) && !Buries(r, move, root + move)
    && forall k :: 0 <= k < |r| ==> r'[k] == if Under(move, r[k]) then root + r[k] else r[k]
  }

  ghost predicate StepAt(h: seq<MountTable>, moves: seq<string>, root: string, n: nat)
    requires n < |moves| && n + 1 < |h|
  {
    Step(h[n], moves[n], root, h[n + 1])
  }

  /** The tables of a run in which every move succeeds. */
  ghost predicate History(t: MountTable, moves: seq<string>, root: string, h: seq<MountTable>) {
    && |h| == |moves| + 1 && h[0] == t && root != ""
    && forall n: nat :: n < |moves| ==> StepAt(h, moves, root, n)
  }

  lemma SuccessIsStep(r: MountTable, move: string, root: string)
    requires Moved(r, move, root + move).Some?
    ensures Step(r, move, root, Moved(r, move, root + move).value)
  {
    var r' := Moved(r, move, root + move).value;
    forall k | 0 <= k < |r|
      ensures r'[k] == if Under(move, r[k]) then root + r[k] else r[k]
    {
      if Under(move, r[k]) {
        MovedPath(root, move, r[k]);
      }
    }
  }

  lemma {:induction false} HistoryOf(t: MountTable, moves: seq<string>, n: nat, root: string)
    returns (h: seq<MountTable>)
    requires n <= |moves| && After(t, moves, n, root).Some?
    ensures |h| == n + 1 && h[0] == t && h[n] == After(t, moves, n, root).value
    ensures forall m: nat :: m < n ==> StepAt(h, moves, root, m)
    decreases n
  {
    if n == 0 {
      h := [t];
    } else {
      var h' := HistoryOf(t, moves, n - 1, root);
      var r := After(t, moves, n, root).value;
      SuccessIsStep(h'[n - 1], moves[n - 1], root);
      h := h' + [r];
      forall m: nat | m < n
        ensures StepAt(h, moves, root, m)
      {
        assert m < n - 1 ==> StepAt(h', moves, root, m);
        assert h[m] == h'[m] && h[m + 1] == if m < n - 1 then h'[m + 1] else r;
      }
    }
  }

  lemma {:induction false} LengthGrows(t: MountTable, moves: seq<string>, root: string, h: seq<MountTable>, n: nat,
                                       m: nat)
    requires History(t, moves, root, h) && n <= m <= |moves| && |h[n]| == |t|
    ensures |h[m]| == |t| && forall k :: 0 <= k < |t| ==> |h[n][k]| <= |h[m][k]|
    decreases m
  {
    if n == m {
    } else {
      LengthGrows(t, moves, root, h, n, m - 1);
      assert StepAt(h, moves, root, m - 1);
    }
  }

  lemma Lengths(t: MountTable, moves: seq<string>, root: string, h: seq<MountTable>, n: nat)
    requires History(t, moves, root, h) && n <= |moves|
    ensures |h[n]| == |t| == |h[|moves|]|
    ensures forall k :: 0 <= k < |t| ==> |h[n][k]| <= |h[|moves|][k]|
  {
    LengthGrows(t, moves, root, h, 0, n);
    LengthGrows(t, moves, root, h, n, |moves|);
  }

  /** In a run that preserves the namespace a mount moves once, by the length of the new root. */
  ghost predicate MovesOnce(t: MountTable, moves: seq<string>, root: string, h: seq<MountTable>, k: nat) {
    && History(t, moves, root, h) && k < |t| == |h[|moves|]|
    && |h[|moves|][k]| == |root| + |t[k]|
  }

  lemma {:induction false} OldOrNew(t: MountTable, moves: seq<string>, root: string, h: seq<MountTable>, n: nat, k: nat)
    requires MovesOnce(t, moves, root, h, k) && n <= |moves|
    ensures |h[n]| == |t| && (h[n][k] == t[k] || h[n][k] == root + t[k])
    decreases n
  {
    Lengths(t, moves, root, h, n);
    if n == 0 {
    } else {
      OldOrNew(t, moves, root, h, n - 1, k);
      assert StepAt(h, moves, root, n - 1);
    }
  }

  /** Once moved it is never below a later move. */
  lemma NewIsLeftAlone(t: MountTable, moves: seq<string>, root: string, h: seq<MountTable>, n: nat, k: nat)
    requires MovesOnce(t, moves, root, h, k) && n < |moves| && |h[n]| == |t| && h[n][k] == root + t[k]
    ensures !Under(moves[n], root + t[k])
  {
    Lengths(t, moves, root, h, n + 1);
    assert StepAt(h, moves, root, n);
  }

  lemma {:induction false} UncoveredStays(t: MountTable, moves: seq<string>, root: string, h: seq<MountTable>, n: nat,
                                          k: nat)
    requires History(t, moves, root, h) && n <= |moves| && k < |t|
    requires forall i :: 0 <= i < n ==> !Under(moves[i], t[k])
    ensures |h[n]| == |t| && h[n][k] == t[k]
    decreases n
  {
    if n == 0 {
    } else {
      UncoveredStays(t, moves, root, h, n - 1, k);
      assert StepAt(h, moves, root, n - 1);
    }
  }

  /** After the move of something above it, a mount is at its new place. */
  lemma {:induction false} CoveredIsNew(t: MountTable, moves: seq<string>, root: string, h: seq<MountTable>, n: nat,
                                        k: nat, i: nat)
    requires MovesOnce(t, moves, root, h, k) && i < n <= |moves| && Under(moves[i], t[k])
    ensures |h[n]| == |t| && h[n][k] == root + t[k]
    decreases n
  {
    OldOrNew(t, moves, root, h, n - 1, k);
    OldOrNew(t, moves, root, h, n, k);
    assert StepAt(h, moves, root, n - 1);
    if n - 1 > i {
      CoveredIsNew(t, moves, root, h, n - 1, k, i);
    }
  }

  /** The move of something above a mount that has already moved would move or bury it. */
  lemma NothingAboveMoved(t: MountTable, moves: seq<string>, root: string, h: seq<MountTable>, i: nat, j: nat, k: nat)
    requires MovesOnce(t, moves, root, h, k) && i < j < |moves| && t[k] == moves[i]
    ensures NotAbove(moves, j, i) && !Under(moves[j], root + moves[i])
  {
    CoveredIsNew(t, moves, root, h, j, k, i);
    NewIsLeftAlone(t, moves, root, h, j, k);
    UnderRoot(root, moves[j], t[k]);
    assert StepAt(h, moves, root, j);
    assert h[j][k] == root + t[k];
  }

  lemma NotUnderEarlier(t: MountTable, moves: seq<string>, root: string, i: nat, j: nat)
    requires MovesOk(t, moves, root) && i < j < |moves|
    ensures forall m :: 0 <= m <= i ==> !Under(moves[m], moves[j])
  {
    forall m: nat | m <= i
      ensures !Under(moves[m], moves[j])
    {
      assert NoPrefix(moves, m, j);
      if Under(moves[m], moves[j]) {
        UnderIsPrefix(moves[m], moves[j]);
        assert false;
      }
    }
  }

  /** A mount still to be moved is not below the target of an earlier move. */
  lemma NothingBuried(t: MountTable, moves: seq<string>, root: string, h: seq<MountTable>, i: nat, j: nat, k: nat)
    requires History(t, moves, root, h) && i < j < |moves| && k < |t| && t[k] == moves[j]
    requires forall m :: 0 <= m <= i ==> !Under(moves[m], moves[j])
    ensures !Under(root + moves[i], moves[j])
  {
    UncoveredStays(t, moves, root, h, i, k);
    assert StepAt(h, moves, root, i);
    assert h[i][k] == moves[j];
  }

  lemma NotIntoItself(t: MountTable, moves: seq<string>, root: string, h: seq<MountTable>, i: nat)
    requires History(t, moves, root, h) && i < |moves|
    ensures Apart(moves, root, i, i)
  {
    assert StepAt(h, moves, root, i);
    if Under(root + moves[i], moves[i]) {
      UnderIsPrefix(root + moves[i], moves[i]);
      assert false;
    }
  }

  /** A run in which every ordinary mount moves once. */
  ghost predicate Orderly(t: MountTable, moves: seq<string>, root: string, h: seq<MountTable>) {
    && History(t, moves, root, h) && MovesOk(t, moves, root)
    && forall k: nat :: k < |t| && Ordinary(t[k], root) ==> MovesOnce(t, moves, root, h, k)
  }

  lemma PreservedIsOrderly(t: MountTable, moves: seq<string>, root: string) returns (h: seq<MountTable>)
    requires TableOk(t, root) && MovesOk(t, moves, root) && Preserved(t, moves, root)
    ensures Orderly(t, moves, root, h)
  {
    h := HistoryOf(t, moves, |moves|, root);
    forall k: nat | k < |t| && Ordinary(t[k], root)
      ensures MovesOnce(t, moves, root, h, k)
    {
      assert Seen(h[|moves|][k], root) == Some(t[k]);
    }
  }

  lemma OrderlyCovers(t: MountTable, moves: seq<string>, root: string, h: seq<MountTable>)
    requires Orderly(t, moves, root, h)
    ensures AllCovered(t, moves, root)
  {
    forall k: nat | k < |t| && Ordinary(t[k], root)
      ensures Covers(moves, |moves|, t[k])
    {
      assert MovesOnce(t, moves, root, h, k);
      if !Covers(moves, |moves|, t[k]) {
        UncoveredStays(t, moves, root, h, |moves|, k);
        assert false;
      }
    }
  }

  lemma IndexOf(t: MountTable, p: string) returns (k: nat)
    requires p in t
    ensures k < |t| && t[k] == p
  {
    k :| 0 <= k < |t| && t[k] == p;
  }

  lemma OrderlyApart(t: MountTable, moves: seq<string>, root: string, h: seq<MountTable>, i: nat, j: nat)
    requires Orderly(t, moves, root, h) && i <= j < |moves|
    ensures (i < j ==> NotAbove(moves, j, i)) && Apart(moves, root, i, j)
  {
    if i == j {
      NotIntoItself(t, moves, root, h, i);
    } else {
      var k := IndexOf(t, moves[i]);
      assert MovesOnce(t, moves, root, h, k);
      NothingAboveMoved(t, moves, root, h, i, j, k);
      var l := IndexOf(t, moves[j]);
      NotUnderEarlier(t, moves, root, i, j);
      NothingBuried(t, moves, root, h, i, j, l);
    }
  }

  lemma OrderlyHasNoClash(t: MountTable, moves: seq<string>, root: string, h: seq<MountTable>)
    requires Orderly(t, moves, root, h)
    ensures ParentsFirst(moves) && NoClash(moves, root)
  {
    forall i: nat, j: nat | i <= j < |moves|
      ensures (i < j ==> NotAbove(moves, j, i)) && Apart(moves, root, i, j)
    {
      OrderlyApart(t, moves, root, h, i, j);
    }
  }

  /** For every table and every list of moves that GetMounts can produce. */
  lemma PreservedIff(t: MountTable, moves: seq<string>, root: string)
    requires TableOk(t, root) && MovesOk(t, moves, root)
    ensures Preserved(t, moves, root) <==>
            AllCovered(t, moves, root) && ParentsFirst(moves) && NoClash(moves, root)
  {
    if Preserved(t, moves, root) {
      var h := PreservedIsOrderly(t, moves, root);
      OrderlyCovers(t, moves, root, h);
      OrderlyHasNoClash(t, moves, root, h);
    }
    if AllCovered(t, moves, root) && ParentsFirst(moves) && NoClash(moves, root) {
      SoundMovesPreserve(t, moves, root);
    }
  }
}
