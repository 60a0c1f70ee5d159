/** Facts about sequences, sums over their elements and selections of them. */
module Sequences {
  lemma Assoc<T>(a: seq<T>, b: seq<T>, c: seq<T>)
    ensures a + (b + c) == a + b + c
  {
  }

  function Sum<T>(xs: seq<T>, weight: T -> nat): nat
    decreases |xs|
  {
    if xs == [] then 0 else weight(xs[0]) + Sum(xs[1..], weight)
  }

  lemma {:induction false} SumUpdate<T>(xs: seq<T>, weight: T -> nat, i: nat, x: T)
    requires i < |xs|
    ensures Sum(xs[i := x], weight) == Sum(xs, weight) - weight(xs[i]) + weight(x)
    decreases |xs|
  {
    var after := xs[i := x];
    if i == 0 {
      assert after[1..] == xs[1..];
    } else {
      assert after[1..] == xs[1..][i - 1 := x];
      SumUpdate(xs[1..], weight, i - 1, x);
    }
  }

  /** f of the elements that are kept, in order. */
  function Selection<T, U>(xs: seq<T>, keep: T -> bool, f: T -> U): seq<U>
    decreases |xs|
  {
    if xs == [] then [] else (if keep(xs[0]) then [f(xs[0])] else []) + Selection(xs[1..], keep, f)
  }

  lemma {:induction false} SelectionIs<T, U>(xs: seq<T>, keep: T -> bool, f: T -> U)
    ensures forall y :: y in Selection(xs, keep, f) <==> exists i :: 0 <= i < |xs| && keep(xs[i]) && y == f(xs[i])
    decreases |xs|
  {
    if xs == [] {
    } else {
      var rest := xs[1..];
      SelectionIs(rest, keep, f);
      assert forall i :: 0 <= i < |rest| ==> rest[i] == xs[i + 1];
      assert forall i :: 0 < i < |xs| ==> xs[i] == rest[i - 1];
    }
  }

  lemma {:induction false} SelectionSnoc<T, U>(xs: seq<T>, x: T, keep: T -> bool, f: T -> U)
    ensures Selection(xs + [x], keep, f) == Selection(xs, keep, f) + if keep(x) then [f(x)] else []
    decreases |xs|
  {
    if xs == [] {
      assert [] + [x] == [x] && [x][1..] == [];
    } else {
      SelectionSnoc(xs[1..], x, keep, f);
      assert (xs + [x])[1..] == xs[1..] + [x];
    }
  }
}
