/** Sorted lists of names, as std::map and std::set keep their keys. */
module SortedNames {
  import opened Strings

  predicate Sorted(names: seq<string>) {
    forall i, j :: 0 <= i < j < |names| ==> LexLess(names[i], names[j])
  }

  lemma InsertName(names: seq<string>, i: nat, name: string)
    requires Sorted(names) && i <= |names| && forall j :: 0 <= j < i ==> LexLess(names[j], name)
    requires i < |names| ==> !LexLess(names[i], name) && names[i] != name
    ensures Sorted(names[..i] + [name] + names[i..])
    ensures forall n :: n in names[..i] + [name] + names[i..] <==> n in names || n == name
  {
    forall j | i <= j < |names|
      ensures LexLess(name, names[j])
    {
      LexTotal(name, names[i]);
      if i < j {
        LexTransitive(name, names[i], names[j]);
      }
    }
    assert names == names[..i] + names[i..];
  }

  /** A sorted list is determined by its elements. */
  lemma {:induction false} SortedUnique(a: seq<string>, b: seq<string>)
    requires Sorted(a) && Sorted(b) && forall n :: n in a <==> n in b
    ensures a == b
    decreases |a|
  {
    if a == [] {
      assert forall i :: 0 <= i < |b| ==> b[i] in a;
    } else {
      assert a[0] in b && b != [];
      FirstIsLeast(a, b);
      FirstIsLeast(b, a);
      RestSame(a, b);
      SortedUnique(a[1..], b[1..]);
    }
  }

  lemma FirstIsLeast(a: seq<string>, b: seq<string>)
    requires Sorted(a) && a != [] && b != [] && b[0] in a
    ensures a[0] == b[0] || LexLess(a[0], b[0])
  {
  }

  lemma RestSame(a: seq<string>, b: seq<string>)
    requires Sorted(a) && Sorted(b) && a != [] && b != [] && forall n :: n in a <==> n in b
    requires a[0] == b[0] || LexLess(a[0], b[0])
    requires a[0] == b[0] || LexLess(b[0], a[0])
    ensures a[0] == b[0]
    ensures forall n :: n in a[1..] <==> n in b[1..]
  {
    LexIrreflexive(a[0]);
    if a[0] != b[0] {
      LexTransitive(a[0], b[0], a[0]);
      assert false;
    }
    forall n | n in a[1..]
      ensures n in b[1..]
    {
      assert n in b && n != a[0];
    }
    forall n | n in b[1..]
      ensures n in a[1..]
    {
      assert n in a && n != b[0];
    }
  }
}
