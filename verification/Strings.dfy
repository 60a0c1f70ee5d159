/** std::string ordering and prefixes.  `p <= s` is Dafny's own prefix test, as starts_with. */
module Strings {

  /** std::string's operator<: characters first, a proper prefix before its extensions. */
  predicate LexLess(a: string, b: string)
  {
    |b| > 0 && (|a| == 0 || a[0] < b[0] || (a[0] == b[0] && LexLess(a[1..], b[1..])))
  }

  lemma {:induction false} LexIrreflexive(a: string)
    ensures !LexLess(a, a)
  {
    if a == "" {
    } else {
      LexIrreflexive(a[1..]);
    }
  }

  lemma {:induction false} LexTotal(a: string, b: string)
    ensures LexLess(a, b) || a == b || LexLess(b, a)
  {
    if |a| > 0 && |b| > 0 && a[0] == b[0] {
      LexTotal(a[1..], b[1..]);
      assert a == [a[0]] + a[1..] && b == [b[0]] + b[1..];
    }
  }

  lemma {:induction false} LexTransitive(a: string, b: string, c: string)
    requires LexLess(a, b) && LexLess(b, c)
    ensures LexLess(a, c)
  {
    if |a| > 0 && a[0] == b[0] && b[0] == c[0] {
      LexTransitive(a[1..], b[1..], c[1..]);
    }
  }

  /** A string never sorts before one of its own prefixes. */
  lemma {:induction false} PrefixNotGreater(p: string, s: string)
    requires p <= s
    ensures !LexLess(s, p)
  {
    if p == "" {
    } else {
      PrefixNotGreater(p[1..], s[1..]);
    }
  }

  /** The extensions of p form an interval that starts at p: once a string at or after p is not
      an extension, nothing after it is. */
  lemma {:induction false} PrefixInterval(p: string, a: string, b: string)
    requires !LexLess(a, p) && !(p <= a)
    requires !LexLess(b, a)
    ensures !(p <= b)
  {
    if p <= b {
      if a[0] == p[0] {
        PrefixInterval(p[1..], a[1..], b[1..]);
      }
    }
  }
}
