/** Comparison of texts by code points: Python's and SQLite's order on strings. */
module StringOrder {
  import opened Sequences

  /** `s < t` by code points, a proper prefix being smaller. */
  predicate Less(s: string, t: string) {
    t != [] && (s == [] || s[0] < t[0] || (s[0] == t[0] && Less(s[1..], t[1..])))
  }

  predicate AtMost(s: string, t: string) { !Less(t, s) }

  lemma {:induction false} LessTrichotomy(s: string, t: string)
    ensures s == t ==> !Less(s, t)
    ensures s != t ==> Less(s, t) != Less(t, s)
  {
    if s != [] && t != [] {
      LessTrichotomy(s[1..], t[1..]);
      assert s == [s[0]] + s[1..] && t == [t[0]] + t[1..];
    }
  }

  lemma {:induction false} LessTransitive(s: string, t: string, u: string)
    requires Less(s, t) && Less(t, u)
    ensures Less(s, u)
  {
    if s != [] && s[0] == t[0] && t[0] == u[0] {
      LessTransitive(s[1..], t[1..], u[1..]);
    }
  }

  lemma AtMostTotal(s: string, t: string)
    ensures AtMost(s, t) || AtMost(t, s)
    ensures AtMost(s, t) && AtMost(t, s) ==> s == t
  {
    LessTrichotomy(s, t);
  }

  lemma AtMostTransitive(s: string, t: string, u: string)
    requires AtMost(s, t) && AtMost(t, u)
    ensures AtMost(s, u)
  {
    LessTrichotomy(s, t);
    LessTrichotomy(t, u);
    if Less(u, s) {
      if s != t && t != u {
        LessTransitive(s, t, u);
        LessTrichotomy(s, u);
      }
    }
  }

  lemma AtMostPreorder()
    ensures TotalPreorder(AtMost) && Antisymmetric(AtMost)
  {
    forall x, y
      ensures AtMost(x, y) || AtMost(y, x)
      ensures AtMost(x, y) && AtMost(y, x) ==> x == y
    {
      AtMostTotal(x, y);
    }
    forall x, y, z | AtMost(x, y) && AtMost(y, z)
      ensures AtMost(x, z)
    {
      AtMostTransitive(x, y, z);
    }
  }
}
