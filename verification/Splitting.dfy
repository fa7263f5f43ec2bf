/** Python's `str.split` on one character and `str.join`. */
module Splitting {
  import opened Sequences

  function Split(s: string, c: char): (r: seq<string>)
    ensures r != []
  {
    if s == [] then [""]
    else
      var rest := Split(s[1..], c);
      if s[0] == c then [""] + rest else Grown([s[0]], rest)
  }

  /** Text in front of the first piece. */
  function Grown(p: string, ps: seq<string>): (r: seq<string>)
    requires ps != []
    ensures |r| == |ps|
  {
    [p + ps[0]] + ps[1..]
  }

  function Join(ps: seq<string>, sep: string): string {
    if ps == [] then "" else if |ps| == 1 then ps[0] else ps[0] + (sep + Join(ps[1..], sep))
  }

  function Count(s: string, c: char): nat {
    if s == [] then 0 else (if s[0] == c then 1 else 0) + Count(s[1..], c)
  }

  lemma {:induction false} CountConcat(a: string, b: string, c: char)
    ensures Count(a + b, c) == Count(a, c) + Count(b, c)
  {
    if a == [] {
      assert a + b == b;
    } else {
      assert (a + b)[1..] == a[1..] + b;
      CountConcat(a[1..], b, c);
    }
  }

  lemma {:induction false} CountNone(s: string, c: char)
    ensures Count(s, c) == 0 <==> c !in s
  {
    if s != [] {
      CountNone(s[1..], c);
      assert s == [s[0]] + s[1..];
    }
  }

  /** The pieces are free of the separator and one more than its occurrences. */
  lemma {:induction false} SplitFree(s: string, c: char)
    ensures |Split(s, c)| == Count(s, c) + 1
    ensures forall p :: p in Split(s, c) ==> c !in p
  {
    if s != [] {
      SplitFree(s[1..], c);
      var rest := Split(s[1..], c);
      assert rest[0] in rest;
      assert forall p :: p in rest[1..] ==> p in rest;
    }
  }

  lemma JoinGap(ps: seq<string>, sep: string)
    requires ps != []
    ensures Join([""] + ps, sep) == sep + Join(ps, sep)
  {
    assert ([""] + ps)[1..] == ps;
    assert "" + (sep + Join(ps, sep)) == sep + Join(ps, sep);
  }

  lemma JoinPrefix(p: string, ps: seq<string>, sep: string)
    requires ps != []
    ensures Join(Grown(p, ps), sep) == p + Join(ps, sep)
  {
    assert Grown(p, ps)[1..] == ps[1..];
    if |ps| > 1 {
      Regroup(p, ps[0], sep + Join(ps[1..], sep));
    }
  }

  lemma {:induction false} JoinOfSplit(s: string, c: char)
    ensures Join(Split(s, c), [c]) == s
  {
    if s != [] {
      JoinOfSplit(s[1..], c);
      var rest := Split(s[1..], c);
      if s[0] == c {
        JoinGap(rest, [c]);
      } else {
        JoinPrefix([s[0]], rest, [c]);
      }
    }
  }

  lemma {:induction false} SplitOfPiece(p: string, rest: string, c: char)
    requires c !in p
    ensures Split(p, c) == [p]
    ensures Split(p + ([c] + rest), c) == [p] + Split(rest, c)
  {
    var s := p + ([c] + rest);
    if p == [] {
      assert s[0] == c && s[1..] == rest;
    } else {
      assert s[0] == p[0] && s[1..] == p[1..] + ([c] + rest);
      SplitOfPiece(p[1..], rest, c);
      assert p == [p[0]] + p[1..];
    }
  }

  /** Pieces free of the separator are read back. */
  lemma {:induction false} SplitOfJoin(ps: seq<string>, c: char)
    requires ps != [] && forall p :: p in ps ==> c !in p
    ensures Split(Join(ps, [c]), c) == ps
  {
    assert ps[0] in ps;
    if |ps| == 1 {
      SplitOfPiece(ps[0], "", c);
    } else {
      SplitOfPiece(ps[0], Join(ps[1..], [c]), c);
      SplitOfJoin(ps[1..], c);
    }
  }

  lemma GrownConcat(p: string, a: seq<string>, b: seq<string>)
    requires a != []
    ensures Grown(p, a + b) == Grown(p, a) + b
  {
    assert (a + b)[0] == a[0] && (a + b)[1..] == a[1..] + b;
  }

  /** Splitting goes on independently after a separator. */
  lemma {:induction false} SplitConcat(a: string, b: string, c: char)
    ensures Split(a + ([c] + b), c) == Split(a, c) + Split(b, c)
  {
    var s := a + ([c] + b);
    if a == "" {
      assert s[0] == c && s[1..] == b;
    } else {
      assert s[0] == a[0] && s[1..] == a[1..] + ([c] + b);
      SplitConcat(a[1..], b, c);
      if a[0] == c {
        assert [""] + (Split(a[1..], c) + Split(b, c)) == ([""] + Split(a[1..], c)) + Split(b, c);
      } else {
        GrownConcat([a[0]], Split(a[1..], c), Split(b, c));
      }
    }
  }

  /** A text without the separator in front belongs to the first piece. */
  lemma {:induction false} SplitPrefix(p: string, s: string, c: char)
    requires c !in p
    ensures Split(p + s, c) == Grown(p, Split(s, c))
  {
    var ps := Split(s, c);
    if p == "" {
      assert p + s == s && p + ps[0] == ps[0];
      assert ps == [ps[0]] + ps[1..];
    } else {
      assert (p + s)[0] == p[0] && (p + s)[1..] == p[1..] + s;
      SplitPrefix(p[1..], s, c);
      assert [p[0]] + (p[1..] + ps[0]) == p + ps[0];
      assert Grown(p[1..], ps)[1..] == ps[1..];
    }
  }
}
