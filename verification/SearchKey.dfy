/** Canonical key material of a search request (app/search/cache.py).  SHA-256 and the JSON
    encoding are taken to be injective, so keys are equal when the material is. */
module SearchKey {
  import opened Sequences
  import opened StringOrder
  import opened Splitting
  import opened Text
  import opened SearchModels
  import opened Routing

  // ------------------------------------------------------------------ words

  /** The words of a text: its maximal runs without whitespace. */
  function Words(s: string): (r: seq<string>)
    ensures forall w :: w in r ==> Word(w)
    decreases |s|
  {
    if s == [] then []
    else if IsSpace(s[0]) then Words(s[1..])
    else [s[..WordLength(s)]] + Words(s[WordLength(s)..])
  }

  function Unwords(ws: seq<string>): string { Join(ws, " ") }

  lemma WordFirst(w: string, rest: string)
    requires Word(w) && (rest != [] ==> IsSpace(rest[0]))
    ensures Words(w + rest) == [w] + Words(rest)
  {
    WordLengthIs(w, rest);
    assert (w + rest)[0] == w[0];
    assert (w + rest)[..|w|] == w && (w + rest)[|w|..] == rest;
  }

  /** Words written with single spaces are read back. */
  lemma {:induction false} WordsOfJoin(ws: seq<string>)
    requires forall w :: w in ws ==> Word(w)
    ensures Words(Unwords(ws)) == ws
  {
    if |ws| == 1 {
      assert ws[0] in ws;
      WordFirst(ws[0], "");
      assert ws[0] + "" == ws[0] && ws == [ws[0]];
    } else if |ws| > 1 {
      assert ws[0] in ws;
      WordsOfJoin(ws[1..]);
      WordFirst(ws[0], " " + Unwords(ws[1..]));
      assert (" " + Unwords(ws[1..]))[1..] == Unwords(ws[1..]);
    }
  }

  // ------------------------------------------------ collapsing and trimming

  lemma {:induction false} DropWords(s: string)
    ensures Words(DropSpaces(s)) == Words(s)
  {
    if s != [] && IsSpace(s[0]) {
      DropWords(s[1..]);
    }
  }

  function LastSpace(s: string): string { if s != [] && IsSpace(s[|s| - 1]) then " " else "" }

  /** A text without leading whitespace collapses to its words, joined by single spaces,
      and a last space when it ends in whitespace. */
  lemma {:induction false} CollapseJoins(s: string)
    requires s == [] || !IsSpace(s[0])
    ensures Collapse(s) == Unwords(Words(s)) + LastSpace(s)
    decreases |s|
  {
    if s != [] {
      var n := WordLength(s);
      var w, rest := s[..n], s[n..];
      assert s == w + rest;
      CollapseWord(w, rest);
      WordFirst(w, rest);
      if rest == [] {
        assert Words(s) == [w];
        assert LastSpace(s) == "" && Collapse(rest) == "";
      } else {
        CollapseJoins(DropSpaces(rest[1..]));
        LastOfConcat(w, rest);
        CollapseRest(w, rest);
      }
    }
  }

  lemma LastOfConcat(w: string, rest: string)
    requires rest != []
    ensures LastSpace(w + rest) == LastSpace(rest)
  {
  }

  lemma CollapseRest(w: string, rest: string)
    requires rest != [] && IsSpace(rest[0])
    requires var tail := DropSpaces(rest[1..]); Collapse(tail) == Unwords(Words(tail)) + LastSpace(tail)
    ensures w + Collapse(rest) == Unwords([w] + Words(rest)) + LastSpace(rest)
  {
    var tail := DropSpaces(rest[1..]);
    RestOfText(rest);
    JoinMore(w, Words(tail));
    if tail != [] {
      Regroup(w, " " + Unwords(Words(tail)), LastSpace(tail));
      Regroup(" ", Unwords(Words(tail)), LastSpace(tail));
    }
  }

  lemma JoinMore(w: string, ws: seq<string>)
    ensures Unwords([w] + ws) == if ws == [] then w else w + (" " + Unwords(ws))
  {
    assert ([w] + ws)[1..] == ws;
  }

  lemma RestOfText(rest: string)
    requires rest != [] && IsSpace(rest[0])
    ensures var tail := DropSpaces(rest[1..]);
      && Words(rest) == Words(tail) && Collapse(rest) == " " + Collapse(tail)
      && LastSpace(rest) == (if tail == [] then " " else LastSpace(tail))
      && (Words(tail) == [] <==> tail == [])
  {
    DropWords(rest[1..]);
    DropSuffix(rest[1..]);
  }

  lemma {:induction false} CollapseWord(w: string, rest: string)
    requires forall k :: 0 <= k < |w| ==> !IsSpace(w[k])
    ensures Collapse(w + rest) == w + Collapse(rest)
  {
    if w == [] {
      assert w + rest == rest;
    } else {
      assert (w + rest)[1..] == w[1..] + rest && (w + rest)[0] == w[0];
      CollapseWord(w[1..], rest);
    }
  }

  lemma {:induction false} StripRightWords(s: string)
    ensures Words(StripRight(s)) == Words(s)
  {
    if s != [] && IsSpace(s[|s| - 1]) {
      var t := s[..|s| - 1];
      StripRightWords(t);
      assert s == t + [s[|s| - 1]];
      TrailingSpace(t, s[|s| - 1]);
    }
  }

  lemma {:induction false} TrailingSpace(s: string, c: char)
    requires IsSpace(c)
    ensures Words(s + [c]) == Words(s)
    decreases |s|
  {
    if s == [] {
      assert [] + [c] == [c];
    } else if IsSpace(s[0]) {
      assert (s + [c])[1..] == s[1..] + [c];
      TrailingSpace(s[1..], c);
    } else {
      var n := WordLength(s);
      var w, rest := s[..n], s[n..];
      TrailingSpace(rest, c);
      WordFirst(w, rest + [c]);
      assert s + [c] == w + (rest + [c]);
    }
  }

  /** Trimming and collapsing a text leaves its words joined by single spaces. */
  lemma TidyIsJoin(s: string)
    ensures Collapse(Strip(s)) == Unwords(Words(s))
  {
    var t := Strip(s);
    StripTrims(s);
    CollapseJoins(t);
    DropWords(s);
    StripRightWords(DropSpaces(s));
  }

  // ---------------------------------------------------------------- folding

  /** Case folding maps characters one by one, keeps whitespace, and makes none. */
  ghost predicate Folding(fold: char -> string) {
    forall c :: if IsSpace(c) then fold(c) == [c] else Word(fold(c))
  }

  function Fold(s: string, fold: char -> string): string {
    if s == [] then [] else fold(s[0]) + Fold(s[1..], fold)
  }

  function FoldAll(ws: seq<string>, fold: char -> string): (r: seq<string>)
    ensures |r| == |ws|
  {
    if ws == [] then [] else [Fold(ws[0], fold)] + FoldAll(ws[1..], fold)
  }

  /** `normalize_query`. */
  function NormalizeQuery(query: string, fold: char -> string): string { Fold(Collapse(Strip(query)), fold) }

  lemma {:induction false} FoldConcat(a: string, b: string, fold: char -> string)
    ensures Fold(a + b, fold) == Fold(a, fold) + Fold(b, fold)
  {
    if a == [] {
      assert a + b == b;
    } else {
      assert (a + b)[1..] == a[1..] + b;
      FoldConcat(a[1..], b, fold);
    }
  }

  lemma {:induction false} FoldWord(w: string, fold: char -> string)
    requires Folding(fold) && Word(w)
    ensures Word(Fold(w, fold))
  {
    assert Word(fold(w[0]));
    if |w| > 1 {
      FoldWord(w[1..], fold);
    }
  }

  lemma {:induction false} FoldJoin(ws: seq<string>, fold: char -> string)
    requires Folding(fold) && forall w :: w in ws ==> Word(w)
    ensures Fold(Unwords(ws), fold) == Unwords(FoldAll(ws, fold))
    ensures forall w :: w in FoldAll(ws, fold) ==> Word(w)
  {
    if ws != [] {
      assert ws[0] in ws;
      FoldWord(ws[0], fold);
      FoldJoin(ws[1..], fold);
      if |ws| > 1 {
        FoldConcat(ws[0], " " + Unwords(ws[1..]), fold);
        FoldConcat(" ", Unwords(ws[1..]), fold);
        assert fold(' ') == " ";
        assert Fold(" ", fold) == " ";
      }
    }
  }

  /** Two queries are one query to the cache exactly when they have the same words up to
      case: neither case nor spacing matters, and nothing else is forgotten. */
  lemma SameQuery(a: string, b: string, fold: char -> string)
    requires Folding(fold)
    ensures NormalizeQuery(a, fold) == NormalizeQuery(b, fold)
       <==> FoldAll(Words(a), fold) == FoldAll(Words(b), fold)
  {
    TidyIsJoin(a);
    TidyIsJoin(b);
    FoldJoin(Words(a), fold);
    FoldJoin(Words(b), fold);
    WordsOfJoin(FoldAll(Words(a), fold));
    WordsOfJoin(FoldAll(Words(b), fold));
  }

  // --------------------------------------------------------------- material

  datatype Material = Material(
    query: string, provider: string, verticals: seq<string>, language: Option<string>, timeRange: Option<TimeRange>,
    safeSearch: SafeSearch, page: int, limit: Option<int>, sources: seq<string>)

  function Values(vs: seq<Vertical>): seq<string> {
    if vs == [] then [] else [VerticalValue(vs[0])] + Values(vs[1..])
  }

  function Lowered(ss: seq<string>, lower: string -> string): seq<string> {
    if ss == [] then [] else [lower(ss[0])] + Lowered(ss[1..], lower)
  }

  /** `build_key_material`. */
  function KeyMaterial(q: Query, fold: char -> string, lower: string -> string): Material {
    Material(NormalizeQuery(q.query, fold), Strip(q.provider), Sort(Values(q.verticals), AtMost), q.language,
             q.timeRange, q.safeSearch, q.page, q.limit, Sort(Lowered(q.sources, lower), AtMost))
  }

  /** Two requests mean the same search: the same words up to case, the same verticals and
      the same sources up to case in any order, and the same other filters. */
  predicate SameSearch(a: Query, b: Query, fold: char -> string, lower: string -> string) {
    && FoldAll(Words(a.query), fold) == FoldAll(Words(b.query), fold)
    && Strip(a.provider) == Strip(b.provider)
    && multiset(a.verticals) == multiset(b.verticals)
    && a.language == b.language && a.timeRange == b.timeRange && a.safeSearch == b.safeSearch
    && a.page == b.page && a.limit == b.limit
    && multiset(Lowered(a.sources, lower)) == multiset(Lowered(b.sources, lower))
  }

  lemma ValueInjective(a: Vertical, b: Vertical)
    ensures VerticalValue(a) == VerticalValue(b) ==> a == b
  {
    if |VerticalValue(a)| == |VerticalValue(b)| {
      assert VerticalValue(a)[0] == VerticalValue(b)[0] ==> VerticalValue(a)[1] == VerticalValue(b)[1] ==> a == b;
    }
  }

  lemma {:induction false} ValuesCount(vs: seq<Vertical>, v: Vertical)
    ensures multiset(Values(vs))[VerticalValue(v)] == multiset(vs)[v]
  {
    if vs != [] {
      ValuesCount(vs[1..], v);
      ValueInjective(vs[0], v);
      assert vs == [vs[0]] + vs[1..];
    }
  }

  lemma {:induction false} ValuesAre(vs: seq<Vertical>, s: string)
    requires s in Values(vs)
    ensures exists v :: v in vs && VerticalValue(v) == s
  {
    if s != VerticalValue(vs[0]) {
      ValuesAre(vs[1..], s);
    }
  }

  lemma ValuesMultiset(a: seq<Vertical>, b: seq<Vertical>)
    ensures multiset(Values(a)) == multiset(Values(b)) <==> multiset(a) == multiset(b)
  {
    if multiset(Values(a)) == multiset(Values(b)) {
      forall v: Vertical
        ensures multiset(a)[v] == multiset(b)[v]
      {
        ValuesCount(a, v);
        ValuesCount(b, v);
      }
    }
    if multiset(a) == multiset(b) {
      forall s: string
        ensures multiset(Values(a))[s] == multiset(Values(b))[s]
      {
        ValuesSame(a, b, s);
      }
    }
  }

  lemma ValuesSame(a: seq<Vertical>, b: seq<Vertical>, s: string)
    requires multiset(a) == multiset(b)
    ensures multiset(Values(a))[s] == multiset(Values(b))[s]
  {
    if s in Values(a) {
      ValuesAre(a, s);
      var v :| v in a && VerticalValue(v) == s;
      ValuesCount(a, v);
      ValuesCount(b, v);
    } else if s in Values(b) {
      ValuesAre(b, s);
      var v :| v in b && VerticalValue(v) == s;
      ValuesCount(a, v);
      ValuesCount(b, v);
    }
  }

  lemma SortedSame(a: seq<string>, b: seq<string>)
    ensures Sort(a, AtMost) == Sort(b, AtMost) <==> multiset(a) == multiset(b)
  {
    AtMostPreorder();
    if multiset(a) == multiset(b) {
      SortPermutation(a, b, AtMost);
    }
    SortMultiset(a, AtMost);
    SortMultiset(b, AtMost);
  }

  /** Requests share a key exactly when they mean the same search. */
  lemma SameKey(a: Query, b: Query, fold: char -> string, lower: string -> string)
    requires Folding(fold)
    ensures KeyMaterial(a, fold, lower) == KeyMaterial(b, fold, lower) <==> SameSearch(a, b, fold, lower)
  {
    SameQuery(a.query, b.query, fold);
    SortedSame(Values(a.verticals), Values(b.verticals));
    ValuesMultiset(a.verticals, b.verticals);
    SortedSame(Lowered(a.sources, lower), Lowered(b.sources, lower));
  }

  // ------------------------------------------------- what equal keys promise

  lemma SameServe(world: World, a: Query, b: Query, fold: char -> string, lower: string -> string, name: string)
    requires SameSearch(a, b, fold, lower)
    ensures CanServe(world, a, name) <==> CanServe(world, b, name)
  {
    SameMultisetSameElements(a.verticals, b.verticals);
    SameMultisetSameElements(Lowered(a.sources, lower), Lowered(b.sources, lower));
    LoweredLength(a.sources, lower);
    LoweredLength(b.sources, lower);
  }

  lemma LoweredLength(ss: seq<string>, lower: string -> string)
    ensures |Lowered(ss, lower)| == |ss|
  {
  }

  /** For the same probe results, requests with one key have one routing mode and one list
      of eligible providers. */
  lemma {:induction false} SameEligible(
    world: World, a: Query, b: Query, fold: char -> string, lower: string -> string, cs: seq<string>)
    requires SameSearch(a, b, fold, lower)
    ensures forall config: Config :: Mode(config, a) == Mode(config, b)
    ensures Eligible(world, a, cs) == Eligible(world, b, cs)
  {
    if cs != [] {
      SameEligible(world, a, b, fold, lower, cs[1..]);
      SameServe(world, a, b, fold, lower, cs[0]);
      VerdictIsCanServe(world, a, cs[0]);
      VerdictIsCanServe(world, b, cs[0]);
    }
  }

  /** The same candidates are skipped, for reasons that differ at most in the order of the
      missing verticals. */
  predicate SkipsAlike(x: seq<Skip>, y: seq<Skip>) {
    && |x| == |y|
    && forall k :: 0 <= k < |x| ==> x[k].provider == y[k].provider && Alike(x[k].reason, y[k].reason)
  }

  predicate Alike(x: Reason, y: Reason) { x == y || (x.Mismatch? && y.Mismatch?) }

  lemma SameVerdict(world: World, a: Query, b: Query, fold: char -> string, lower: string -> string, name: string)
    requires SameSearch(a, b, fold, lower)
    ensures Verdict(world, a, name).Some? <==> Verdict(world, b, name).Some?
    ensures Verdict(world, a, name).Some? ==> Alike(Verdict(world, a, name).value, Verdict(world, b, name).value)
  {
    SameServe(world, a, b, fold, lower, name);
    VerdictIsCanServe(world, a, name);
    VerdictIsCanServe(world, b, name);
  }

  lemma {:induction false} SameSkipped(
    world: World, a: Query, b: Query, fold: char -> string, lower: string -> string, cs: seq<string>)
    requires SameSearch(a, b, fold, lower)
    ensures SkipsAlike(SkippedOf(world, a, cs), SkippedOf(world, b, cs))
  {
    if cs != [] {
      SameSkipped(world, a, b, fold, lower, cs[1..]);
      SameVerdict(world, a, b, fold, lower, cs[0]);
    }
  }

  lemma SameDegradations(world: World, a: Query, b: Query, fold: char -> string, lower: string -> string, name: string)
    requires SameSearch(a, b, fold, lower) && CanServe(world, a, name)
    ensures world.probe(name).Some?
    ensures Degradations(world.probe(name).value, a) == Degradations(world.probe(name).value, b)
  {
    SameServe(world, a, b, fold, lower, name);
    StrictIsSatisfies(world.probe(name).value, a);
    StrictIsSatisfies(world.probe(name).value, b);
  }

  /** The runs agree on everything but the missing verticals listed in an error. */
  predicate SameRun(x: Run, y: Run) {
    && x.attempted == y.attempted && x.succeeded == y.succeeded && x.errored == y.errored && x.fallbacks == y.fallbacks
    && (x.outcome.Ok? <==> y.outcome.Ok?)
    && (x.outcome.Ok? ==> x.outcome == y.outcome)
  }

  lemma SameAttempt(world: World, a: Query, b: Query, es: seq<string>, notes: seq<Note>)
    requires es != [] && forall n :: n in es ==> world.probe(n).Some?
    requires var run := Fall(world, es);
      run.outcome.Ok? ==>
        var last := es[|run.attempted| - 1];
        && world.probe(last).Some?
        && Degradations(world.probe(last).value, a) == Degradations(world.probe(last).value, b)
    ensures SameRun(Attempt(world, a, es, notes), Attempt(world, b, es, notes))
  {
  }

  lemma SameAuto(world: World, a: Query, b: Query, fold: char -> string, lower: string -> string, cs: seq<string>)
    requires SameSearch(a, b, fold, lower)
    ensures SameRun(AutoRun(world, a, cs), AutoRun(world, b, cs))
  {
    SameEligible(world, a, b, fold, lower, cs);
    SameSkipped(world, a, b, fold, lower, cs);
    var es, notes := Eligible(world, a, cs), SkipNotes(SkippedOf(world, a, cs));
    assert notes == SkipNotes(SkippedOf(world, b, cs));
    if es != [] {
      if Fall(world, es).outcome.Ok? {
        var last := es[|Fall(world, es).attempted| - 1];
        EligibleServe(world, a, cs);
        assert last in es;
        SameDegradations(world, a, b, fold, lower, last);
      }
      SameAttempt(world, a, b, es, notes);
    }
  }

  lemma SameExplicit(world: World, a: Query, b: Query, fold: char -> string, lower: string -> string,
                     names: seq<string>, name: string)
    requires SameSearch(a, b, fold, lower)
    ensures SameRun(ExplicitRun(world, a, names, name), ExplicitRun(world, b, names, name))
  {
    SameVerdict(world, a, b, fold, lower, name);
    if Verdict(world, a, name).None? {
      VerdictIsCanServe(world, a, name);
      SameDegradations(world, a, b, fold, lower, name);
    }
  }

  // ------------------------------------------- providers that see the request

  /** The providers: what a probe says, and how each answers a request. */
  datatype Providers = Providers(probe: string -> Option<Capabilities>, answer: (string, Query) -> Outcome)

  /** The providers as the request meets them. */
  function Facing(ps: Providers, q: Query): World { World(ps.probe, name => ps.answer(name, q)) }

  /** Outcomes of calls that are not made do not matter. */
  ghost predicate AgreeOn(v: World, w: World, names: seq<string>) {
    v.probe == w.probe && forall n :: n in names ==> v.outcome(n) == w.outcome(n)
  }

  lemma {:induction false} SameEligibleList(v: World, w: World, q: Query, cs: seq<string>)
    requires v.probe == w.probe
    ensures Eligible(v, q, cs) == Eligible(w, q, cs) && SkippedOf(v, q, cs) == SkippedOf(w, q, cs)
  {
    if cs != [] {
      SameEligibleList(v, w, q, cs[1..]);
    }
  }

  lemma {:induction false} DecisiveAgrees(v: World, w: World, es: seq<string>)
    requires AgreeOn(v, w, es[..Min(Decisive(v, es) + 1, |es|)])
    ensures Decisive(v, es) == Decisive(w, es)
  {
    if es != [] {
      var n := Min(Decisive(v, es) + 1, |es|);
      assert es[..n][0] == es[0];
      if FailsTransiently(v, es[0]) {
        assert Decisive(v, es) == 1 + Decisive(v, es[1..]);
        assert es[1..][..n - 1] == es[..n][1..];
        DecisiveAgrees(v, w, es[1..]);
      }
    }
  }

  lemma {:induction false} NotesAgree(v: World, w: World, es: seq<string>, n: nat)
    requires n <= |es| && AgreeOn(v, w, es[..n])
    ensures Failures(v, es, n) == Failures(w, es, n) && FailNotes(v, es, n) == FailNotes(w, es, n)
  {
    if n > 0 {
      assert es[..n - 1] == es[..n][..n - 1] && es[..n][n - 1] == es[n - 1];
      NotesAgree(v, w, es, n - 1);
    }
  }

  lemma FallAgrees(v: World, w: World, es: seq<string>)
    requires es != [] && AgreeOn(v, w, Fall(v, es).attempted)
    ensures Fall(v, es) == Fall(w, es)
  {
    var k := Decisive(v, es);
    assert es[..|es|] == es;
    DecisiveAgrees(v, w, es);
    if k == |es| {
      NotesAgree(v, w, es, k);
    } else {
      assert es[..k + 1][k] == es[k];
    }
  }

  lemma AttemptAgrees(v: World, w: World, q: Query, es: seq<string>, notes: seq<Note>)
    requires es != [] && v.probe == w.probe && forall n :: n in es ==> v.probe(n).Some?
    requires AgreeOn(v, w, Attempt(v, q, es, notes).attempted)
    ensures Attempt(v, q, es, notes) == Attempt(w, q, es, notes)
  {
    FallAgrees(v, w, es);
    if Fall(v, es).outcome.Ok? {
      var k := |Fall(v, es).attempted| - 1;
      assert es[..k] == es[..k + 1][..k];
      NotesAgree(v, w, es, k);
    }
  }

  /** A route depends on the calls it makes only. */
  lemma RouteAgrees(v: World, w: World, config: Config, names: seq<string>, q: Query)
    requires AgreeOn(v, w, RouteRun(v, config, names, q).attempted)
    ensures RouteRun(v, config, names, q) == RouteRun(w, config, names, q)
  {
    var cs := CandidateOrder(config.order, names);
    SameEligibleList(v, w, q, cs);
    var es := Eligible(v, q, cs);
    if Mode(config, q) == AUTO && es != [] {
      AttemptAgrees(v, w, q, es, SkipNotes(SkippedOf(v, q, cs)));
    }
  }

  /** Requests with one key meet the same choice of providers, and as far as the providers
      that the one route tries answer the other request alike, the other route tries the
      same ones and gives the same answer.  So a cached answer is one that the router could
      have given to the new request, unless a provider tells the two apart. */
  lemma SameRoute(ps: Providers, config: Config, names: seq<string>, a: Query, b: Query,
                  fold: char -> string, lower: string -> string)
    requires Folding(fold) && KeyMaterial(a, fold, lower) == KeyMaterial(b, fold, lower)
    requires var tried := RouteRun(Facing(ps, a), config, names, a).attempted;
      forall n :: n in tried ==> ps.answer(n, a) == ps.answer(n, b)
    ensures SameRun(RouteRun(Facing(ps, a), config, names, a), RouteRun(Facing(ps, b), config, names, b))
  {
    var v := Facing(ps, a);
    SameKey(a, b, fold, lower);
    SameAuto(v, a, b, fold, lower, CandidateOrder(config.order, names));
    SameExplicit(v, a, b, fold, lower, names, Mode(config, a));
    assert SameRun(RouteRun(v, config, names, a), RouteRun(v, config, names, b));
    RouteAgrees(v, Facing(ps, b), config, names, b);
  }
}
