/** Keys of the scrape cache (app/scraper/normalizer.py): the key material of a normalised
    URL with cookies and headers folded in.  SHA-256 is taken to be injective, so keys are
    equal when the material is. */
module CacheKey {
  import opened Sequences
  import opened StringOrder
  import opened Splitting
  import opened JsonText
  import opened UrlText

  // ----------------------------------------------------------------- material

  predicate PairAtMost(p: Pair, q: Pair) {
    if p.name == q.name then AtMost(p.value, q.value) else AtMost(p.name, q.name)
  }

  lemma PairPreorder()
    ensures TotalPreorder(PairAtMost) && Antisymmetric(PairAtMost)
  {
    forall x, y
      ensures PairAtMost(x, y) || PairAtMost(y, x)
      ensures PairAtMost(x, y) && PairAtMost(y, x) ==> x == y
    {
      AtMostTotal(x.name, y.name);
      AtMostTotal(x.value, y.value);
    }
    forall x, y, z | PairAtMost(x, y) && PairAtMost(y, z)
      ensures PairAtMost(x, z)
    {
      PairTransitive(x, y, z);
    }
  }

  lemma PairTransitive(x: Pair, y: Pair, z: Pair)
    requires PairAtMost(x, y) && PairAtMost(y, z)
    ensures PairAtMost(x, z)
  {
    if x.name == y.name && y.name == z.name {
      AtMostTransitive(x.value, y.value, z.value);
    } else {
      if x.name != y.name && y.name != z.name {
        AtMostTransitive(x.name, y.name, z.name);
      }
      AtMostTotal(x.name, y.name);
      AtMostTotal(x.name, z.name);
    }
  }

  function Section(title: string, pairs: seq<Pair>): string {
    if pairs == [] then "" else "\n" + (title + PairsText(Sort(pairs, PairAtMost)))
  }

  /** The key material: the normalised URL, and a line each for cookies and headers. */
  function Material(url: string, cookies: seq<Pair>, headers: seq<Pair>): string {
    url + (Section("cookies:", cookies) + Section("headers:", headers))
  }

  predicate OneLine(s: string) { '\n' !in s }

  lemma {:induction false} FirstLine(u: string, v: string, x: string, y: string)
    requires OneLine(u) && OneLine(v) && u + x == v + y
    requires (x == [] || x[0] == '\n') && (y == [] || y[0] == '\n')
    ensures u == v && x == y
  {
    HeadOf(u, x);
    HeadOf(v, y);
    if u != [] && v != [] {
      FirstLine(u[1..], v[1..], x, y);
    }
  }

  lemma HeadOf(u: string, x: string)
    ensures u == [] ==> u + x == x
    ensures u != [] ==> (u + x)[0] == u[0] && (u + x)[1..] == u[1..] + x
  {
  }

  function Line(title: string, pairs: seq<Pair>): string { title + PairsText(Sort(pairs, PairAtMost)) }

  lemma LineOne(title: string, pairs: seq<Pair>)
    requires Printable(title)
    ensures OneLine(Line(title, pairs))
  {
    PairsPrintable(Sort(pairs, PairAtMost));
    assert Printable(Line(title, pairs));
  }

  /** The same pairs, each as often, in any order. */
  lemma SameLine(title: string, a: seq<Pair>, b: seq<Pair>)
    ensures Line(title, a) == Line(title, b) <==> multiset(a) == multiset(b)
  {
    PairPreorder();
    SortMultiset(a, PairAtMost);
    SortMultiset(b, PairAtMost);
    if Line(title, a) == Line(title, b) {
      Behind(title, PairsText(Sort(a, PairAtMost)), PairsText(Sort(b, PairAtMost)));
      PairsInjective(Sort(a, PairAtMost), Sort(b, PairAtMost));
    }
    if multiset(a) == multiset(b) {
      SortPermutation(a, b, PairAtMost);
    }
  }

  lemma NoPairs(a: seq<Pair>)
    ensures multiset(a) == multiset{} <==> a == []
  {
    if a != [] {
      assert a[0] in multiset(a);
    }
  }

  lemma SectionStarts(title: string, pairs: seq<Pair>, x: string)
    requires title != ""
    ensures pairs == [] ==> Section(title, pairs) + x == x
    ensures pairs != [] ==> StartsWith(Section(title, pairs) + x, title[0])
  {
  }

  predicate StartsWith(s: string, c: char) { |s| > 1 && s[0] == '\n' && s[1] == c }

  lemma HeadersInjective(a: seq<Pair>, b: seq<Pair>)
    requires Section("headers:", a) == Section("headers:", b)
    ensures multiset(a) == multiset(b)
  {
    if a != [] && b != [] {
      Behind("\n", Line("headers:", a), Line("headers:", b));
      SameLine("headers:", a, b);
    }
  }

  lemma HeadersStart(h: seq<Pair>)
    ensures !StartsWith(Section("headers:", h), 'c')
    ensures Section("headers:", h) != "" ==> Section("headers:", h)[0] == '\n'
  {
  }

  lemma SectionIsLine(title: string, pairs: seq<Pair>)
    requires pairs != []
    ensures Section(title, pairs) == "\n" + Line(title, pairs)
  {
  }

  lemma SameCookieLine(c: seq<Pair>, d: seq<Pair>, x: string, y: string)
    requires c != [] && d != [] && Section("cookies:", c) + x == Section("cookies:", d) + y
    requires (x == [] || x[0] == '\n') && (y == [] || y[0] == '\n')
    ensures Line("cookies:", c) == Line("cookies:", d) && x == y
  {
    SectionIsLine("cookies:", c);
    SectionIsLine("cookies:", d);
    LineOne("cookies:", c);
    LineOne("cookies:", d);
    LinesInjective(Line("cookies:", c), Line("cookies:", d), x, y);
  }

  lemma CookiesInjective(c: seq<Pair>, d: seq<Pair>, x: string, y: string)
    requires c != [] && d != [] && Section("cookies:", c) + x == Section("cookies:", d) + y
    requires (x == [] || x[0] == '\n') && (y == [] || y[0] == '\n')
    ensures multiset(c) == multiset(d) && x == y
  {
    SameCookieLine(c, d, x, y);
    SameLine("cookies:", c, d);
  }

  lemma LinesInjective(l: string, m: string, x: string, y: string)
    requires "\n" + l + x == "\n" + m + y && OneLine(l) && OneLine(m)
    requires (x == [] || x[0] == '\n') && (y == [] || y[0] == '\n')
    ensures l == m && x == y
  {
    Regroup("\n", l, x);
    Regroup("\n", m, y);
    Behind("\n", l + x, m + y);
    FirstLine(l, m, x, y);
  }

  lemma SectionsInjective(c: seq<Pair>, d: seq<Pair>, h: seq<Pair>, i: seq<Pair>)
    requires Section("cookies:", c) + Section("headers:", h) == Section("cookies:", d) + Section("headers:", i)
    ensures multiset(c) == multiset(d) && multiset(h) == multiset(i)
  {
    var x, y := Section("headers:", h), Section("headers:", i);
    SectionStarts("cookies:", c, x);
    SectionStarts("cookies:", d, y);
    HeadersStart(h);
    HeadersStart(i);
    if c != [] && d != [] {
      CookiesInjective(c, d, x, y);
    }
    HeadersInjective(h, i);
  }

  /** For one-line URLs the material is the same exactly when the normalised URLs are, the
      cookies are the same, each as often, and so are the headers: the order in which
      cookies or headers were given is forgotten, and nothing else. */
  lemma SameMaterialIff(
    u: string, v: string, cookies: seq<Pair>, others: seq<Pair>, headers: seq<Pair>, more: seq<Pair>)
    requires OneLine(u) && OneLine(v)
    ensures Material(u, cookies, headers) == Material(v, others, more)
       <==> u == v && multiset(cookies) == multiset(others) && multiset(headers) == multiset(more)
  {
    var x, y := Section("cookies:", cookies) + Section("headers:", headers),
                Section("cookies:", others) + Section("headers:", more);
    if u + x == v + y {
      FirstLine(u, v, x, y);
      SectionsInjective(cookies, others, headers, more);
    }
    if multiset(cookies) == multiset(others) && multiset(headers) == multiset(more) {
      SameSection("cookies:", cookies, others);
      SameSection("headers:", headers, more);
    }
  }

  /** Without cookies and headers the material is the URL itself. */
  lemma PlainMaterial(url: string)
    ensures Material(url, [], []) == url
  {
  }

  lemma SameSection(title: string, a: seq<Pair>, b: seq<Pair>)
    requires multiset(a) == multiset(b)
    ensures Section(title, a) == Section(title, b)
  {
    NoPairs(a);
    NoPairs(b);
    SameLine(title, a, b);
  }

  /** With a line break in the URL the parts could run into each other. */
  lemma LineBreakCollides(url: string, cookies: seq<Pair>)
    requires cookies != []
    ensures Material(url + Section("cookies:", cookies), [], []) == Material(url, cookies, [])
  {
    assert Section("cookies:", cookies) + "" == Section("cookies:", cookies);
  }

  /** Reordering the parameters of a URL does not change its key. */
  lemma ReorderedParameters(u: Url, query: string, text: Written -> string, lower: string -> string,
                            cookies: seq<Pair>, headers: seq<Pair>)
    requires multiset(Split(query, '&')) == multiset(Split(u.query, '&'))
    ensures Material(text(Write(Normalize(u.(query := query), lower))), cookies, headers)
         == Material(text(Write(Normalize(u, lower))), cookies, headers)
  {
    SameQueryIff(query, u.query);
  }
}
