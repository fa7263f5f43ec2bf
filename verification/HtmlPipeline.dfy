/** `normalize_html` as a function on trees: which passes a request runs and what running
    the whole pipeline again does. */
module HtmlPipeline {
  import opened HtmlTree
  import opened HtmlWhitespace
  import Srcset

  datatype Feature =
    | AbsoluteUrls | Scripts | Styles | Comments | Meta | Noscript | DataAttrs | HiddenNodes | Media
    | CollapseSpace | MinifySpace

  const LIGHT: set<Feature> := {Comments, Noscript, CollapseSpace, MinifySpace}
  const CONTENT: set<Feature> :=
    {Scripts, Styles, Comments, Meta, Noscript, HiddenNodes, DataAttrs, CollapseSpace, MinifySpace}
  const AGGRESSIVE: set<Feature> :=
    {Scripts, Styles, Comments, Meta, Noscript, HiddenNodes, Media, DataAttrs, CollapseSpace, MinifySpace}

  function Preset(name: string): set<Feature> {
    if name == "light" then LIGHT
    else if name == "content" then CONTENT
    else if name == "aggressive" then AGGRESSIVE
    else {}
  }

  const MEDIA_TAGS: set<string> :=
    {"audio", "canvas", "embed", "iframe", "img", "object", "picture", "source", "svg", "video"}

  /** A listing of the media tags: the code iterates over a set, in no fixed order. */
  ghost predicate MediaListing(media: seq<string>) {
    forall tag :: tag in media <==> tag in MEDIA_TAGS
  }

  function Removals(names: seq<string>): (r: seq<Pass>)
    ensures forall p :: p in r <==> p.RemoveNamed? && p.name in names
  {
    if names == [] then [] else [RemoveNamed(names[0])] + Removals(names[1..])
  }

  /** The passes of a feature, if it is active. */
  function When(feature: Feature, active: set<Feature>, ps: seq<Pass>): seq<Pass> {
    if feature in active then ps else []
  }

  function HiddenPasses(active: set<Feature>): seq<Pass> {
    When(HiddenNodes, active, [RemoveNamed("template"), RemoveHidden])
  }

  function MiddlePasses(active: set<Feature>): (r: seq<Pass>)
    ensures RemoveHidden !in r
  {
    When(Scripts, active, [RemoveNamed("script")])
    + When(Styles, active, [RemoveNamed("style"), StripStyle])
    + When(Comments, active, [RemoveComments])
  }

  function LastPasses(active: set<Feature>, media: seq<string>): (r: seq<Pass>)
    ensures RemoveHidden !in r
  {
    When(Meta, active, [RemoveNamed("meta")])
    + When(Noscript, active, [RemoveNamed("noscript")])
    + When(Media, active, Removals(media))
    + When(DataAttrs, active, [StripData])
  }

  /** The removal and attribute passes in the order `normalize_html` runs them. */
  function Passes(active: set<Feature>, media: seq<string>): seq<Pass> {
    HiddenPasses(active) + MiddlePasses(active) + LastPasses(active, media)
  }

  // ---------------------------------------------------------- absolute URLs

  const URL_ATTRS: set<string> := {"href", "src", "action", "poster"}

  /** `join` is `urljoin` on the page's URL. */
  function AbsoluteAttrs(attrs: Attrs, join: string -> string): Attrs {
    map key | key in attrs ::
      if attrs[key].One? && attrs[key].value != "" && key in URL_ATTRS then One(join(attrs[key].value))
      else if attrs[key].One? && attrs[key].value != "" && key == "srcset" then One(Srcset.Resolve(attrs[key].value, join))
      else attrs[key]
  }

  function Absolute(ns: seq<Node>, join: string -> string): seq<Node> {
    if ns == [] then []
    else
      var n := match ns[0]
        case Str(_, _, _) => ns[0]
        case Elem(uid, name, attrs, kids) =>
          Elem(uid, name, AbsoluteAttrs(attrs, join), Absolute(kids, join));
      [n] + Absolute(ns[1..], join)
  }

  /** The whole pipeline for the active features. */
  function Normalize(
    active: set<Feature>, media: seq<string>, join: string -> string, ns: seq<Node>)
    : seq<Node>
  {
    var f := ApplyAll(Passes(active, media), ns);
    var u := if AbsoluteUrls in active then Absolute(f, join) else f;
    Whitespace(CollapseSpace in active, MinifySpace in active, u)
  }

  // ----------------------------------------------------------------- order

  lemma HiddenFirstConcat(head: seq<Pass>, tail: seq<Pass>)
    requires HiddenFirst(head) && RemoveHidden !in tail
    ensures HiddenFirst(head + tail)
  {
    forall i, j | 0 <= i < j < |head + tail| && (head + tail)[i] == StripStyle
      ensures (head + tail)[j] != RemoveHidden
    {
      assert j >= |head| ==> (head + tail)[j] in tail;
    }
  }

  lemma PassesHiddenFirst(active: set<Feature>, media: seq<string>)
    ensures HiddenFirst(Passes(active, media))
  {
    var middle, last := MiddlePasses(active), LastPasses(active, media);
    HiddenFirstConcat(HiddenPasses(active), middle);
    HiddenFirstConcat(HiddenPasses(active) + middle, last);
  }

  /** The unordered iteration over the media tags does not show in the result. */
  lemma MediaOrderIrrelevant(
    active: set<Feature>, media: seq<string>, media': seq<string>,
    join: string -> string, ns: seq<Node>)
    requires MediaListing(media) && MediaListing(media')
    ensures Normalize(active, media, join, ns) == Normalize(active, media', join, ns)
  {
    PassesHiddenFirst(active, media);
    PassesHiddenFirst(active, media');
    PassOrderIrrelevant(Passes(active, media), Passes(active, media'), ns);
  }

  // ----------------------------------------------------------- idempotence

  /** Every node is kept by all passes and carries no attribute they strip. */
  predicate Clean(ps: seq<Pass>, ns: seq<Node>) {
    ns == [] ||
    (KeepsAll(ps, ns[0]) && Clean(ps, ns[1..]) &&
     (ns[0].Elem? ==> (forall key :: key in ns[0].attrs ==> !StripsAny(ps, key)) && Clean(ps, ns[0].kids)))
  }

  lemma HiddenMonotone(name: string, attrs: Attrs, fewer: Attrs)
    requires forall key :: key in fewer ==> key in attrs && fewer[key] == attrs[key]
    ensures Hidden(name, fewer) ==> Hidden(name, attrs)
  {
  }

  lemma StripAllKeeps(ps: seq<Pass>, n: Node, n': Node)
    requires n.Elem? && n'.Elem? && n'.name == n.name && n'.attrs == StripAllAttrs(ps, n.attrs)
    requires KeepsAll(ps, n)
    ensures KeepsAll(ps, n')
  {
    HiddenMonotone(n.name, n.attrs, n'.attrs);
    forall p | p in ps
      ensures Keeps(p, n')
    {
      assert Keeps(p, n);
    }
  }

  lemma {:induction false} FusedClean(ps: seq<Pass>, ns: seq<Node>)
    ensures Clean(ps, Fused(ps, ns))
  {
    if ns != [] {
      FusedClean(ps, ns[1..]);
      if KeepsAll(ps, ns[0]) {
        var r := Fused(ps, ns);
        assert r[1..] == Fused(ps, ns[1..]);
        if ns[0].Elem? {
          FusedClean(ps, ns[0].kids);
          StripAllKeeps(ps, ns[0], r[0]);
        }
      }
    }
  }

  lemma {:induction false} CleanFixed(ps: seq<Pass>, ns: seq<Node>)
    requires Clean(ps, ns)
    ensures Fused(ps, ns) == ns
  {
    if ns != [] {
      CleanFixed(ps, ns[1..]);
      if ns[0].Elem? {
        CleanFixed(ps, ns[0].kids);
        assert StripAllAttrs(ps, ns[0].attrs) == ns[0].attrs;
      }
    }
  }

  /** Same nodes up to texts and attribute values no pass looks at. */
  lemma KeepsAllSame(ps: seq<Pass>, n: Node, n': Node)
    requires n.Elem? && n'.Elem? && n'.name == n.name && KeepsAll(ps, n)
    requires Hidden(n'.name, n'.attrs) == Hidden(n.name, n.attrs)
    ensures KeepsAll(ps, n')
  {
    forall p | p in ps
      ensures Keeps(p, n')
    {
      assert Keeps(p, n);
    }
  }

  lemma KeepsAllText(ps: seq<Pass>, n: Node, n': Node)
    requires n.Str? && n'.Str? && KeepsAll(ps, n) && (n'.kind.Comment? ==> n.kind.Comment?)
    ensures KeepsAll(ps, n')
  {
    forall p | p in ps
      ensures Keeps(p, n')
    {
      assert Keeps(p, n);
    }
  }

  lemma {:induction false} CollapseClean(ps: seq<Pass>, parent: string, ns: seq<Node>)
    requires Clean(ps, ns)
    ensures Clean(ps, Collapse(parent, ns))
    decreases ns
  {
    if ns != [] {
      CollapseClean(ps, parent, ns[1..]);
      var r := Collapse(parent, ns);
      assert r[1..] == Collapse(parent, ns[1..]);
      match ns[0]
      case Elem(_, name, _, kids) =>
        CollapseClean(ps, name, kids);
        KeepsAllSame(ps, ns[0], r[0]);
      case Str(_, _, _) => KeepsAllText(ps, ns[0], r[0]);
    }
  }

  lemma {:induction false} MinifyClean(ps: seq<Pass>, parent: string, ns: seq<Node>)
    requires Clean(ps, ns)
    ensures Clean(ps, Minify(parent, ns))
    decreases ns
  {
    if ns != [] {
      MinifyClean(ps, parent, ns[1..]);
      var r := Minify(parent, ns);
      var rest := Minify(parent, ns[1..]);
      if r != rest {
        assert r[1..] == rest;
        match ns[0]
        case Elem(_, name, _, kids) =>
          MinifyClean(ps, name, kids);
          KeepsAllSame(ps, ns[0], r[0]);
        case Str(_, _, _) => KeepsAllText(ps, ns[0], r[0]);
      }
    }
  }

  lemma AbsoluteHidden(name: string, attrs: Attrs, join: string -> string)
    ensures Hidden(name, AbsoluteAttrs(attrs, join)) == Hidden(name, attrs)
  {
    forall key | key in attrs && key in ["hidden", "aria-hidden", "style", "type"]
      ensures AbsoluteAttrs(attrs, join)[key] == attrs[key]
    {
      assert key !in URL_ATTRS && key != "srcset";
    }
  }

  lemma {:induction false} AbsoluteClean(ps: seq<Pass>, ns: seq<Node>, join: string -> string)
    requires Clean(ps, ns)
    ensures Clean(ps, Absolute(ns, join))
  {
    if ns != [] {
      AbsoluteClean(ps, ns[1..], join);
      var r := Absolute(ns, join);
      assert r[1..] == Absolute(ns[1..], join);
      if ns[0].Elem? {
        AbsoluteClean(ps, ns[0].kids, join);
        AbsoluteHidden(ns[0].name, ns[0].attrs, join);
        KeepsAllSame(ps, ns[0], r[0]);
      }
    }
  }

  lemma {:induction false} AbsoluteTidy(
    collapse: bool, minify: bool, parent: string, ns: seq<Node>, join: string -> string)
    requires Tidy(collapse, minify, parent, ns)
    ensures Tidy(collapse, minify, parent, Absolute(ns, join))
    decreases ns
  {
    if ns != [] {
      AbsoluteTidy(collapse, minify, parent, ns[1..], join);
      var r := Absolute(ns, join);
      assert r[1..] == Absolute(ns[1..], join);
      if ns[0].Elem? {
        AbsoluteTidy(collapse, minify, ns[0].name, ns[0].kids, join);
      }
    }
  }

  // ------------------------------------------------------ resolving again

  /** A value that resolving empties, which the next run skips, or resolves to a fixed one. */
  predicate Settles(f: string -> string, v: string) { f(v) == "" || f(f(v)) == f(v) }

  predicate AttrsSettle(attrs: Attrs, join: string -> string) {
    forall key :: key in attrs && attrs[key].One? && attrs[key].value != "" ==>
      && (key in URL_ATTRS ==> Settles(join, attrs[key].value))
      && (key == "srcset" ==> Settles(v => Srcset.Resolve(v, join), attrs[key].value))
  }

  /** Every URL and every `srcset` of the page settles. */
  predicate PageSettles(ns: seq<Node>, join: string -> string) {
    ns == [] ||
    (PageSettles(ns[1..], join) &&
     (ns[0].Elem? ==> AttrsSettle(ns[0].attrs, join) && PageSettles(ns[0].kids, join)))
  }

  predicate Resolved(ns: seq<Node>, join: string -> string) {
    ns == [] ||
    (Resolved(ns[1..], join) &&
     (ns[0].Elem? ==> AbsoluteAttrs(ns[0].attrs, join) == ns[0].attrs && Resolved(ns[0].kids, join)))
  }

  lemma AttrsSettleIff(attrs: Attrs, join: string -> string)
    ensures var a := AbsoluteAttrs(attrs, join); AbsoluteAttrs(a, join) == a <==> AttrsSettle(attrs, join)
  {
    var a := AbsoluteAttrs(attrs, join);
    var b := AbsoluteAttrs(a, join);
    if b == a {
      assert forall key :: key in attrs ==> b[key] == a[key];
    }
  }

  lemma {:induction false} AbsoluteResolved(ns: seq<Node>, join: string -> string)
    ensures Resolved(Absolute(ns, join), join) <==> PageSettles(ns, join)
  {
    if ns != [] {
      AbsoluteResolved(ns[1..], join);
      var r := Absolute(ns, join);
      assert r[1..] == Absolute(ns[1..], join);
      if ns[0].Elem? {
        AbsoluteResolved(ns[0].kids, join);
        AttrsSettleIff(ns[0].attrs, join);
      }
    }
  }

  lemma {:induction false} ResolvedIff(ns: seq<Node>, join: string -> string)
    ensures Absolute(ns, join) == ns <==> Resolved(ns, join)
  {
    if ns != [] {
      ResolvedIff(ns[1..], join);
      var r := Absolute(ns, join);
      assert r[1..] == Absolute(ns[1..], join);
      assert r == ns ==> r[0] == ns[0] && r[1..] == ns[1..];
      if ns[0].Elem? {
        ResolvedIff(ns[0].kids, join);
      }
    }
  }

  lemma {:induction false} CollapseResolved(parent: string, ns: seq<Node>, join: string -> string)
    ensures Resolved(Collapse(parent, ns), join) <==> Resolved(ns, join)
    decreases ns
  {
    if ns != [] {
      CollapseResolved(parent, ns[1..], join);
      var r := Collapse(parent, ns);
      assert r[1..] == Collapse(parent, ns[1..]);
      if ns[0].Elem? {
        CollapseResolved(ns[0].name, ns[0].kids, join);
      }
    }
  }

  lemma {:induction false} MinifyResolved(parent: string, ns: seq<Node>, join: string -> string)
    ensures Resolved(Minify(parent, ns), join) <==> Resolved(ns, join)
    decreases ns
  {
    if ns != [] {
      MinifyResolved(parent, ns[1..], join);
      var r := Minify(parent, ns);
      var rest := Minify(parent, ns[1..]);
      if r != rest {
        assert r[1..] == rest;
        if ns[0].Elem? {
          MinifyResolved(ns[0].name, ns[0].kids, join);
        }
      }
    }
  }

  lemma WhitespaceResolved(collapse: bool, minify: bool, ns: seq<Node>, join: string -> string)
    ensures Resolved(Whitespace(collapse, minify, ns), join) <==> Resolved(ns, join)
  {
    CollapseResolved(ROOT, ns, join);
    MinifyResolved(ROOT, if collapse then Collapse(ROOT, ns) else ns, join);
  }

  lemma WhitespaceClean(ps: seq<Pass>, collapse: bool, minify: bool, ns: seq<Node>)
    requires Clean(ps, ns)
    ensures Clean(ps, Whitespace(collapse, minify, ns))
  {
    CollapseClean(ps, ROOT, ns);
    MinifyClean(ps, ROOT, if collapse then Collapse(ROOT, ns) else ns);
  }

  /** Nothing is left that a pass would remove. */
  lemma NormalizedClean(active: set<Feature>, media: seq<string>, join: string -> string, ns: seq<Node>)
    ensures Clean(Passes(active, media), Normalize(active, media, join, ns))
  {
    var ps := Passes(active, media);
    PassesHiddenFirst(active, media);
    PassesFuse(ps, ns);
    FusedClean(ps, ns);
    var f := Fused(ps, ns);
    AbsoluteClean(ps, f, join);
    WhitespaceClean(ps, CollapseSpace in active, MinifySpace in active,
                    if AbsoluteUrls in active then Absolute(f, join) else f);
  }

  /** Every pass but the resolving one leaves a normalized document alone. */
  lemma NormalizeAgain(active: set<Feature>, media: seq<string>, join: string -> string, ns: seq<Node>)
    ensures var r := Normalize(active, media, join, ns);
      Normalize(active, media, join, r) == if AbsoluteUrls in active then Absolute(r, join) else r
  {
    var ps := Passes(active, media);
    NormalizedClean(active, media, join, ns);
    PassesHiddenFirst(active, media);
    var f := ApplyAll(ps, ns);
    var u := if AbsoluteUrls in active then Absolute(f, join) else f;
    var c, m := CollapseSpace in active, MinifySpace in active;
    var r := Whitespace(c, m, u);
    PassesFuse(ps, r);
    CleanFixed(ps, r);
    WhitespaceTidy(c, m, u);
    AbsoluteTidy(c, m, ROOT, r, join);
    WhitespaceFixed(c, m, r);
    WhitespaceFixed(c, m, Absolute(r, join));
  }

  /** Normalizing a normalized document changes nothing: always without `absolute_urls`, and
      with it exactly when every URL and `srcset` that the removals leave on the page settles. */
  lemma NormalizeTwiceIff(active: set<Feature>, media: seq<string>, join: string -> string, ns: seq<Node>)
    ensures var r := Normalize(active, media, join, ns);
      Normalize(active, media, join, r) == r
      <==> (AbsoluteUrls in active ==> PageSettles(ApplyAll(Passes(active, media), ns), join))
  {
    NormalizeAgain(active, media, join, ns);
    var r := Normalize(active, media, join, ns);
    if AbsoluteUrls in active {
      var f := ApplyAll(Passes(active, media), ns);
      AbsoluteResolved(f, join);
      WhitespaceResolved(CollapseSpace in active, MinifySpace in active, Absolute(f, join), join);
      ResolvedIff(r, join);
    }
  }

  /** When a `srcset` settles. */
  lemma SrcsetSettlesIff(v: string, join: string -> string)
    requires Srcset.Readable(v, join)
    ensures Settles(w => Srcset.Resolve(w, join), v) <==> Srcset.Steady(v, join)
  {
    Srcset.ResolveTwiceIff(v, join);
    Srcset.ResolvedEmpty(v, join);
  }
}
