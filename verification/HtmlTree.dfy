/** Parsed HTML (app/scraper/html_normalizer.py) and its removal and attribute passes.
    A document is the forest of its top-level nodes; `uid` is the identity of a node. */
module HtmlTree {
  import opened Sequences
  import Text

  /** `Special` stands for the other string classes of the parser: doctype, declaration,
      processing instruction, CDATA, and the strings of script and style. */
  datatype StrKind = Plain | Comment | Special

  datatype AttrValue = One(value: string) | Many(values: seq<string>)

  type Attrs = map<string, AttrValue>

  datatype Node =
    | Elem(uid: nat, name: string, attrs: Attrs, kids: seq<Node>)
    | Str(uid: nat, kind: StrKind, text: string)

  // ------------------------------------------------------- hidden elements

  /** `c` matches the lower-case pattern letter `p` under `re.I`. */
  predicate MatchesLetter(c: char, p: char) {
    || c == p
    || ('a' <= p <= 'z' && c as int == p as int - 32)
    || (p == 'i' && (c == '\U{0130}' || c == '\U{0131}'))
    || (p == 's' && c == '\U{017F}')
  }

  predicate Prefixed(s: string, word: string) {
    |word| <= |s| && forall k :: 0 <= k < |word| ==> MatchesLetter(s[k], word[k])
  }

  predicate Declares(s: string, property: string, value: string) {
    Prefixed(s, property) &&
    var t := Text.DropSpaces(s[|property|..]);
    t != [] && t[0] == ':' && Prefixed(Text.DropSpaces(t[1..]), value)
  }

  /** The search for `display: none` or `visibility: hidden` in a style attribute. */
  predicate HidingStyle(s: string) {
    || Declares(s, "display", "none")
    || Declares(s, "visibility", "hidden")
    || (s != [] && HidingStyle(s[1..]))
  }

  /** `value.lower() == word` for an ASCII lower-case word. */
  predicate LowersTo(s: string, word: string) {
    |s| == |word| && forall k :: 0 <= k < |s| ==> s[k] == word[k] || s[k] as int == word[k] as int - 32
  }

  predicate Hidden(name: string, attrs: Attrs) {
    || "hidden" in attrs
    || ("aria-hidden" in attrs && attrs["aria-hidden"].One? && LowersTo(attrs["aria-hidden"].value, "true"))
    || ("style" in attrs && attrs["style"].One? && HidingStyle(attrs["style"].value))
    || (name == "input" && "type" in attrs && attrs["type"].One? && LowersTo(attrs["type"].value, "hidden"))
  }

  // ----------------------------------------------------------------- passes

  datatype Pass = RemoveNamed(name: string) | RemoveHidden | RemoveComments | StripStyle | StripData

  predicate Keeps(p: Pass, n: Node) {
    match p
    case RemoveNamed(name) => n.Elem? ==> n.name != name
    case RemoveHidden => n.Elem? ==> !Hidden(n.name, n.attrs)
    case RemoveComments => n.Str? ==> !n.kind.Comment?
    case StripStyle => true
    case StripData => true
  }

  predicate DataAttr(key: string) { "data-" <= key }

  predicate Strips(p: Pass, key: string) {
    (p == StripStyle && key == "style") || (p == StripData && DataAttr(key))
  }

  function StripAttrs(p: Pass, attrs: Attrs): Attrs {
    map key | key in attrs && !Strips(p, key) :: attrs[key]
  }

  /** One pass over the whole tree, top down: a node that goes takes its subtree along. */
  function Apply(p: Pass, ns: seq<Node>): seq<Node> {
    if ns == [] then []
    else if !Keeps(p, ns[0]) then Apply(p, ns[1..])
    else
      var n := match ns[0]
        case Str(_, _, _) => ns[0]
        case Elem(uid, name, attrs, kids) => Elem(uid, name, StripAttrs(p, attrs), Apply(p, kids));
      [n] + Apply(p, ns[1..])
  }

  /** The passes one after the other. */
  function ApplyAll(ps: seq<Pass>, ns: seq<Node>): seq<Node> {
    if ps == [] then ns else ApplyAll(ps[1..], Apply(ps[0], ns))
  }

  predicate KeepsAll(ps: seq<Pass>, n: Node) {
    forall p :: p in ps ==> Keeps(p, n)
  }

  predicate StripsAny(ps: seq<Pass>, key: string) {
    exists p :: p in ps && Strips(p, key)
  }

  function StripAllAttrs(ps: seq<Pass>, attrs: Attrs): Attrs {
    map key | key in attrs && !StripsAny(ps, key) :: attrs[key]
  }

  /** All passes at once: one filter by the conjunction of the keep tests on the
      original attributes, and one attribute strip. */
  function Fused(ps: seq<Pass>, ns: seq<Node>): seq<Node> {
    if ns == [] then []
    else if !KeepsAll(ps, ns[0]) then Fused(ps, ns[1..])
    else
      var n := match ns[0]
        case Str(_, _, _) => ns[0]
        case Elem(uid, name, attrs, kids) => Elem(uid, name, StripAllAttrs(ps, attrs), Fused(ps, kids));
      [n] + Fused(ps, ns[1..])
  }

  /** Hidden elements are looked for before style attributes go. */
  predicate HiddenFirst(ps: seq<Pass>) {
    forall i, j :: 0 <= i < j < |ps| && ps[i] == StripStyle ==> ps[j] != RemoveHidden
  }

  // ----------------------------------------------------------------- fusion

  lemma HiddenIgnoresData(name: string, attrs: Attrs)
    ensures Hidden(name, StripAttrs(StripData, attrs)) == Hidden(name, attrs)
  {
    forall key | DataAttr(key)
      ensures key != "hidden" && key != "aria-hidden" && key != "style" && key != "type"
    {
      assert key[0] == "data-"[0];
    }
  }

  lemma StripNothing(p: Pass, attrs: Attrs)
    requires p != StripStyle && p != StripData
    ensures StripAttrs(p, attrs) == attrs
  {
  }

  /** A pass other than the style strip does not change what later passes keep. */
  lemma KeepsAfterStrip(p: Pass, q: Pass, n: Node, n': Node)
    requires n.Elem? && n'.Elem? && n'.name == n.name && n'.attrs == StripAttrs(p, n.attrs)
    requires p == StripStyle ==> q != RemoveHidden
    ensures Keeps(q, n') == Keeps(q, n)
  {
    if q == RemoveHidden {
      if p == StripData {
        HiddenIgnoresData(n.name, n.attrs);
      } else {
        StripNothing(p, n.attrs);
      }
    }
  }

  lemma StripThenStripAll(p: Pass, ps: seq<Pass>, attrs: Attrs)
    ensures StripAllAttrs(ps, StripAttrs(p, attrs)) == StripAllAttrs([p] + ps, attrs)
  {
    forall key | key in attrs
      ensures StripsAny([p] + ps, key) <==> Strips(p, key) || StripsAny(ps, key)
    {
      assert p in [p] + ps;
      assert forall q :: q in ps ==> q in [p] + ps;
    }
  }

  lemma KeepsAllCons(p: Pass, ps: seq<Pass>, n: Node)
    ensures KeepsAll([p] + ps, n) <==> Keeps(p, n) && KeepsAll(ps, n)
  {
    assert forall q :: q in [p] + ps <==> q == p || q in ps;
  }

  lemma {:induction false} FuseOne(p: Pass, ps: seq<Pass>, ns: seq<Node>)
    requires p == StripStyle ==> RemoveHidden !in ps
    ensures Fused(ps, Apply(p, ns)) == Fused([p] + ps, ns)
  {
    if ns != [] {
      FuseOne(p, ps, ns[1..]);
      KeepsAllCons(p, ps, ns[0]);
      if Keeps(p, ns[0]) {
        var rest := Apply(p, ns[1..]);
        match ns[0]
        case Str(_, _, _) =>
          assert ([ns[0]] + rest)[1..] == rest;
        case Elem(uid, name, attrs, kids) =>
          FuseOne(p, ps, kids);
          var n := Elem(uid, name, StripAttrs(p, attrs), Apply(p, kids));
          assert ([n] + rest)[1..] == rest;
          forall q | q in ps
            ensures Keeps(q, n) == Keeps(q, ns[0])
          {
            KeepsAfterStrip(p, q, ns[0], n);
          }
          StripThenStripAll(p, ps, attrs);
      }
    }
  }

  lemma {:induction false} FusedNone(ns: seq<Node>)
    ensures Fused([], ns) == ns
  {
    if ns != [] {
      FusedNone(ns[1..]);
      if ns[0].Elem? {
        FusedNone(ns[0].kids);
        assert StripAllAttrs([], ns[0].attrs) == ns[0].attrs;
      }
    }
  }

  /** Any run of the passes that looks for hidden elements first equals one filter by all
      their tests and one attribute strip. */
  lemma {:induction false} PassesFuse(ps: seq<Pass>, ns: seq<Node>)
    requires HiddenFirst(ps)
    ensures ApplyAll(ps, ns) == Fused(ps, ns)
    decreases |ps|
  {
    if ps == [] {
      FusedNone(ns);
    } else {
      PassesFuse(ps[1..], Apply(ps[0], ns));
      FuseOne(ps[0], ps[1..], ns);
      assert ps == [ps[0]] + ps[1..];
    }
  }

  lemma {:induction false} FusedSameSet(ps: seq<Pass>, qs: seq<Pass>, ns: seq<Node>)
    requires forall p :: p in ps <==> p in qs
    ensures Fused(ps, ns) == Fused(qs, ns)
  {
    if ns != [] {
      FusedSameSet(ps, qs, ns[1..]);
      assert KeepsAll(ps, ns[0]) == KeepsAll(qs, ns[0]);
      if ns[0].Elem? {
        FusedSameSet(ps, qs, ns[0].kids);
        assert forall key :: key in ns[0].attrs ==> StripsAny(ps, key) == StripsAny(qs, key);
        assert StripAllAttrs(ps, ns[0].attrs) == StripAllAttrs(qs, ns[0].attrs);
      }
    }
  }

  /** The order of the passes, and repeating one, does not matter. */
  lemma PassOrderIrrelevant(ps: seq<Pass>, qs: seq<Pass>, ns: seq<Node>)
    requires HiddenFirst(ps) && HiddenFirst(qs)
    requires forall p :: p in ps <==> p in qs
    ensures ApplyAll(ps, ns) == ApplyAll(qs, ns)
  {
    PassesFuse(ps, ns);
    PassesFuse(qs, ns);
    FusedSameSet(ps, qs, ns);
  }

  // ------------------------------------------- when the late search misses

  /** Outside hidden subtrees, no element is hidden by its style attribute alone. */
  predicate NoStyleHidden(ns: seq<Node>) {
    ns == [] ||
    (NoStyleHidden(ns[1..]) &&
     match ns[0]
     case Str(_, _, _) => true
     case Elem(_, name, attrs, kids) =>
       if Hidden(name, attrs) then Hidden(name, StripAttrs(StripStyle, attrs)) else NoStyleHidden(kids))
  }

  function Late(ns: seq<Node>): seq<Node> { Apply(RemoveHidden, Apply(StripStyle, ns)) }

  function Early(ns: seq<Node>): seq<Node> { Apply(StripStyle, Apply(RemoveHidden, ns)) }

  lemma ApplyHead(p: Pass, n: Node, rest: seq<Node>)
    ensures Apply(p, [n] + rest)
         == if !Keeps(p, n) then Apply(p, rest)
            else [if n.Str? then n else Elem(n.uid, n.name, StripAttrs(p, n.attrs), Apply(p, n.kids))] + Apply(p, rest)
  {
    assert ([n] + rest)[1..] == rest;
  }

  lemma LateHead(ns: seq<Node>)
    requires ns != []
    ensures var n := ns[0];
      Late(ns) ==
      if n.Str? then [n] + Late(ns[1..])
      else if Hidden(n.name, StripAttrs(StripStyle, n.attrs)) then Late(ns[1..])
      else [Elem(n.uid, n.name, StripAttrs(StripStyle, n.attrs), Late(n.kids))] + Late(ns[1..])
  {
    var n := ns[0];
    assert ns == [n] + ns[1..];
    ApplyHead(StripStyle, n, ns[1..]);
    var m := if n.Str? then n else Elem(n.uid, n.name, StripAttrs(StripStyle, n.attrs), Apply(StripStyle, n.kids));
    ApplyHead(RemoveHidden, m, Apply(StripStyle, ns[1..]));
    if m.Elem? {
      StripNothing(RemoveHidden, m.attrs);
    }
  }

  lemma EarlyHead(ns: seq<Node>)
    requires ns != []
    ensures var n := ns[0];
      Early(ns) ==
      if n.Str? then [n] + Early(ns[1..])
      else if Hidden(n.name, n.attrs) then Early(ns[1..])
      else [Elem(n.uid, n.name, StripAttrs(StripStyle, n.attrs), Early(n.kids))] + Early(ns[1..])
  {
    var n := ns[0];
    assert ns == [n] + ns[1..];
    ApplyHead(RemoveHidden, n, ns[1..]);
    if Keeps(RemoveHidden, n) {
      var m := if n.Str? then n else Elem(n.uid, n.name, StripAttrs(RemoveHidden, n.attrs), Apply(RemoveHidden, n.kids));
      ApplyHead(StripStyle, m, Apply(RemoveHidden, ns[1..]));
      if m.Elem? {
        StripNothing(RemoveHidden, n.attrs);
      }
    }
  }

  /** The one order that matters: stripping style attributes before the search for hidden
      elements gives the same document exactly when no element outside the hidden
      subtrees is hidden by its style attribute alone. */
  lemma {:induction false} StyleBeforeHidden(ns: seq<Node>)
    ensures |Late(ns)| >= |Early(ns)|
    ensures Late(ns) == Early(ns) <==> NoStyleHidden(ns)
  {
    if ns != [] {
      var n := ns[0];
      LateHead(ns);
      EarlyHead(ns);
      StyleBeforeHidden(ns[1..]);
      if n.Elem? {
        StyleBeforeHidden(n.kids);
      }
      var a, b := Late(ns), Early(ns);
      if a != [] && b != [] && |a| == |b| {
        assert a == [a[0]] + a[1..] && b == [b[0]] + b[1..];
      }
    }
  }
}
