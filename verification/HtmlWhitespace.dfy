/** The whitespace passes of app/scraper/html_normalizer.py and what the two together
    keep, lose and leave alone. */
module HtmlWhitespace {
  import opened HtmlTree
  import Text

  predicate Preserves(name: string) { name in {"pre", "code", "textarea", "script", "style"} }

  /** A text a whitespace pass leaves alone: a comment, or directly below such a tag. */
  predicate Untouched(parent: string, n: Node)
    requires n.Str?
  {
    n.kind.Comment? || Preserves(parent)
  }

  /** `_collapse_node` over the children of `parent`: a changed string is replaced by a
      plain one. */
  function Collapse(parent: string, ns: seq<Node>): seq<Node>
    decreases ns
  {
    if ns == [] then []
    else
      var n := match ns[0]
        case Elem(uid, name, attrs, kids) => Elem(uid, name, attrs, Collapse(name, kids))
        case Str(uid, kind, text) =>
          if Untouched(parent, ns[0]) || Text.Collapse(text) == text then ns[0]
          else Str(uid, Plain, Text.Collapse(text));
      [n] + Collapse(parent, ns[1..])
  }

  /** `_minify_node` over the children of `parent`: blank strings go, others are trimmed. */
  function Minify(parent: string, ns: seq<Node>): seq<Node>
    decreases ns
  {
    if ns == [] then []
    else
      var rest := Minify(parent, ns[1..]);
      match ns[0]
      case Elem(uid, name, attrs, kids) => [Elem(uid, name, attrs, Minify(name, kids))] + rest
      case Str(uid, kind, text) =>
        if Untouched(parent, ns[0]) then [ns[0]] + rest
        else if Text.Strip(text) == [] then rest
        else if Text.Strip(text) == text then [ns[0]] + rest
        else [Str(uid, Plain, Text.Strip(text))] + rest
  }

  const ROOT := "[document]"

  function Whitespace(collapse: bool, minify: bool, ns: seq<Node>): seq<Node> {
    var c := if collapse then Collapse(ROOT, ns) else ns;
    if minify then Minify(ROOT, c) else c
  }

  // ----------------------------------------------------------- normal form

  predicate TidyText(collapse: bool, minify: bool, text: string) {
    (collapse ==> Text.Single(text)) && (minify ==> text != [] && Text.Trimmed(text))
  }

  /** Every text outside the preserving tags is tidy. */
  predicate Tidy(collapse: bool, minify: bool, parent: string, ns: seq<Node>)
    decreases ns
  {
    ns == [] ||
    (Tidy(collapse, minify, parent, ns[1..]) &&
     match ns[0]
     case Elem(_, name, _, kids) => Tidy(collapse, minify, name, kids)
     case Str(_, _, text) => Untouched(parent, ns[0]) || TidyText(collapse, minify, text))
  }

  lemma {:induction false} CollapseTidy(parent: string, ns: seq<Node>)
    ensures Tidy(true, false, parent, Collapse(parent, ns))
    decreases ns
  {
    if ns != [] {
      CollapseTidy(parent, ns[1..]);
      var r := Collapse(parent, ns);
      assert r[1..] == Collapse(parent, ns[1..]);
      match ns[0]
      case Elem(_, name, _, kids) => CollapseTidy(name, kids);
      case Str(_, _, text) =>
        Text.CollapseShape(text);
        Text.CollapseFixed(text);
    }
  }

  lemma {:induction false} MinifyTidy(collapse: bool, parent: string, ns: seq<Node>)
    requires Tidy(collapse, false, parent, ns)
    ensures Tidy(collapse, true, parent, Minify(parent, ns))
    decreases ns
  {
    if ns != [] {
      MinifyTidy(collapse, parent, ns[1..]);
      var rest := Minify(parent, ns[1..]);
      match ns[0]
      case Elem(uid, name, attrs, kids) =>
        MinifyTidy(collapse, name, kids);
        assert ([Elem(uid, name, attrs, Minify(name, kids))] + rest)[1..] == rest;
      case Str(uid, _, text) =>
        Text.StripTrims(text);
        if Text.Single(text) {
          Text.StripSingle(text);
        }
        assert ([ns[0]] + rest)[1..] == rest;
        assert ([Str(uid, Plain, Text.Strip(text))] + rest)[1..] == rest;
    }
  }

  lemma {:induction false} CollapseId(minify: bool, parent: string, ns: seq<Node>)
    requires Tidy(true, minify, parent, ns)
    ensures Collapse(parent, ns) == ns
    decreases ns
  {
    if ns != [] {
      CollapseId(minify, parent, ns[1..]);
      match ns[0]
      case Elem(_, name, _, kids) => CollapseId(minify, name, kids);
      case Str(_, _, text) => Text.CollapseFixed(text);
    }
  }

  lemma {:induction false} MinifyId(collapse: bool, parent: string, ns: seq<Node>)
    requires Tidy(collapse, true, parent, ns)
    ensures Minify(parent, ns) == ns
    decreases ns
  {
    if ns != [] {
      MinifyId(collapse, parent, ns[1..]);
      match ns[0]
      case Elem(_, name, _, kids) => MinifyId(collapse, name, kids);
      case Str(_, _, text) => Text.StripTrims(text);
    }
  }

  lemma {:induction false} AllTidy(parent: string, ns: seq<Node>)
    ensures Tidy(false, false, parent, ns)
    decreases ns
  {
    if ns != [] {
      AllTidy(parent, ns[1..]);
      if ns[0].Elem? {
        AllTidy(ns[0].name, ns[0].kids);
      }
    }
  }

  /** The result of the enabled passes is tidy: with `minify`, no blank text is left
      outside the preserving tags. */
  lemma WhitespaceTidy(collapse: bool, minify: bool, ns: seq<Node>)
    ensures Tidy(collapse, minify, ROOT, Whitespace(collapse, minify, ns))
  {
    var c := if collapse then Collapse(ROOT, ns) else ns;
    if collapse {
      CollapseTidy(ROOT, ns);
    } else {
      AllTidy(ROOT, ns);
    }
    if minify {
      MinifyTidy(collapse, ROOT, c);
    }
  }

  /** A document is left unchanged exactly when it is tidy. */
  lemma WhitespaceFixed(collapse: bool, minify: bool, ns: seq<Node>)
    ensures Whitespace(collapse, minify, ns) == ns <==> Tidy(collapse, minify, ROOT, ns)
  {
    WhitespaceTidy(collapse, minify, ns);
    if Tidy(collapse, minify, ROOT, ns) {
      if collapse {
        CollapseId(minify, ROOT, ns);
      }
      if minify {
        MinifyId(collapse, ROOT, ns);
      }
    }
  }

  /** Running the passes again changes nothing. */
  lemma WhitespaceIdempotent(collapse: bool, minify: bool, ns: seq<Node>)
    ensures var r := Whitespace(collapse, minify, ns); Whitespace(collapse, minify, r) == r
  {
    WhitespaceTidy(collapse, minify, ns);
    WhitespaceFixed(collapse, minify, Whitespace(collapse, minify, ns));
  }

  // ---------------------------------------------------------- preservation

  /** The visible characters of all strings, in document order. */
  function Content(ns: seq<Node>): string {
    if ns == [] then []
    else
      (match ns[0]
       case Elem(_, _, _, kids) => Content(kids)
       case Str(_, _, text) => Text.Visible(text))
      + Content(ns[1..])
  }

  /** What must not change at all: elements with their attributes, comments and the
      direct texts of preserving tags, in document order. */
  function Frame(parent: string, ns: seq<Node>): seq<Node>
    decreases ns
  {
    if ns == [] then []
    else
      match ns[0]
      case Elem(uid, name, attrs, kids) => [Elem(uid, name, attrs, Frame(name, kids))] + Frame(parent, ns[1..])
      case Str(_, _, _) => (if Untouched(parent, ns[0]) then [ns[0]] else []) + Frame(parent, ns[1..])
  }

  lemma {:induction false} CollapseKeeps(parent: string, ns: seq<Node>)
    ensures Content(Collapse(parent, ns)) == Content(ns)
    ensures Frame(parent, Collapse(parent, ns)) == Frame(parent, ns)
    decreases ns
  {
    if ns != [] {
      CollapseKeeps(parent, ns[1..]);
      var r := Collapse(parent, ns);
      assert r[1..] == Collapse(parent, ns[1..]);
      match ns[0]
      case Elem(_, name, _, kids) => CollapseKeeps(name, kids);
      case Str(_, _, text) => Text.CollapseVisible(text);
    }
  }

  lemma {:induction false} MinifyKeeps(parent: string, ns: seq<Node>)
    ensures Content(Minify(parent, ns)) == Content(ns)
    ensures Frame(parent, Minify(parent, ns)) == Frame(parent, ns)
    decreases ns
  {
    if ns != [] {
      MinifyKeeps(parent, ns[1..]);
      var rest := Minify(parent, ns[1..]);
      var r := Minify(parent, ns);
      assert |r| > |rest| ==> r[1..] == rest;
      match ns[0]
      case Elem(_, name, _, kids) =>
        MinifyKeeps(name, kids);
      case Str(_, _, text) =>
        Text.StripVisible(text);
        if Text.Strip(text) == [] {
          assert Text.Visible(text) == [];
        }
    }
  }

  /** No visible character is lost, added or moved; elements, attributes, comments and
      the direct texts of preserving tags stay as they are. */
  lemma WhitespacePreserves(collapse: bool, minify: bool, ns: seq<Node>)
    ensures Content(Whitespace(collapse, minify, ns)) == Content(ns)
    ensures Frame(ROOT, Whitespace(collapse, minify, ns)) == Frame(ROOT, ns)
  {
    CollapseKeeps(ROOT, ns);
    MinifyKeeps(ROOT, if collapse then Collapse(ROOT, ns) else ns);
  }

  // -------------------------------------------------------- string classes

  /** The special strings that are tidy, in document order. */
  function Specials(collapse: bool, minify: bool, parent: string, ns: seq<Node>): seq<Node>
    decreases ns
  {
    if ns == [] then []
    else
      (match ns[0]
       case Elem(_, name, _, kids) => Specials(collapse, minify, name, kids)
       case Str(_, kind, text) =>
         if kind.Special? && (Untouched(parent, ns[0]) || TidyText(collapse, minify, text)) then [ns[0]] else [])
      + Specials(collapse, minify, parent, ns[1..])
  }

  lemma {:induction false} CollapseSpecials(minify: bool, parent: string, ns: seq<Node>)
    ensures Specials(false, minify, parent, Collapse(parent, ns)) == Specials(true, minify, parent, ns)
    decreases ns
  {
    if ns != [] {
      CollapseSpecials(minify, parent, ns[1..]);
      var r := Collapse(parent, ns);
      assert r[1..] == Collapse(parent, ns[1..]);
      match ns[0]
      case Elem(_, name, _, kids) => CollapseSpecials(minify, name, kids);
      case Str(_, _, text) =>
        Text.CollapseFixed(text);
    }
  }

  lemma {:induction false} MinifySpecials(parent: string, ns: seq<Node>)
    ensures Specials(false, false, parent, Minify(parent, ns)) == Specials(false, true, parent, ns)
    decreases ns
  {
    if ns != [] {
      MinifySpecials(parent, ns[1..]);
      var rest := Minify(parent, ns[1..]);
      var r := Minify(parent, ns);
      assert |r| > |rest| ==> r[1..] == rest;
      match ns[0]
      case Elem(_, name, _, kids) => MinifySpecials(name, kids);
      case Str(_, _, text) => Text.StripTrims(text);
    }
  }

  /** A doctype, declaration or CDATA section stays one exactly when its text is tidy
      already: a changed one is put back as ordinary text. */
  lemma SpecialsThatSurvive(collapse: bool, minify: bool, ns: seq<Node>)
    ensures Specials(false, false, ROOT, Whitespace(collapse, minify, ns)) == Specials(collapse, minify, ROOT, ns)
  {
    if collapse {
      CollapseSpecials(false, ROOT, ns);
      CollapseSpecials(true, ROOT, ns);
    }
    MinifySpecials(ROOT, if collapse then Collapse(ROOT, ns) else ns);
  }

  /** A text after the enabled passes. */
  function PassedText(collapse: bool, minify: bool, text: string): string {
    var c := if collapse then Text.Collapse(text) else text;
    if minify then Text.Strip(c) else c
  }

  lemma TidyIsPassed(collapse: bool, minify: bool, text: string)
    ensures TidyText(collapse, minify, text)
       <==> PassedText(collapse, minify, text) == text && (minify ==> text != [])
    ensures Text.Visible(PassedText(collapse, minify, text)) == Text.Visible(text)
  {
    var c := if collapse then Text.Collapse(text) else text;
    Text.CollapseShape(text);
    Text.CollapseFixed(text);
    Text.CollapseVisible(text);
    Text.StripTrims(c);
    Text.StripVisible(c);
    if collapse {
      Text.StripSingle(c);
    }
  }

  /** A special string that is not tidy is put back as ordinary text of the page with the
      same visible characters, or dropped when it has none: a doctype over two lines becomes
      visible. */
  lemma SpecialBecomesText(collapse: bool, minify: bool, uid: nat, text: string)
    ensures var t := PassedText(collapse, minify, text);
      Text.Visible(t) == Text.Visible(text)
      && Whitespace(collapse, minify, [Str(uid, Special, text)])
         == if minify && t == [] then []
            else [Str(uid, if TidyText(collapse, minify, text) then Special else Plain, t)]
  {
    TidyIsPassed(collapse, minify, text);
    var c := if collapse then Text.Collapse(text) else text;
    var n := Str(uid, if c == text then Special else Plain, c);
    OneCollapsed(uid, text);
    assert Whitespace(collapse, minify, [Str(uid, Special, text)]) == if minify then Minify(ROOT, [n]) else [n];
    OneMinified(n);
    Text.CollapseFixed(text);
    Text.StripTrims(c);
  }

  lemma OneCollapsed(uid: nat, text: string)
    ensures Collapse(ROOT, [Str(uid, Special, text)])
         == [Str(uid, if Text.Collapse(text) == text then Special else Plain, Text.Collapse(text))]
  {
    assert [Str(uid, Special, text)][1..] == [];
  }

  lemma OneMinified(n: Node)
    requires n.Str? && !n.kind.Comment?
    ensures var t := Text.Strip(n.text);
      Minify(ROOT, [n]) == if t == [] then [] else [if t == n.text then n else Str(n.uid, Plain, t)]
  {
    assert [n][1..] == [] && Minify(ROOT, []) == [];
  }
}
