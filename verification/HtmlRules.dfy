/** What the features and presets of app/scraper/html_normalizer.py remove, keep and rewrite,
    in terms of names, attributes and texts. */
module HtmlRules {
  import opened HtmlTree
  import opened HtmlWhitespace
  import opened HtmlPipeline
  import Srcset
  import Text

  // ------------------------------------------------------- hidden elements

  /** What `re.I` takes for the same letter: upper case, and the letters outside ASCII whose
      case pairs them with one of i and s. */
  function Folded(c: char): char {
    if 'A' <= c <= 'Z' then (c as int + 32) as char
    else if c == '\U{0130}' || c == '\U{0131}' then 'i'
    else if c == '\U{017F}' then 's'
    else c
  }

  /** The text begins with the word, in any case. */
  predicate Begins(s: string, word: string) {
    |word| <= |s| && forall k :: 0 <= k < |word| ==> Folded(s[k]) == word[k]
  }

  predicate LowerWord(word: string) { forall k :: 0 <= k < |word| ==> 'a' <= word[k] <= 'z' }

  lemma PrefixedIff(s: string, word: string)
    requires LowerWord(word)
    ensures Prefixed(s, word) <==> Begins(s, word)
  {
    if |word| <= |s| {
      forall k | 0 <= k < |word|
        ensures MatchesLetter(s[k], word[k]) <==> Folded(s[k]) == word[k]
      {
      }
    }
  }

  /** `property`, whitespace, a colon, whitespace, and `value` at the beginning of `s`. */
  ghost predicate Says(s: string, property: string, value: string) {
    Begins(s, property) &&
    exists m, n :: |property| <= m < n <= |s| && Between(s, |property|, m, n) && Begins(s[n..], value)
  }

  predicate Between(s: string, k: int, m: int, n: int)
    requires 0 <= k <= m < n <= |s|
  {
    Text.Blank(s[k..m]) && s[m] == ':' && Text.Blank(s[m + 1..n])
  }

  lemma {:induction false} DropIsBlank(s: string)
    ensures var d := Text.DropSpaces(s); |d| <= |s| && d == s[|s| - |d|..] && Text.Blank(s[..|s| - |d|])
  {
    if s != [] && Text.IsSpace(s[0]) {
      DropIsBlank(s[1..]);
      var n := |s| - |Text.DropSpaces(s)|;
      assert s[..n] == [s[0]] + s[1..][..n - 1];
    } else {
      assert s[..0] == [];
    }
  }

  lemma {:induction false} DropPast(a: string, b: string)
    requires Text.Blank(a) && (b == [] || !Text.IsSpace(b[0]))
    ensures Text.DropSpaces(a + b) == b
  {
    if a == [] {
      assert a + b == b;
    } else {
      assert (a + b)[1..] == a[1..] + b && (a + b)[0] == a[0];
      DropPast(a[1..], b);
    }
  }

  lemma SolidValue(value: string, s: string)
    requires LowerWord(value) && value != ""
    ensures Prefixed(s, value) ==> s != [] && !Text.IsSpace(s[0])
  {
    if Prefixed(s, value) {
      assert MatchesLetter(s[0], value[0]);
    }
  }

  /** Where the text after `k` goes on behind its leading whitespace. */
  lemma DroppedTo(s: string, k: nat) returns (m: nat)
    requires k <= |s|
    ensures k <= m <= |s| && Text.DropSpaces(s[k..]) == s[m..] && Text.Blank(s[k..m])
  {
    var t := s[k..];
    DropIsBlank(t);
    m := |s| - |Text.DropSpaces(t)|;
    assert s[k..m] == t[..m - k] && s[m..] == t[m - k..];
  }

  lemma DeclaresSays(s: string, property: string, value: string)
    requires LowerWord(property) && LowerWord(value) && value != ""
    requires Declares(s, property, value)
    ensures Says(s, property, value)
  {
    PrefixedIff(s, property);
    var m := DroppedTo(s, |property|);
    assert s[m..][1..] == s[m + 1..];
    var n := DroppedTo(s, m + 1);
    SaysFrom(s, property, value, m, n);
  }

  lemma SaysFrom(s: string, property: string, value: string, m: nat, n: nat)
    requires Begins(s, property) && |property| <= m < n <= |s| && Between(s, |property|, m, n)
    requires LowerWord(value) && Prefixed(s[n..], value)
    ensures Says(s, property, value)
  {
    PrefixedIff(s[n..], value);
  }

  lemma SaysDeclares(s: string, property: string, value: string)
    requires LowerWord(property) && LowerWord(value) && value != ""
    requires Says(s, property, value)
    ensures Declares(s, property, value)
  {
    PrefixedIff(s, property);
    var m, n :| |property| <= m < n <= |s| && Between(s, |property|, m, n) && Begins(s[n..], value);
    PrefixedIff(s[n..], value);
    BetweenDrops(s, |property|, m, n, value);
  }

  lemma BetweenDrops(s: string, k: nat, m: nat, n: nat, value: string)
    requires k <= m < n <= |s| && Between(s, k, m, n)
    requires LowerWord(value) && value != "" && Prefixed(s[n..], value)
    ensures Text.DropSpaces(s[k..]) == s[m..] && Text.DropSpaces(s[m..][1..]) == s[n..]
  {
    SolidValue(value, s[n..]);
    DropTo(s, k, m);
    assert s[m..][1..] == s[m + 1..];
    DropTo(s, m + 1, n);
  }

  lemma DropTo(s: string, k: nat, m: nat)
    requires k <= m <= |s| && Text.Blank(s[k..m]) && (m < |s| ==> !Text.IsSpace(s[m]))
    ensures Text.DropSpaces(s[k..]) == s[m..]
  {
    assert s[k..] == s[k..m] + s[m..];
    DropPast(s[k..m], s[m..]);
  }

  /** Somewhere the style says `display: none` or `visibility: hidden`. */
  ghost predicate StyleHides(s: string) {
    exists i :: 0 <= i <= |s| && (Says(s[i..], "display", "none") || Says(s[i..], "visibility", "hidden"))
  }

  lemma HereIff(s: string)
    ensures Declares(s, "display", "none") <==> Says(s, "display", "none")
    ensures Declares(s, "visibility", "hidden") <==> Says(s, "visibility", "hidden")
  {
    assert LowerWord("display") && LowerWord("visibility") && LowerWord("none") && LowerWord("hidden");
    if Declares(s, "display", "none") { DeclaresSays(s, "display", "none"); }
    if Says(s, "display", "none") { SaysDeclares(s, "display", "none"); }
    if Declares(s, "visibility", "hidden") { DeclaresSays(s, "visibility", "hidden"); }
    if Says(s, "visibility", "hidden") { SaysDeclares(s, "visibility", "hidden"); }
  }

  predicate HidesAt(s: string, i: int)
    requires 0 <= i <= |s|
  {
    Declares(s[i..], "display", "none") || Declares(s[i..], "visibility", "hidden")
  }

  lemma {:induction false} HidingStyleAt(s: string)
    ensures HidingStyle(s) <==> exists i :: 0 <= i <= |s| && HidesAt(s, i)
  {
    assert s[0..] == s;
    if s != [] {
      HidingStyleAt(s[1..]);
      forall i | 0 <= i < |s|
        ensures HidesAt(s[1..], i) <==> HidesAt(s, i + 1)
      {
        assert s[1..][i..] == s[i + 1..];
      }
      if i :| 0 < i <= |s| && HidesAt(s, i) {
        assert HidesAt(s[1..], i - 1);
      }
      assert HidesAt(s, 0) <==> Declares(s, "display", "none") || Declares(s, "visibility", "hidden");
    }
  }

  lemma HidingStyleIff(s: string)
    ensures HidingStyle(s) <==> StyleHides(s)
  {
    HidingStyleAt(s);
    forall i | 0 <= i <= |s|
      ensures HidesAt(s, i) <==> Says(s[i..], "display", "none") || Says(s[i..], "visibility", "hidden")
    {
      HereIff(s[i..]);
    }
  }

  function LowerChar(c: char): char { if 'A' <= c <= 'Z' then (c as int + 32) as char else c }

  function Lower(s: string): string { seq(|s|, k requires 0 <= k < |s| => LowerChar(s[k])) }

  lemma LowersToIff(s: string, word: string)
    requires forall k :: 0 <= k < |word| ==> 'a' <= word[k] <= 'z'
    ensures LowersTo(s, word) <==> Lower(s) == word
  {
    if LowersTo(s, word) {
      assert forall k :: 0 <= k < |s| ==> LowerChar(s[k]) == word[k];
    }
    if Lower(s) == word {
      assert |s| == |word| && forall k :: 0 <= k < |s| ==> LowerChar(s[k]) == word[k];
    }
  }

  /** The attribute has this word as its value, in any case. */
  predicate Says1(attrs: Attrs, key: string, word: string) {
    key in attrs && attrs[key].One? && Lower(attrs[key].value) == word
  }

  /** Hidden by an attribute: `hidden` whatever its value, `aria-hidden` true, a style that
      hides, or an input of type hidden. */
  ghost predicate HiddenElement(name: string, attrs: Attrs) {
    || "hidden" in attrs
    || Says1(attrs, "aria-hidden", "true")
    || ("style" in attrs && attrs["style"].One? && StyleHides(attrs["style"].value))
    || (name == "input" && Says1(attrs, "type", "hidden"))
  }

  lemma HiddenIff(name: string, attrs: Attrs)
    ensures Hidden(name, attrs) <==> HiddenElement(name, attrs)
  {
    if "aria-hidden" in attrs && attrs["aria-hidden"].One? {
      LowersToIff(attrs["aria-hidden"].value, "true");
    }
    if "style" in attrs && attrs["style"].One? {
      HidingStyleIff(attrs["style"].value);
    }
    if "type" in attrs && attrs["type"].One? {
      LowersToIff(attrs["type"].value, "hidden");
    }
  }

  // ------------------------------------------------------ what the features keep

  /** The node is none of those that the features remove. */
  ghost predicate Stays(active: set<Feature>, n: Node) {
    match n
    case Str(_, kind, _) => Comments in active ==> !kind.Comment?
    case Elem(_, name, attrs, _) =>
      && (HiddenNodes in active ==> name != "template" && !HiddenElement(name, attrs))
      && (Scripts in active ==> name != "script")
      && (Styles in active ==> name != "style")
      && (Meta in active ==> name != "meta")
      && (Noscript in active ==> name != "noscript")
      && (Media in active ==>
            name !in {"audio", "canvas", "embed", "iframe", "img", "object", "picture", "source", "svg", "video"})
  }

  predicate AttrStays(active: set<Feature>, key: string) {
    (Styles in active ==> key != "style") && (DataAttrs in active ==> !("data-" <= key))
  }

  /** The page without what the features remove, and everything below it. */
  ghost function Kept(active: set<Feature>, ns: seq<Node>): seq<Node> {
    if ns == [] then []
    else if !Stays(active, ns[0]) then Kept(active, ns[1..])
    else
      var n := match ns[0]
        case Str(_, _, _) => ns[0]
        case Elem(uid, name, attrs, kids) =>
          Elem(uid, name, map key | key in attrs && AttrStays(active, key) :: attrs[key], Kept(active, kids));
      [n] + Kept(active, ns[1..])
  }

  lemma PassOf(active: set<Feature>, media: seq<string>, p: Pass)
    requires MediaListing(media)
    ensures p in Passes(active, media) <==>
      match p
      case RemoveNamed(name) =>
        || (HiddenNodes in active && name == "template") || (Scripts in active && name == "script")
        || (Styles in active && name == "style") || (Meta in active && name == "meta")
        || (Noscript in active && name == "noscript") || (Media in active && name in MEDIA_TAGS)
      case RemoveHidden => HiddenNodes in active
      case RemoveComments => Comments in active
      case StripStyle => Styles in active
      case StripData => DataAttrs in active
  {
    MiddlePass(active, p);
    LastPass(active, media, p);
  }

  lemma MiddlePass(active: set<Feature>, p: Pass)
    ensures p in MiddlePasses(active) <==>
      || (Scripts in active && p == RemoveNamed("script"))
      || (Styles in active && (p == RemoveNamed("style") || p == StripStyle))
      || (Comments in active && p == RemoveComments)
  {
  }

  lemma LastPass(active: set<Feature>, media: seq<string>, p: Pass)
    ensures p in LastPasses(active, media) <==>
      || (Meta in active && p == RemoveNamed("meta")) || (Noscript in active && p == RemoveNamed("noscript"))
      || (Media in active && p.RemoveNamed? && p.name in media) || (DataAttrs in active && p == StripData)
  {
  }

  lemma KeepsAllIff(active: set<Feature>, media: seq<string>, n: Node)
    requires MediaListing(media)
    ensures KeepsAll(Passes(active, media), n) <==> Stays(active, n)
  {
    var ps := Passes(active, media);
    if n.Elem? {
      HiddenIff(n.name, n.attrs);
      if Stays(active, n) {
        forall p | p in ps ensures Keeps(p, n) { PassOf(active, media, p); }
      }
      if KeepsAll(ps, n) {
        PassOf(active, media, RemoveHidden);
        PassOf(active, media, RemoveNamed(n.name));
      }
    } else {
      if Stays(active, n) {
        forall p | p in ps ensures Keeps(p, n) { PassOf(active, media, p); }
      }
      PassOf(active, media, RemoveComments);
    }
  }

  lemma StripsAnyIff(active: set<Feature>, media: seq<string>, key: string)
    requires MediaListing(media)
    ensures StripsAny(Passes(active, media), key) <==> !AttrStays(active, key)
  {
    PassOf(active, media, StripStyle);
    PassOf(active, media, StripData);
  }

  lemma {:induction false} FusedKept(active: set<Feature>, media: seq<string>, ns: seq<Node>)
    requires MediaListing(media)
    ensures Fused(Passes(active, media), ns) == Kept(active, ns)
  {
    if ns != [] {
      FusedKept(active, media, ns[1..]);
      KeepsAllIff(active, media, ns[0]);
      if ns[0].Elem? {
        FusedKept(active, media, ns[0].kids);
        forall key | key in ns[0].attrs
          ensures StripsAny(Passes(active, media), key) <==> !AttrStays(active, key)
        {
          StripsAnyIff(active, media, key);
        }
        assert StripAllAttrs(Passes(active, media), ns[0].attrs)
          == map key | key in ns[0].attrs && AttrStays(active, key) :: ns[0].attrs[key];
      }
    }
  }

  /** The removal and attribute passes leave exactly what the features do not name: judged by
      each element as it was parsed, from the top down. */
  lemma PassesKeep(active: set<Feature>, media: seq<string>, ns: seq<Node>)
    requires MediaListing(media)
    ensures ApplyAll(Passes(active, media), ns) == Kept(active, ns)
  {
    PassesHiddenFirst(active, media);
    PassesFuse(Passes(active, media), ns);
    FusedKept(active, media, ns);
  }

  /** Nothing that the features name is anywhere in the tree. */
  ghost predicate Rid(active: set<Feature>, ns: seq<Node>) {
    ns == [] ||
    (Stays(active, ns[0]) && Rid(active, ns[1..]) &&
     (ns[0].Elem? ==> (forall key :: key in ns[0].attrs ==> AttrStays(active, key)) && Rid(active, ns[0].kids)))
  }

  lemma {:induction false} CleanRid(active: set<Feature>, media: seq<string>, ns: seq<Node>)
    requires MediaListing(media) && Clean(Passes(active, media), ns)
    ensures Rid(active, ns)
  {
    if ns != [] {
      CleanRid(active, media, ns[1..]);
      KeepsAllIff(active, media, ns[0]);
      if ns[0].Elem? {
        CleanRid(active, media, ns[0].kids);
        forall key | key in ns[0].attrs
          ensures AttrStays(active, key)
        {
          StripsAnyIff(active, media, key);
        }
      }
    }
  }

  /** In the normalized page no element, attribute or comment is left that the active
      features remove; with `remove_hidden`, no hidden element. */
  lemma NothingLeft(active: set<Feature>, media: seq<string>, join: string -> string, ns: seq<Node>)
    requires MediaListing(media)
    ensures Rid(active, Normalize(active, media, join, ns))
  {
    NormalizedClean(active, media, join, ns);
    CleanRid(active, media, Normalize(active, media, join, ns));
  }

  // ---------------------------------------------------------------- presets

  /** What each preset keeps, and that all three tidy the whitespace and leave URLs alone; any
      other name stands for no features. */
  lemma PresetsKeep(name: string, n: Node, key: string)
    ensures name == "light" ==>
      (Stays(Preset(name), n) <==> if n.Elem? then n.name != "noscript" else !n.kind.Comment?)
      && AttrStays(Preset(name), key)
    ensures name == "content" ==>
      (Stays(Preset(name), n) <==>
         if n.Elem? then n.name !in {"script", "style", "meta", "noscript", "template"} && !HiddenElement(n.name, n.attrs)
         else !n.kind.Comment?)
      && (AttrStays(Preset(name), key) <==> key != "style" && !("data-" <= key))
    ensures name == "aggressive" ==>
      (Stays(Preset(name), n) <==>
         if n.Elem?
         then n.name !in {"script", "style", "meta", "noscript", "template",
                          "audio", "canvas", "embed", "iframe", "img", "object", "picture", "source", "svg", "video"}
              && !HiddenElement(n.name, n.attrs)
         else !n.kind.Comment?)
      && (AttrStays(Preset(name), key) <==> key != "style" && !("data-" <= key))
    ensures if name in {"light", "content", "aggressive"}
      then CollapseSpace in Preset(name) && MinifySpace in Preset(name) && AbsoluteUrls !in Preset(name)
      else Preset(name) == {}
  {
  }

  // ------------------------------------------------------- URLs and texts

  /** With `absolute_urls` the addresses of links, images, forms and posters and the lists of
      `srcset` are resolved, where they are not empty, and no other attribute changes. */
  lemma AttributesResolved(attrs: Attrs, join: string -> string, key: string)
    requires key in attrs
    ensures var after := AbsoluteAttrs(attrs, join);
      && after.Keys == attrs.Keys
      && after[key] == if attrs[key].One? && attrs[key].value != "" && key in {"href", "src", "action", "poster"}
                       then One(join(attrs[key].value))
                       else if attrs[key].One? && attrs[key].value != "" && key == "srcset"
                       then One(Srcset.Resolve(attrs[key].value, join))
                       else attrs[key]
  {
  }

  /** A comment, and a text directly below `pre`, `code`, `textarea`, `script` or `style`,
      stays as it is under both whitespace passes; below any other element a text that is not
      tidy does not. */
  lemma TextsTouched(parent: string, uid: nat, kind: StrKind, text: string)
    ensures var n := Str(uid, kind, text);
      if kind.Comment? || parent in {"pre", "code", "textarea", "script", "style"}
      then Collapse(parent, [n]) == [n] && Minify(parent, [n]) == [n]
      else (Collapse(parent, [n]) == [n] <==> Text.Single(text))
           && (Minify(parent, [n]) == [n] <==> text != [] && Text.Trimmed(text))
  {
    var n := Str(uid, kind, text);
    assert [n][1..] == [] && Collapse(parent, []) == [] && Minify(parent, []) == [];
    Text.CollapseFixed(text);
    Text.StripTrims(text);
  }
}
