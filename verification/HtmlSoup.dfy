/** The soup that `normalize_html` edits in place: each pass lists the nodes to touch
    first and then detaches or edits them one at a time, including nodes that went with
    an ancestor.  Each loop is proved to be the tree pass of `HtmlTree`. */
module HtmlSoup {
  import opened Sequences
  import opened HtmlTree
  import opened HtmlWhitespace
  import opened HtmlPipeline

  // ---------------------------------------------------------- tree surgery

  function Uids(ns: seq<Node>): seq<nat> {
    if ns == [] then []
    else [ns[0].uid] + (if ns[0].Elem? then Uids(ns[0].kids) else []) + Uids(ns[1..])
  }

  datatype Selector = ByName(name: string) | AnyTag | CommentStrings

  predicate Selects(sel: Selector, n: Node) {
    match sel
    case ByName(name) => n.Elem? && n.name == name
    case AnyTag => n.Elem?
    case CommentStrings => n.Str? && n.kind.Comment?
  }

  /** `soup.find_all(...)`: the selected nodes in document order. */
  function FindAll(sel: Selector, ns: seq<Node>): seq<Node> {
    if ns == [] then []
    else
      (if Selects(sel, ns[0]) then [ns[0]] else [])
      + (if ns[0].Elem? then FindAll(sel, ns[0].kids) else [])
      + FindAll(sel, ns[1..])
  }

  /** Detaches the node `u` with its subtree; no effect when it is not attached. */
  function Detach(ns: seq<Node>, u: nat): seq<Node> {
    if ns == [] then []
    else if ns[0].uid == u then Detach(ns[1..], u)
    else [if ns[0].Str? then ns[0] else ns[0].(kids := Detach(ns[0].kids, u))] + Detach(ns[1..], u)
  }

  function DetachAll(ns: seq<Node>, us: set<nat>): seq<Node> {
    if ns == [] then []
    else if ns[0].uid in us then DetachAll(ns[1..], us)
    else [if ns[0].Str? then ns[0] else ns[0].(kids := DetachAll(ns[0].kids, us))] + DetachAll(ns[1..], us)
  }

  /** Rewrites the attributes of the element `u`. */
  function Edit(ns: seq<Node>, u: nat, f: Attrs -> Attrs): seq<Node> {
    if ns == [] then []
    else
      [if ns[0].Str? then ns[0]
       else ns[0].(attrs := if ns[0].uid == u then f(ns[0].attrs) else ns[0].attrs, kids := Edit(ns[0].kids, u, f))]
      + Edit(ns[1..], u, f)
  }

  function EditAll(ns: seq<Node>, us: set<nat>, f: Attrs -> Attrs): seq<Node> {
    if ns == [] then []
    else
      [if ns[0].Str? then ns[0]
       else ns[0].(attrs := if ns[0].uid in us then f(ns[0].attrs) else ns[0].attrs, kids := EditAll(ns[0].kids, us, f))]
      + EditAll(ns[1..], us, f)
  }

  function UidSet(found: seq<Node>): set<nat> { set n | n in found :: n.uid }

  // ------------------------------------------------------- one node at a time

  lemma {:induction false} DetachStep(ns: seq<Node>, us: set<nat>, u: nat)
    ensures Detach(DetachAll(ns, us), u) == DetachAll(ns, us + {u})
  {
    if ns != [] {
      DetachStep(ns[1..], us, u);
      if ns[0].uid !in us {
        var r := DetachAll(ns, us);
        assert r[1..] == DetachAll(ns[1..], us);
        if ns[0].Elem? {
          DetachStep(ns[0].kids, us, u);
        }
      }
    }
  }

  lemma {:induction false} DetachNone(ns: seq<Node>)
    ensures DetachAll(ns, {}) == ns
  {
    if ns != [] {
      DetachNone(ns[1..]);
      if ns[0].Elem? {
        DetachNone(ns[0].kids);
      }
    }
  }

  /** Detaching a node that is not in the tree changes nothing. */
  lemma {:induction false} DetachAbsent(ns: seq<Node>, u: nat)
    requires u !in Uids(ns)
    ensures Detach(ns, u) == ns
  {
    if ns != [] {
      DetachAbsent(ns[1..], u);
      assert ns[0].uid in Uids(ns);
      if ns[0].Elem? {
        assert forall x :: x in Uids(ns[0].kids) ==> x in Uids(ns);
        DetachAbsent(ns[0].kids, u);
        assert ns[0].(kids := ns[0].kids) == ns[0];
      }
      assert Detach(ns, u) == [ns[0]] + Detach(ns[1..], u);
      assert [ns[0]] + ns[1..] == ns;
    }
  }

  lemma {:induction false} EditStep(ns: seq<Node>, us: set<nat>, u: nat, f: Attrs -> Attrs)
    requires u !in us
    ensures Edit(EditAll(ns, us, f), u, f) == EditAll(ns, us + {u}, f)
  {
    if ns != [] {
      EditStep(ns[1..], us, u, f);
      var r := EditAll(ns, us, f);
      assert r[1..] == EditAll(ns[1..], us, f);
      if ns[0].Elem? {
        EditStep(ns[0].kids, us, u, f);
      }
    }
  }

  lemma {:induction false} EditNone(ns: seq<Node>, f: Attrs -> Attrs)
    ensures EditAll(ns, {}, f) == ns
  {
    if ns != [] {
      EditNone(ns[1..], f);
      if ns[0].Elem? {
        EditNone(ns[0].kids, f);
      }
    }
  }

  // ---------------------------------------------- node lists mean predicates

  lemma {:induction false} FoundUids(sel: Selector, ns: seq<Node>)
    ensures forall n :: n in FindAll(sel, ns) ==> n.uid in Uids(ns) && Selects(sel, n)
  {
    if ns != [] {
      FoundUids(sel, ns[1..]);
      if ns[0].Elem? {
        FoundUids(sel, ns[0].kids);
      }
    }
  }

  lemma DistinctParts(a: nat, b: seq<nat>, c: seq<nat>)
    requires Distinct([a] + b + c)
    ensures Distinct(b) && Distinct(c) && a !in b && a !in c && forall x :: x in b ==> x !in c
  {
    var s := [a] + b + c;
    assert forall i :: 0 <= i < |b| ==> s[1 + i] == b[i];
    assert forall i :: 0 <= i < |c| ==> s[1 + |b| + i] == c[i];
    assert s[0] == a;
  }

  /** Within the tree, the ids in `us` are exactly those of the nodes `p` drops. */
  ghost predicate Drops(p: Pass, ns: seq<Node>, us: set<nat>) {
    ns == [] ||
    ((ns[0].uid in us <==> !Keeps(p, ns[0])) && Drops(p, ns[1..], us) && (ns[0].Elem? ==> Drops(p, ns[0].kids, us)))
  }

  lemma {:induction false} DropsIsApply(p: Pass, ns: seq<Node>, us: set<nat>)
    requires Drops(p, ns, us) && p != StripStyle && p != StripData
    ensures DetachAll(ns, us) == Apply(p, ns)
  {
    if ns != [] {
      DropsIsApply(p, ns[1..], us);
      if ns[0].Elem? {
        DropsIsApply(p, ns[0].kids, us);
        StripNothing(p, ns[0].attrs);
      }
    }
  }

  lemma {:induction false} DropsFrame(p: Pass, ns: seq<Node>, us: set<nat>, vs: set<nat>)
    requires Drops(p, ns, us) && forall x :: x in Uids(ns) ==> (x in us <==> x in vs)
    ensures Drops(p, ns, vs)
  {
    if ns != [] {
      assert ns[0].uid in Uids(ns);
      assert forall x :: x in Uids(ns[1..]) ==> x in Uids(ns);
      DropsFrame(p, ns[1..], us, vs);
      if ns[0].Elem? {
        assert forall x :: x in Uids(ns[0].kids) ==> x in Uids(ns);
        DropsFrame(p, ns[0].kids, us, vs);
      }
    }
  }

  /** The selected nodes that `p` drops. */
  function Doomed(p: Pass, found: seq<Node>): set<nat> { set n | n in found && !Keeps(p, n) :: n.uid }

  /** Every node that `p` drops is selected by `sel`. */
  ghost predicate Covers(sel: Selector, p: Pass) {
    forall n: Node :: !Keeps(p, n) ==> Selects(sel, n)
  }

  lemma {:induction false} FoundDrops(sel: Selector, p: Pass, ns: seq<Node>)
    requires Distinct(Uids(ns)) && Covers(sel, p)
    ensures Drops(p, ns, Doomed(p, FindAll(sel, ns)))
  {
    if ns != [] {
      var kids := if ns[0].Elem? then ns[0].kids else [];
      var rest := ns[1..];
      DistinctParts(ns[0].uid, Uids(kids), Uids(rest));
      FoundDrops(sel, p, rest);
      if ns[0].Elem? {
        FoundDrops(sel, p, ns[0].kids);
      }
      var a, b := FindAll(sel, kids), FindAll(sel, rest);
      var here := if Selects(sel, ns[0]) then [ns[0]] else [];
      DoomedParts(p, here, a, b);
      var all := Doomed(p, here + a + b);
      DoomedUids(sel, p, rest);
      DoomedUids(sel, p, kids);
      DropsFrame(p, rest, Doomed(p, b), all);
      DropsFrame(p, kids, Doomed(p, a), all);
      assert ns[0].uid in all <==> !Keeps(p, ns[0]);
    }
  }

  lemma DoomedParts(p: Pass, here: seq<Node>, a: seq<Node>, b: seq<Node>)
    ensures Doomed(p, here + a + b) == Doomed(p, here) + Doomed(p, a) + Doomed(p, b)
    ensures |here| == 1 ==> Doomed(p, here) == if Keeps(p, here[0]) then {} else {here[0].uid}
  {
  }

  lemma DoomedUids(sel: Selector, p: Pass, ns: seq<Node>)
    ensures forall u :: u in Doomed(p, FindAll(sel, ns)) ==> u in Uids(ns)
  {
    FoundUids(sel, ns);
  }

  /** Detaching the doomed nodes is the pass. */
  lemma DetachFound(sel: Selector, p: Pass, ns: seq<Node>)
    requires Distinct(Uids(ns)) && Covers(sel, p) && p != StripStyle && p != StripData
    ensures DetachAll(ns, Doomed(p, FindAll(sel, ns))) == Apply(p, ns)
  {
    FoundDrops(sel, p, ns);
    DropsIsApply(p, ns, Doomed(p, FindAll(sel, ns)));
  }

  // -------------------------------------------- the loop over listed nodes

  lemma ListedStart(p: Pass, ns: seq<Node>, found: seq<Node>)
    ensures DetachAll(ns, Doomed(p, found[..0])) == ns
  {
    assert Doomed(p, found[..0]) == {};
    DetachNone(ns);
  }

  lemma ListedSelected(sel: Selector, ns: seq<Node>, k: nat)
    requires k < |FindAll(sel, ns)|
    ensures Selects(sel, FindAll(sel, ns)[k])
  {
    FoundUids(sel, ns);
    assert FindAll(sel, ns)[k] in FindAll(sel, ns);
  }

  lemma ListedStep(p: Pass, ns: seq<Node>, found: seq<Node>, k: nat)
    requires k < |found|
    ensures DetachAll(ns, Doomed(p, found[..k + 1]))
         == if Keeps(p, found[k]) then DetachAll(ns, Doomed(p, found[..k]))
            else Detach(DetachAll(ns, Doomed(p, found[..k])), found[k].uid)
  {
    var us := Doomed(p, found[..k]);
    assert found[..k + 1] == found[..k] + [found[k]];
    assert Doomed(p, found[..k + 1]) == if Keeps(p, found[k]) then us else us + {found[k].uid};
    DetachStep(ns, us, found[k].uid);
  }

  lemma ListedEnd(sel: Selector, p: Pass, ns: seq<Node>)
    requires Distinct(Uids(ns)) && Covers(sel, p) && p != StripStyle && p != StripData
    ensures var found := FindAll(sel, ns);
      var r := DetachAll(ns, Doomed(p, found[..|found|]));
      r == Apply(p, ns) && Distinct(Uids(r))
  {
    var found := FindAll(sel, ns);
    assert found[..|found|] == found;
    DetachFound(sel, p, ns);
    DetachUids(ns, Doomed(p, found));
  }

  // --------------------------------------------------------- identities stay

  lemma DistinctUnion(a: nat, b: seq<nat>, c: seq<nat>)
    requires Distinct(b) && Distinct(c) && a !in b && a !in c && forall x :: x in b ==> x !in c
    ensures Distinct([a] + b + c)
  {
    var s := [a] + b + c;
    forall i, j | 0 <= i < j < |s|
      ensures s[i] != s[j]
    {
      assert 1 <= i <= |b| ==> s[i] == b[i - 1] && s[i] in b;
      assert 1 <= j <= |b| ==> s[j] == b[j - 1];
      assert i > |b| ==> s[i] == c[i - 1 - |b|];
      assert j > |b| ==> s[j] == c[j - 1 - |b|] && s[j] in c;
    }
  }

  lemma {:induction false} DetachUids(ns: seq<Node>, us: set<nat>)
    requires Distinct(Uids(ns))
    ensures Distinct(Uids(DetachAll(ns, us)))
    ensures forall x :: x in Uids(DetachAll(ns, us)) ==> x in Uids(ns)
  {
    if ns != [] {
      var kids := if ns[0].Elem? then ns[0].kids else [];
      var rest := ns[1..];
      DistinctParts(ns[0].uid, Uids(kids), Uids(rest));
      DetachUids(rest, us);
      if ns[0].Elem? {
        DetachUids(ns[0].kids, us);
      }
      if ns[0].uid !in us {
        var a, b := Uids(DetachAll(kids, us)), Uids(DetachAll(rest, us));
        var r := DetachAll(ns, us);
        assert r[1..] == DetachAll(rest, us);
        assert Uids(r) == [ns[0].uid] + a + b;
        DistinctUnion(ns[0].uid, a, b);
      }
    }
  }

  lemma {:induction false} EditUids(ns: seq<Node>, us: set<nat>, f: Attrs -> Attrs)
    ensures Uids(EditAll(ns, us, f)) == Uids(ns)
  {
    if ns != [] {
      EditUids(ns[1..], us, f);
      var r := EditAll(ns, us, f);
      assert r[1..] == EditAll(ns[1..], us, f);
      if ns[0].Elem? {
        EditUids(ns[0].kids, us, f);
      }
    }
  }

  /** Rewriting the attributes of every element. */
  function EditEvery(ns: seq<Node>, f: Attrs -> Attrs): seq<Node> {
    if ns == [] then []
    else
      [if ns[0].Str? then ns[0] else ns[0].(attrs := f(ns[0].attrs), kids := EditEvery(ns[0].kids, f))]
      + EditEvery(ns[1..], f)
  }

  lemma {:induction false} EditAllIsEvery(ns: seq<Node>, us: set<nat>, f: Attrs -> Attrs)
    requires forall n :: n in FindAll(AnyTag, ns) ==> n.uid in us
    ensures EditAll(ns, us, f) == EditEvery(ns, f)
  {
    if ns != [] {
      assert forall n :: n in FindAll(AnyTag, ns[1..]) ==> n in FindAll(AnyTag, ns);
      EditAllIsEvery(ns[1..], us, f);
      if ns[0].Elem? {
        assert forall n :: n in FindAll(AnyTag, ns[0].kids) ==> n in FindAll(AnyTag, ns);
        EditAllIsEvery(ns[0].kids, us, f);
        assert ns[0] in FindAll(AnyTag, ns);
      }
    }
  }

  predicate DistinctIds(f: seq<Node>) {
    forall i, j :: 0 <= i < j < |f| ==> f[i].uid != f[j].uid
  }

  lemma DistinctJoin(here: seq<Node>, a: seq<Node>, b: seq<Node>)
    requires |here| <= 1
    requires DistinctIds(a) && DistinctIds(b)
    requires forall x, y :: x in a && y in b ==> x.uid != y.uid
    requires forall h, x :: h in here && x in a + b ==> h.uid != x.uid
    ensures DistinctIds(here + a + b)
  {
    var f := here + a + b;
    forall i, j | 0 <= i < j < |f|
      ensures f[i].uid != f[j].uid
    {
      assert i >= |here| ==> f[i] == (a + b)[i - |here|];
      assert j >= |here| ==> f[j] == (a + b)[j - |here|] && f[j] in a + b;
      assert i < |here| ==> f[i] in here;
    }
  }

  lemma {:induction false} FoundDistinct(ns: seq<Node>)
    requires Distinct(Uids(ns))
    ensures DistinctIds(FindAll(AnyTag, ns))
  {
    if ns != [] {
      var kids := if ns[0].Elem? then ns[0].kids else [];
      var rest := ns[1..];
      DistinctParts(ns[0].uid, Uids(kids), Uids(rest));
      FoundDistinct(rest);
      if ns[0].Elem? {
        FoundDistinct(ns[0].kids);
      }
      FoundUids(AnyTag, rest);
      FoundUids(AnyTag, kids);
      var a, b := FindAll(AnyTag, kids), FindAll(AnyTag, rest);
      var here := if ns[0].Elem? then [ns[0]] else [];
      assert FindAll(AnyTag, ns) == here + a + b;
      DistinctJoin(here, a, b);
    }
  }

  // ------------------------------------------------------- attribute passes

  function WithoutStyle(attrs: Attrs): Attrs { StripAttrs(StripStyle, attrs) }

  function WithoutData(attrs: Attrs): Attrs { StripAttrs(StripData, attrs) }

  lemma {:induction false} EditEveryIsApply(p: Pass, ns: seq<Node>, f: Attrs -> Attrs)
    requires p == StripStyle || p == StripData
    requires forall a :: f(a) == StripAttrs(p, a)
    ensures EditEvery(ns, f) == Apply(p, ns)
  {
    if ns != [] {
      EditEveryIsApply(p, ns[1..], f);
      if ns[0].Elem? {
        EditEveryIsApply(p, ns[0].kids, f);
      }
    }
  }

  lemma {:induction false} EditEveryIsAbsolute(
    ns: seq<Node>, f: Attrs -> Attrs, join: string -> string)
    requires forall a :: f(a) == AbsoluteAttrs(a, join)
    ensures EditEvery(ns, f) == Absolute(ns, join)
  {
    if ns != [] {
      EditEveryIsAbsolute(ns[1..], f, join);
      if ns[0].Elem? {
        EditEveryIsAbsolute(ns[0].kids, f, join);
      }
    }
  }

  lemma {:induction false} ApplyAllAppend(ps: seq<Pass>, qs: seq<Pass>, ns: seq<Node>)
    ensures ApplyAll(ps + qs, ns) == ApplyAll(qs, ApplyAll(ps, ns))
    decreases |ps|
  {
    if ps == [] {
      assert ps + qs == qs;
    } else {
      ApplyAllAppend(ps[1..], qs, Apply(ps[0], ns));
      assert (ps + qs)[1..] == ps[1..] + qs;
    }
  }

  lemma ApplyAllOne(p: Pass, ns: seq<Node>)
    ensures ApplyAll([p], ns) == Apply(p, ns)
  {
    assert ApplyAll([p][1..], Apply(p, ns)) == Apply(p, ns);
  }

  lemma ApplyTwo(p: Pass, q: Pass, ns: seq<Node>)
    ensures ApplyAll([p, q], ns) == Apply(q, Apply(p, ns))
  {
    assert [p, q][1..] == [q];
    ApplyAllOne(q, Apply(p, ns));
  }

  // -------------------------------------------------------------- the soup

  class Soup {
    var kids: seq<Node>
    var applied: set<Feature>

    ghost predicate Valid()
      reads this
    {
      Distinct(Uids(kids))
    }

    constructor (nodes: seq<Node>)
      requires Distinct(Uids(nodes))
      ensures Valid() && kids == nodes && applied == {}
    {
      kids, applied := nodes, {};
    }

    /** `for tag in soup.find_all(name): tag.decompose()`. */
    method RemoveTags(name: string)
      requires Valid()
      modifies this`kids
      ensures Valid() && kids == Apply(RemoveNamed(name), old(kids))
    {
      DetachListed(ByName(name), RemoveNamed(name));
    }

    /** `for comment in soup.find_all(string=...): comment.extract()`. */
    method RemoveCommentStrings()
      requires Valid()
      modifies this`kids
      ensures Valid() && kids == Apply(RemoveComments, old(kids))
    {
      DetachListed(CommentStrings, RemoveComments);
    }

    /** The loop both share: every listed node is detached, also one that has already
        gone with an ancestor. */
    method DetachListed(sel: Selector, p: Pass)
      requires Valid() && Covers(sel, p) && p != StripStyle && p != StripData
      requires forall n: Node :: Selects(sel, n) ==> !Keeps(p, n)
      modifies this`kids
      ensures Valid() && kids == Apply(p, old(kids))
    {
      ghost var ns := kids;
      var found := FindAll(sel, kids);
      ListedStart(p, ns, found);
      for k := 0 to |found|
        invariant kids == DetachAll(ns, Doomed(p, found[..k]))
      {
        ListedStep(p, ns, found, k);
        ListedSelected(sel, ns, k);
        kids := Detach(kids, found[k].uid);
      }
      ListedEnd(sel, p, ns);
    }

    /** `_remove_hidden`: templates first, then every hidden tag that is still attached. */
    method RemoveHiddenTags()
      requires Valid()
      modifies this`kids
      ensures Valid() && kids == Apply(RemoveHidden, Apply(RemoveNamed("template"), old(kids)))
    {
      RemoveTags("template");
      ghost var ns := kids;
      var found := FindAll(AnyTag, kids);
      ListedStart(RemoveHidden, ns, found);
      for k := 0 to |found|
        invariant kids == DetachAll(ns, Doomed(RemoveHidden, found[..k]))
      {
        var tag := found[k];
        ListedStep(RemoveHidden, ns, found, k);
        ListedSelected(AnyTag, ns, k);
        if tag.uid !in Uids(kids) {
          DetachAbsent(kids, tag.uid);
        } else if Hidden(tag.name, tag.attrs) {
          kids := Detach(kids, tag.uid);
        }
      }
      ListedEnd(AnyTag, RemoveHidden, ns);
    }

    static lemma UidSetStep(found: seq<Node>, k: nat)
      requires k < |found| && forall i, j :: 0 <= i < j < |found| ==> found[i].uid != found[j].uid
      ensures UidSet(found[..k + 1]) == UidSet(found[..k]) + {found[k].uid}
      ensures found[k].uid !in UidSet(found[..k])
    {
      assert found[..k + 1] == found[..k] + [found[k]];
      assert forall l :: 0 <= l < k ==> found[..k][l].uid != found[k].uid;
    }

    /** `for tag in soup.find_all(True)`, each tag's attributes rewritten by `f`. */
    method EditTags(f: Attrs -> Attrs)
      requires Valid()
      modifies this`kids
      ensures Valid() && kids == EditEvery(old(kids), f)
    {
      ghost var ns := kids;
      var found := FindAll(AnyTag, kids);
      FoundDistinct(ns);
      EditNone(ns, f);
      assert UidSet(found[..0]) == {};
      for k := 0 to |found|
        invariant kids == EditAll(ns, UidSet(found[..k]), f)
      {
        UidSetStep(found, k);
        EditStep(ns, UidSet(found[..k]), found[k].uid, f);
        kids := Edit(kids, found[k].uid, f);
      }
      assert found[..|found|] == found;
      EditAllIsEvery(ns, UidSet(found), f);
      EditUids(ns, UidSet(found), f);
    }

    /** `_remove_media` over one listing of the media tags. */
    method RemoveMedia(media: seq<string>)
      requires Valid()
      modifies this`kids
      ensures Valid() && kids == ApplyAll(Removals(media), old(kids))
    {
      for k := 0 to |media|
        invariant Valid()
        invariant ApplyAll(Removals(media[k..]), kids) == ApplyAll(Removals(media), old(kids))
      {
        assert media[k..][1..] == media[k + 1..];
        RemoveTags(media[k]);
      }
    }

    /** One enabled removal step of `normalize_html`. */
    method RemoveIf(feature: Feature, name: string, active: set<Feature>)
      requires Valid()
      modifies this
      ensures Valid()
      ensures kids == ApplyAll(When(feature, active, [RemoveNamed(name)]), old(kids))
      ensures applied == old(applied) + active * {feature}
    {
      if feature in active {
        ApplyAllOne(RemoveNamed(name), kids);
        RemoveTags(name);
        applied := applied + {feature};
      }
    }

    method HiddenIf(active: set<Feature>)
      requires Valid()
      modifies this
      ensures Valid() && kids == ApplyAll(HiddenPasses(active), old(kids))
      ensures applied == old(applied) + active * {HiddenNodes}
    {
      if HiddenNodes in active {
        ApplyTwo(RemoveNamed("template"), RemoveHidden, kids);
        RemoveHiddenTags();
        applied := applied + {HiddenNodes};
      }
    }

    method StylesIf(active: set<Feature>)
      requires Valid()
      modifies this
      ensures Valid()
      ensures kids == ApplyAll(When(Styles, active, [RemoveNamed("style"), StripStyle]), old(kids))
      ensures applied == old(applied) + active * {Styles}
    {
      if Styles in active {
        ApplyTwo(RemoveNamed("style"), StripStyle, kids);
        RemoveTags("style");
        EditEveryIsApply(StripStyle, kids, WithoutStyle);
        EditTags(WithoutStyle);
        applied := applied + {Styles};
      }
    }

    method CommentsIf(active: set<Feature>)
      requires Valid()
      modifies this
      ensures Valid()
      ensures kids == ApplyAll(When(Comments, active, [RemoveComments]), old(kids))
      ensures applied == old(applied) + active * {Comments}
    {
      if Comments in active {
        ApplyAllOne(RemoveComments, kids);
        RemoveCommentStrings();
        applied := applied + {Comments};
      }
    }

    method MediaIf(active: set<Feature>, media: seq<string>)
      requires Valid()
      modifies this
      ensures Valid()
      ensures kids == ApplyAll(When(Media, active, Removals(media)), old(kids))
      ensures applied == old(applied) + active * {Media}
    {
      if Media in active {
        RemoveMedia(media);
        applied := applied + {Media};
      }
    }

    method DataIf(active: set<Feature>)
      requires Valid()
      modifies this
      ensures Valid()
      ensures kids == ApplyAll(When(DataAttrs, active, [StripData]), old(kids))
      ensures applied == old(applied) + active * {DataAttrs}
    {
      if DataAttrs in active {
        ApplyAllOne(StripData, kids);
        EditEveryIsApply(StripData, kids, WithoutData);
        EditTags(WithoutData);
        applied := applied + {DataAttrs};
      }
    }

    method RunFirst(active: set<Feature>)
      requires Valid()
      modifies this
      ensures Valid() && kids == ApplyAll(MiddlePasses(active), old(kids))
      ensures applied == old(applied) + active * {Scripts, Styles, Comments}
    {
      ghost var ns := kids;
      RemoveIf(Scripts, "script", active);
      ghost var done := When(Scripts, active, [RemoveNamed("script")]);
      StylesIf(active);
      done := Extend(done, When(Styles, active, [RemoveNamed("style"), StripStyle]), ns);
      CommentsIf(active);
      done := Extend(done, When(Comments, active, [RemoveComments]), ns);
    }

    method RunLast(active: set<Feature>, media: seq<string>)
      requires Valid()
      modifies this
      ensures Valid() && kids == ApplyAll(LastPasses(active, media), old(kids))
      ensures applied == old(applied) + active * {Meta, Noscript, Media, DataAttrs}
    {
      ghost var ns := kids;
      RemoveIf(Meta, "meta", active);
      ghost var done := When(Meta, active, [RemoveNamed("meta")]);
      RemoveIf(Noscript, "noscript", active);
      done := Extend(done, When(Noscript, active, [RemoveNamed("noscript")]), ns);
      MediaIf(active, media);
      done := Extend(done, When(Media, active, Removals(media)), ns);
      DataIf(active);
      done := Extend(done, When(DataAttrs, active, [StripData]), ns);
    }

    /** The steps of `normalize_html` up to the data attributes. */
    method RunPasses(active: set<Feature>, media: seq<string>)
      requires Valid()
      modifies this
      ensures Valid() && kids == ApplyAll(Passes(active, media), old(kids))
      ensures applied == old(applied) + (active - {AbsoluteUrls, CollapseSpace, MinifySpace})
    {
      ghost var ns := kids;
      HiddenIf(active);
      RunFirst(active);
      ghost var done := Extend(HiddenPasses(active), MiddlePasses(active), ns);
      RunLast(active, media);
      done := Extend(done, LastPasses(active, media), ns);
      PassFeatures(active);
    }

    static lemma PassFeatures(active: set<Feature>)
      ensures active * {HiddenNodes} + active * {Scripts, Styles, Comments}
              + active * {Meta, Noscript, Media, DataAttrs}
           == active - {AbsoluteUrls, CollapseSpace, MinifySpace}
    {
      forall x | x in active && x !in {AbsoluteUrls, CollapseSpace, MinifySpace}
        ensures x in {HiddenNodes, Scripts, Styles, Comments, Meta, Noscript, Media, DataAttrs}
      {
        match x case AbsoluteUrls => case _ =>
      }
    }

    static ghost function Extend(done: seq<Pass>, more: seq<Pass>, ns: seq<Node>): (r: seq<Pass>)
      ensures r == done + more
      ensures ApplyAll(r, ns) == ApplyAll(more, ApplyAll(done, ns))
    {
      ApplyAllAppend(done, more, ns);
      done + more
    }

    /** `normalize_html`: a preset adds its features and switches normalization on. */
    method NormalizeHtml(
      enabled: bool, preset: string, options: set<Feature>, media: seq<string>, join: string -> string)
      requires Valid() && applied == {}
      modifies this
      ensures !enabled && Preset(preset) == {} ==> kids == old(kids) && applied == {}
      ensures enabled || Preset(preset) != {} ==>
        && kids == Normalize(options + Preset(preset), media, join, old(kids))
        && applied == options + Preset(preset)
    {
      if !enabled && Preset(preset) == {} {
        return;
      }
      RunActive(options + Preset(preset), media, join);
    }

    method RunActive(active: set<Feature>, media: seq<string>, join: string -> string)
      requires Valid() && applied == {}
      modifies this
      ensures kids == Normalize(active, media, join, old(kids)) && applied == active
    {
      ApplyFeatures(active);
      RunPasses(active, media);
      AbsoluteIf(active, join);
      WhitespaceIf(active);
    }

    static lemma ApplyFeatures(active: set<Feature>)
      ensures {} + (active - {AbsoluteUrls, CollapseSpace, MinifySpace}) + active * {AbsoluteUrls}
              + active * {CollapseSpace, MinifySpace}
           == active
    {
    }

    method AbsoluteIf(active: set<Feature>, join: string -> string)
      requires Valid()
      modifies this
      ensures Valid()
      ensures kids == if AbsoluteUrls in active then Absolute(old(kids), join) else old(kids)
      ensures applied == old(applied) + active * {AbsoluteUrls}
    {
      if AbsoluteUrls in active {
        var f := (attrs: Attrs) => AbsoluteAttrs(attrs, join);
        EditEveryIsAbsolute(kids, f, join);
        EditTags(f);
        applied := applied + {AbsoluteUrls};
      }
    }

    method WhitespaceIf(active: set<Feature>)
      modifies this
      ensures kids == Whitespace(CollapseSpace in active, MinifySpace in active, old(kids))
      ensures applied == old(applied) + active * {CollapseSpace, MinifySpace}
    {
      if CollapseSpace in active {
        kids := CollapseChildren(ROOT, kids);
        applied := applied + {CollapseSpace};
      }
      if MinifySpace in active {
        kids := MinifyChildren(ROOT, kids);
        applied := applied + {MinifySpace};
      }
    }

    /** `_collapse_node` over the children of a node named `parent`. */
    static method CollapseChildren(parent: string, children: seq<Node>) returns (r: seq<Node>)
      ensures r == Collapse(parent, children)
      decreases children
    {
      r := [];
      for k := 0 to |children|
        invariant r + Collapse(parent, children[k..]) == Collapse(parent, children)
      {
        CollapseCons(parent, children, k);
        var node := CollapseNode(parent, children[k]);
        Regroup(r, [node], Collapse(parent, children[k + 1..]));
        r := r + [node];
      }
    }

    static method CollapseNode(parent: string, node: Node) returns (r: Node)
      ensures [r] == Collapse(parent, [node])
      decreases node
    {
      assert [node][1..] == [];
      match node
      case Elem(uid, name, attrs, kids) =>
        var inner := CollapseChildren(name, kids);
        r := Elem(uid, name, attrs, inner);
      case Str(uid, kind, text) =>
        if kind.Comment? || Preserves(parent) {
          return node;
        }
        var collapsed := Text.Collapse(text);
        r := if collapsed != text then Str(uid, Plain, collapsed) else node;
    }

    static lemma CollapseCons(parent: string, children: seq<Node>, k: nat)
      requires k < |children|
      ensures Collapse(parent, children[k..])
           == Collapse(parent, [children[k]]) + Collapse(parent, children[k + 1..])
    {
      assert children[k..][1..] == children[k + 1..] && [children[k]][1..] == [];
    }

    static lemma MinifyCons(parent: string, children: seq<Node>, k: nat)
      requires k < |children|
      ensures Minify(parent, children[k..]) == Minify(parent, [children[k]]) + Minify(parent, children[k + 1..])
    {
      assert children[k..][1..] == children[k + 1..] && [children[k]][1..] == [];
    }

    /** `_minify_node` over the children of a node named `parent`. */
    static method MinifyChildren(parent: string, children: seq<Node>) returns (r: seq<Node>)
      ensures r == Minify(parent, children)
      decreases children
    {
      r := [];
      for k := 0 to |children|
        invariant r + Minify(parent, children[k..]) == Minify(parent, children)
      {
        MinifyCons(parent, children, k);
        var kept := MinifyNode(parent, children[k]);
        Regroup(r, kept, Minify(parent, children[k + 1..]));
        r := r + kept;
      }
    }

    static method MinifyNode(parent: string, node: Node) returns (kept: seq<Node>)
      ensures kept == Minify(parent, [node])
      decreases node
    {
      assert [node][1..] == [];
      match node
      case Elem(uid, name, attrs, kids) =>
        var inner := MinifyChildren(name, kids);
        kept := [Elem(uid, name, attrs, inner)];
      case Str(uid, kind, text) =>
        if kind.Comment? || Preserves(parent) {
          return [node];
        }
        var stripped := Text.Strip(text);
        kept := if stripped == "" then [] else if stripped != text then [Str(uid, Plain, stripped)] else [node];
    }
  }
}
