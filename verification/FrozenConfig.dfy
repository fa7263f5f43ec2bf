/** The pool's keys: `_freeze` of app/scraper/browser_pool.py, and exactly which
    configurations it gives the same key. */
module FrozenConfig {
  import opened Sequences
  import opened StringOrder

  /** Scalars up to Python's equality; strings are told apart because they are keys. */
  datatype Atom = Text(s: string) | Scalar(code: int)

  datatype Value = Leaf(atom: Atom) | List(items: seq<Value>) | Tuple(items: seq<Value>) | Dict(entries: seq<Entry>)

  datatype Entry = Entry(key: string, value: Value)

  datatype Frozen = Plain(atom: Atom) | Pack(items: seq<Frozen>)

  /** An entry of a dictionary, frozen. */
  datatype Pair = Pair(key: string, value: Frozen)

  predicate UniqueKeys(es: seq<Entry>) { forall i, j :: 0 <= i < j < |es| ==> es[i].key != es[j].key }

  predicate KeyAtMost(a: Pair, b: Pair) { AtMost(a.key, b.key) }

  /** `_freeze`. */
  function Freeze(v: Value): Frozen {
    match v
    case Leaf(atom) => Plain(atom)
    case List(items) => Pack(FreezeItems(items))
    case Tuple(items) => Pack(FreezeItems(items))
    case Dict(entries) => Pack(Packed(Sort(FreezeEntries(entries), KeyAtMost)))
  }

  function FreezeItems(vs: seq<Value>): seq<Frozen> {
    if vs == [] then [] else [Freeze(vs[0])] + FreezeItems(vs[1..])
  }

  function FreezeEntries(es: seq<Entry>): (r: seq<Pair>)
    ensures |r| == |es|
    ensures forall i :: 0 <= i < |es| ==> r[i] == Pair(es[i].key, Freeze(es[i].value))
  {
    if es == [] then [] else [Pair(es[0].key, Freeze(es[0].value))] + FreezeEntries(es[1..])
  }

  function PackOne(p: Pair): Frozen { Pack([Plain(Text(p.key)), p.value]) }

  function Packed(ps: seq<Pair>): seq<Frozen> {
    if ps == [] then [] else [PackOne(ps[0])] + Packed(ps[1..])
  }

  lemma {:induction false} PackedInjective(a: seq<Pair>, b: seq<Pair>)
    requires Packed(a) == Packed(b)
    ensures a == b
  {
    if a != [] {
      assert b != [];
      var x, y := PackOne(a[0]), PackOne(b[0]);
      assert x == Packed(a)[0] && y == Packed(b)[0];
      assert x.items[0] == Plain(Text(a[0].key)) && x.items[1] == a[0].value;
      assert y.items[0] == Plain(Text(b[0].key)) && y.items[1] == b[0].value;
      assert Packed(a)[1..] == Packed(a[1..]) && Packed(b)[1..] == Packed(b[1..]);
      PackedInjective(a[1..], b[1..]);
    }
  }

  lemma KeyPreorder()
    ensures TotalPreorder(KeyAtMost)
  {
    forall x, y
      ensures KeyAtMost(x, y) || KeyAtMost(y, x)
    {
      AtMostTotal(x.key, y.key);
    }
    forall x, y, z | KeyAtMost(x, y) && KeyAtMost(y, z)
      ensures KeyAtMost(x, z)
    {
      AtMostTransitive(x.key, y.key, z.key);
    }
  }

  lemma EntriesApart(es: seq<Entry>)
    requires UniqueKeys(es)
    ensures Distinct(FreezeEntries(es)) && AntisymmetricOn(FreezeEntries(es), KeyAtMost)
  {
    var ps := FreezeEntries(es);
    forall x, y | x in ps && y in ps && KeyAtMost(x, y) && KeyAtMost(y, x)
      ensures x == y
    {
      AtMostTotal(x.key, y.key);
      EntryByKey(es, x, y);
    }
  }

  lemma EntryByKey(es: seq<Entry>, x: Pair, y: Pair)
    requires UniqueKeys(es) && x in FreezeEntries(es) && y in FreezeEntries(es)
    ensures x.key == y.key ==> x == y
  {
    var ps := FreezeEntries(es);
    var i :| 0 <= i < |ps| && ps[i] == x;
    var j :| 0 <= j < |ps| && ps[j] == y;
    assert ps[i].key == es[i].key && ps[j].key == es[j].key;
  }

  lemma {:induction false} CountDistinct<T>(s: seq<T>, x: T)
    requires Distinct(s)
    ensures multiset(s)[x] == if x in s then 1 else 0
  {
    if s != [] {
      CountDistinct(s[1..], x);
      assert s == [s[0]] + s[1..];
    }
  }

  /** Every setting of `es` is one of `fs`, equal when frozen. */
  ghost predicate Within(es: seq<Entry>, fs: seq<Entry>) {
    forall i :: 0 <= i < |es| ==> HasSetting(fs, es[i].key, Freeze(es[i].value))
  }

  ghost predicate HasSetting(fs: seq<Entry>, key: string, frozen: Frozen) {
    exists j :: 0 <= j < |fs| && fs[j].key == key && Freeze(fs[j].value) == frozen
  }

  lemma WithinPairs(es: seq<Entry>, fs: seq<Entry>)
    ensures Within(es, fs) <==> forall p :: p in FreezeEntries(es) ==> p in FreezeEntries(fs)
  {
    var a, b := FreezeEntries(es), FreezeEntries(fs);
    forall i | 0 <= i < |es|
      ensures HasSetting(fs, es[i].key, Freeze(es[i].value)) <==> a[i] in b
    {
      if HasSetting(fs, es[i].key, Freeze(es[i].value)) {
        var j :| 0 <= j < |fs| && fs[j].key == es[i].key && Freeze(fs[j].value) == Freeze(es[i].value);
        assert b[j] == a[i];
      }
      if a[i] in b {
        var j :| 0 <= j < |b| && b[j] == a[i];
        assert fs[j].key == es[i].key;
      }
    }
    if Within(es, fs) {
      forall p | p in a
        ensures p in b
      {
        var i :| 0 <= i < |a| && a[i] == p;
        assert HasSetting(fs, es[i].key, Freeze(es[i].value));
      }
    }
    if forall p :: p in a ==> p in b {
      assert forall i :: 0 <= i < |es| ==> a[i] in a;
    }
  }

  function Elements<T>(s: seq<T>): set<T> { set x | x in s }

  lemma {:induction false} DistinctElements<T>(s: seq<T>)
    requires Distinct(s)
    ensures |Elements(s)| == |s|
  {
    if s != [] {
      DistinctElements(s[1..]);
      assert s == [s[0]] + s[1..];
      assert Elements(s) == {s[0]} + Elements(s[1..]);
    }
  }

  lemma SameElements<T>(a: seq<T>, b: seq<T>)
    requires Distinct(a) && Distinct(b) && |a| == |b| && forall x :: x in a ==> x in b
    ensures multiset(a) == multiset(b)
  {
    DistinctElements(a);
    DistinctElements(b);
    assert Elements(a) <= Elements(b);
    var more := Elements(b) - Elements(a);
    assert Elements(b) == Elements(a) + more && |more| == 0;
    forall x
      ensures multiset(a)[x] == multiset(b)[x]
    {
      assert x in a <==> x in Elements(a);
      assert x in b <==> x in Elements(b);
      CountDistinct(a, x);
      CountDistinct(b, x);
    }
  }

  /** Two dictionaries freeze alike exactly when their frozen settings are the same,
      whatever the order in which they are listed. */
  lemma SortedSame(es: seq<Entry>, fs: seq<Entry>)
    requires UniqueKeys(es) && UniqueKeys(fs)
    ensures Freeze(Dict(es)) == Freeze(Dict(fs)) <==> |es| == |fs| && Within(es, fs)
  {
    var a, b := FreezeEntries(es), FreezeEntries(fs);
    WithinPairs(es, fs);
    EntriesApart(es);
    EntriesApart(fs);
    KeyPreorder();
    if Freeze(Dict(es)) == Freeze(Dict(fs)) {
      PackedInjective(Sort(a, KeyAtMost), Sort(b, KeyAtMost));
      SortMultiset(a, KeyAtMost);
      SortMultiset(b, KeyAtMost);
    }
    if |es| == |fs| && Within(es, fs) {
      SameElements(a, b);
      SortPermutation(a, b, KeyAtMost);
    }
  }

  // ------------------------------------------------------- the exact relation

  /** Inside a dictionary no key occurs twice, at any depth. */
  predicate Proper(v: Value) {
    match v
    case Leaf(_) => true
    case List(items) => forall k :: 0 <= k < |items| ==> Proper(items[k])
    case Tuple(items) => forall k :: 0 <= k < |items| ==> Proper(items[k])
    case Dict(entries) => UniqueKeys(entries) && forall k :: 0 <= k < |entries| ==> Proper(entries[k].value)
  }

  /** A list or tuple of a text and a value. */
  predicate IsPair(v: Value) {
    (v.List? || v.Tuple?) && |v.items| == 2 && v.items[0].Leaf? && v.items[0].atom.Text?
  }

  function PairEntry(v: Value): (r: Entry)
    requires IsPair(v)
    ensures r.value < v
  {
    Entry(v.items[0].atom.s, v.items[1])
  }

  function PairEntries(items: seq<Value>): (r: seq<Entry>)
    requires forall k :: 0 <= k < |items| ==> IsPair(items[k])
    ensures |r| == |items| && forall k :: 0 <= k < |r| ==> r[k] == PairEntry(items[k])
  {
    if items == [] then [] else [PairEntry(items[0])] + PairEntries(items[1..])
  }

  predicate KeysIncrease(es: seq<Entry>) { forall i, j :: 0 <= i < j < |es| ==> Less(es[i].key, es[j].key) }

  /** A dictionary, or a sequence of pairs with increasing keys. */
  predicate Mapping(v: Value) {
    match v
    case Leaf(_) => false
    case Dict(_) => true
    case _ => (forall k :: 0 <= k < |v.items| ==> IsPair(v.items[k])) && KeysIncrease(PairEntries(v.items))
  }

  function Settings(v: Value): (r: seq<Entry>)
    requires Mapping(v)
    ensures forall i :: 0 <= i < |r| ==> r[i].value < v
  {
    if v.Dict? then v.entries
    else
      assert forall k :: 0 <= k < |v.items| ==> v.items[k] < v;
      PairEntries(v.items)
  }

  /** Equal up to the order of dictionaries, lists for tuples, and sorted pairs for
      dictionaries. */
  ghost predicate Alike(v: Value, w: Value)
    decreases v, 0
  {
    if v.Leaf? || w.Leaf? then v == w
    else if v.Dict? || w.Dict? then
      && Mapping(v) && Mapping(w) && |Settings(v)| == |Settings(w)|
      && forall i :: 0 <= i < |Settings(v)| ==> HasAlike(Settings(v)[i], Settings(w))
    else |v.items| == |w.items| && forall k :: 0 <= k < |v.items| ==> Alike(v.items[k], w.items[k])
  }

  ghost predicate HasAlike(e: Entry, fs: seq<Entry>)
    decreases e.value, 1
  {
    exists j :: 0 <= j < |fs| && fs[j].key == e.key && Alike(e.value, fs[j].value)
  }

  lemma {:induction false} FreezeItemsAt(vs: seq<Value>)
    ensures |FreezeItems(vs)| == |vs| && forall k :: 0 <= k < |vs| ==> FreezeItems(vs)[k] == Freeze(vs[k])
  {
    if vs != [] {
      FreezeItemsAt(vs[1..]);
    }
  }

  lemma {:induction false} PackedAt(ps: seq<Pair>)
    ensures |Packed(ps)| == |ps| && forall k :: 0 <= k < |ps| ==> Packed(ps)[k] == PackOne(ps[k])
  {
    if ps != [] {
      PackedAt(ps[1..]);
    }
  }

  /** A pair freezes to the frozen entry. */
  lemma FreezePair(v: Value)
    requires IsPair(v)
    ensures Freeze(v) == PackOne(Pair(PairEntry(v).key, Freeze(PairEntry(v).value)))
  {
    FreezeItemsAt(v.items);
    assert FreezeItems(v.items) == [Plain(v.items[0].atom), Freeze(v.items[1])];
  }

  /** Only a pair freezes to a frozen entry. */
  lemma FrozenPair(v: Value, p: Pair)
    requires Freeze(v) == PackOne(p)
    ensures IsPair(v) && PairEntry(v).key == p.key
  {
    if v.Dict? {
      PackedAt(Sort(FreezeEntries(v.entries), KeyAtMost));
      assert false;
    } else {
      FreezeItemsAt(v.items);
      assert Freeze(v.items[0]) == Plain(Text(p.key));
    }
  }

  lemma IncreasingSorted(es: seq<Entry>)
    requires KeysIncrease(es)
    ensures UniqueKeys(es) && Sort(FreezeEntries(es), KeyAtMost) == FreezeEntries(es)
  {
    forall i, j | 0 <= i < j < |es|
      ensures es[i].key != es[j].key && AtMost(es[i].key, es[j].key)
    {
      LessTrichotomy(es[i].key, es[j].key);
    }
    SortOfSorted(FreezeEntries(es), KeyAtMost);
  }

  predicate IncreasingPairs(ps: seq<Pair>) { forall i, j :: 0 <= i < j < |ps| ==> Less(ps[i].key, ps[j].key) }

  /** The keys of a frozen dictionary increase. */
  lemma SortedIncreasing(es: seq<Entry>)
    requires UniqueKeys(es)
    ensures IncreasingPairs(Sort(FreezeEntries(es), KeyAtMost))
  {
    var qs := FreezeEntries(es);
    var ps := Sort(qs, KeyAtMost);
    KeyPreorder();
    EntriesApart(es);
    SortSorted(qs, KeyAtMost);
    SortMultiset(qs, KeyAtMost);
    forall i, j | 0 <= i < j < |ps|
      ensures Less(ps[i].key, ps[j].key)
    {
      assert KeyAtMost(ps[i], ps[j]);
      DistinctSorted(qs, ps, i, j);
      assert ps[i] in qs && ps[j] in qs;
      EntryByKey(es, ps[i], ps[j]);
      LessTrichotomy(ps[i].key, ps[j].key);
    }
  }

  lemma DistinctSorted<T>(a: seq<T>, b: seq<T>, i: nat, j: nat)
    requires Distinct(a) && multiset(a) == multiset(b) && i < j < |b|
    ensures b[i] != b[j]
  {
    CountDistinct(a, b[i]);
    assert b == b[..j] + [b[j]] + b[j + 1..];
    assert b[i] == b[..j][i];
    assert multiset(b)[b[i]] <= 1;
  }

  /** A mapping freezes as the dictionary of its settings. */
  lemma MappingFreeze(v: Value)
    requires Mapping(v) && Proper(v)
    ensures Freeze(v) == Freeze(Dict(Settings(v)))
    ensures UniqueKeys(Settings(v)) && forall i :: 0 <= i < |Settings(v)| ==> Proper(Settings(v)[i].value)
  {
    if !v.Dict? {
      var es := PairEntries(v.items);
      IncreasingSorted(es);
      FreezeItemsAt(v.items);
      PackedAt(FreezeEntries(es));
      forall k | 0 <= k < |v.items|
        ensures Freeze(v.items[k]) == Packed(FreezeEntries(es))[k]
      {
        FreezePair(v.items[k]);
      }
      assert FreezeItems(v.items) == Packed(FreezeEntries(es));
      assert forall k :: 0 <= k < |es| ==> Proper(v.items[k]) && es[k].value == v.items[k].items[1];
    }
  }

  lemma PairsOfFrozen(items: seq<Value>, ps: seq<Pair>)
    requires FreezeItems(items) == Packed(ps)
    ensures |items| == |ps|
    ensures forall k :: 0 <= k < |items| ==> IsPair(items[k]) && PairEntry(items[k]).key == ps[k].key
  {
    FreezeItemsAt(items);
    PackedAt(ps);
    forall k | 0 <= k < |items|
      ensures IsPair(items[k]) && PairEntry(items[k]).key == ps[k].key
    {
      FrozenPair(items[k], ps[k]);
    }
  }

  /** What freezes as a dictionary is a mapping. */
  lemma FrozenMapping(v: Value, es: seq<Entry>)
    requires UniqueKeys(es) && Freeze(v) == Freeze(Dict(es))
    ensures Mapping(v)
  {
    if !v.Dict? {
      var ps := Sort(FreezeEntries(es), KeyAtMost);
      SortedIncreasing(es);
      PairsOfFrozen(v.items, ps);
      var fs := PairEntries(v.items);
      forall i, j | 0 <= i < j < |fs|
        ensures Less(fs[i].key, fs[j].key)
      {
        assert Less(ps[i].key, ps[j].key);
        assert fs[i].key == ps[i].key && fs[j].key == ps[j].key;
      }
    }
  }

  /** `_freeze` gives two values one key exactly when they are alike. */
  lemma {:induction false} FreezeIff(v: Value, w: Value)
    requires Proper(v) && Proper(w)
    ensures Freeze(v) == Freeze(w) <==> Alike(v, w)
    decreases v, 1
  {
    if v.Leaf? || w.Leaf? {
    } else if v.Dict? || w.Dict? {
      if Freeze(v) == Freeze(w) {
        FrozenMapping(v, if v.Dict? then v.entries else w.entries);
        FrozenMapping(w, if v.Dict? then v.entries else w.entries);
      }
      if Mapping(v) && Mapping(w) {
        SettingsIff(v, w);
      }
    } else {
      FreezeItemsAt(v.items);
      FreezeItemsAt(w.items);
      if |v.items| == |w.items| {
        forall k | 0 <= k < |v.items|
          ensures Freeze(v.items[k]) == Freeze(w.items[k]) <==> Alike(v.items[k], w.items[k])
        {
          FreezeIff(v.items[k], w.items[k]);
        }
        assert FreezeItems(v.items) == FreezeItems(w.items)
          <==> forall k :: 0 <= k < |v.items| ==> FreezeItems(v.items)[k] == FreezeItems(w.items)[k];
      }
    }
  }

  lemma {:induction false} SettingsIff(v: Value, w: Value)
    requires Proper(v) && Proper(w) && Mapping(v) && Mapping(w) && (v.Dict? || w.Dict?)
    ensures Freeze(v) == Freeze(w) <==> Alike(v, w)
    decreases v, 0
  {
    MappingFreeze(v);
    MappingFreeze(w);
    var es, fs := Settings(v), Settings(w);
    SortedSame(es, fs);
    forall i, j | 0 <= i < |es| && 0 <= j < |fs|
      ensures Freeze(es[i].value) == Freeze(fs[j].value) <==> Alike(es[i].value, fs[j].value)
    {
      FreezeIff(es[i].value, fs[j].value);
    }
    WithinAlike(es, fs);
  }

  /** Settings compared by what they freeze to, or structurally. */
  lemma WithinAlike(es: seq<Entry>, fs: seq<Entry>)
    requires forall i, j :: 0 <= i < |es| && 0 <= j < |fs| ==>
      (Freeze(es[i].value) == Freeze(fs[j].value) <==> Alike(es[i].value, fs[j].value))
    ensures Within(es, fs) <==> forall i :: 0 <= i < |es| ==> HasAlike(es[i], fs)
  {
    forall i | 0 <= i < |es|
      ensures HasSetting(fs, es[i].key, Freeze(es[i].value)) <==> HasAlike(es[i], fs)
    {
    }
  }

  /** A nested dictionary and a list of pairs freeze alike, so they cannot be told apart. */
  lemma FreezeCollision()
    ensures var atom := Leaf(Scalar(1));
      Freeze(Dict([Entry("a", atom)])) == Freeze(List([List([Leaf(Text("a")), atom])]))
  {
    var atom := Leaf(Scalar(1));
    var inner := [Leaf(Text("a")), atom];
    assert FreezeItems(inner[1..]) == [Plain(Scalar(1))];
    assert FreezeItems(inner) == [Plain(Text("a")), Plain(Scalar(1))];
    assert Freeze(List(inner)) == Pack([Plain(Text("a")), Plain(Scalar(1))]);
    assert FreezeItems([List(inner)]) == [Freeze(List(inner))] + FreezeItems([]);
    var ps := FreezeEntries([Entry("a", atom)]);
    assert ps == [Pair("a", Plain(Scalar(1)))];
    assert Sort(ps[1..], KeyAtMost) == [];
    assert Sort(ps, KeyAtMost) == ps;
    assert Packed(ps) == [PackOne(ps[0])] + Packed(ps[1..]);
  }

  // ------------------------------------------- configurations without nesting

  predicate Flat(v: Value) {
    match v
    case Leaf(_) => true
    case List(items) => forall k :: 0 <= k < |items| ==> Flat(items[k])
    case Tuple(items) => forall k :: 0 <= k < |items| ==> Flat(items[k])
    case Dict(_) => false
  }

  /** Equal up to lists for tuples. */
  predicate SameItems(v: Value, w: Value) {
    if v.Leaf? || w.Leaf? then v == w
    else
      && !v.Dict? && !w.Dict? && |v.items| == |w.items|
      && forall k :: 0 <= k < |v.items| ==> SameItems(v.items[k], w.items[k])
  }

  lemma {:induction false} FlatAlike(v: Value, w: Value)
    requires Flat(v) && Flat(w)
    ensures Alike(v, w) <==> SameItems(v, w)
  {
    if !v.Leaf? && !w.Leaf? && |v.items| == |w.items| {
      forall k | 0 <= k < |v.items|
        ensures Alike(v.items[k], w.items[k]) <==> SameItems(v.items[k], w.items[k])
      {
        FlatAlike(v.items[k], w.items[k]);
      }
    }
  }

  lemma {:induction false} FlatProper(v: Value)
    requires Flat(v)
    ensures Proper(v)
  {
    if !v.Leaf? {
      forall k | 0 <= k < |v.items|
        ensures Proper(v.items[k])
      {
        FlatProper(v.items[k]);
      }
    }
  }

  predicate FlatConfig(es: seq<Entry>) { UniqueKeys(es) && forall i :: 0 <= i < |es| ==> Flat(es[i].value) }

  predicate HasSame(e: Entry, fs: seq<Entry>) {
    exists j :: 0 <= j < |fs| && fs[j].key == e.key && SameItems(e.value, fs[j].value)
  }

  /** Configurations without nested dictionaries have one key exactly when they have equally
      many settings and agree on each up to lists for tuples, in whatever order they are. */
  lemma SameKeyIff(es: seq<Entry>, fs: seq<Entry>)
    requires FlatConfig(es) && FlatConfig(fs)
    ensures Freeze(Dict(es)) == Freeze(Dict(fs))
      <==> |es| == |fs| && forall i :: 0 <= i < |es| ==> HasSame(es[i], fs)
  {
    forall k | 0 <= k < |es| ensures Proper(es[k].value) { FlatProper(es[k].value); }
    forall k | 0 <= k < |fs| ensures Proper(fs[k].value) { FlatProper(fs[k].value); }
    FreezeIff(Dict(es), Dict(fs));
    forall i | 0 <= i < |es|
      ensures HasAlike(es[i], fs) <==> HasSame(es[i], fs)
    {
      forall j | 0 <= j < |fs|
        ensures Alike(es[i].value, fs[j].value) <==> SameItems(es[i].value, fs[j].value)
      {
        FlatAlike(es[i].value, fs[j].value);
      }
    }
    assert Settings(Dict(es)) == es && Settings(Dict(fs)) == fs;
  }

  /** The settings of `_browser_fetcher_args` (app/scraper/service.py). */
  datatype FetcherArgs = FetcherArgs(
    headless: Atom, arguments: seq<string>, timeout: Atom, userAgent: string, window: seq<int>,
    proxy: Atom, idleTimeout: Atom, maxUses: Atom)

  function Texts(ss: seq<string>): (r: seq<Value>)
    ensures |r| == |ss| && forall k :: 0 <= k < |r| ==> r[k] == Leaf(Text(ss[k]))
  {
    seq(|ss|, k requires 0 <= k < |ss| => Leaf(Text(ss[k])))
  }

  function Numbers(ns: seq<int>): (r: seq<Value>)
    ensures |r| == |ns| && forall k :: 0 <= k < |r| ==> r[k] == Leaf(Scalar(ns[k]))
  {
    seq(|ns|, k requires 0 <= k < |ns| => Leaf(Scalar(ns[k])))
  }

  function Config(a: FetcherArgs): (r: seq<Entry>)
    ensures FlatConfig(r)
  {
    var r := [
      Entry("headless", Leaf(a.headless)), Entry("arguments", List(Texts(a.arguments))),
      Entry("timeout_seconds", Leaf(a.timeout)), Entry("user_agent", Leaf(Text(a.userAgent))),
      Entry("window_size", Tuple(Numbers(a.window))), Entry("proxy_url", Leaf(a.proxy)),
      Entry("idle_timeout_seconds", Leaf(a.idleTimeout)), Entry("max_uses", Leaf(a.maxUses))];
    FirstsApart(r);
    r
  }

  lemma FirstsApart(es: seq<Entry>)
    requires |es| == 8 && forall i :: 0 <= i < 8 ==> es[i].key != "" && es[i].key[0] == "hatuwpim"[i]
    ensures UniqueKeys(es)
  {
  }

  /** Settings listed under the same keys are compared one by one. */
  lemma SameAt(es: seq<Entry>, fs: seq<Entry>, i: nat)
    requires UniqueKeys(es) && |es| == |fs| && i < |es| && HasSame(es[i], fs)
    requires forall k :: 0 <= k < |es| ==> es[k].key == fs[k].key
    ensures SameItems(es[i].value, fs[i].value)
  {
    var j :| 0 <= j < |fs| && fs[j].key == es[i].key && SameItems(es[i].value, fs[j].value);
    assert es[j].key == fs[j].key;
  }

  lemma SamePlaces(es: seq<Entry>, fs: seq<Entry>)
    requires FlatConfig(es) && FlatConfig(fs) && Freeze(Dict(es)) == Freeze(Dict(fs))
    requires |es| == |fs| && forall k :: 0 <= k < |es| ==> es[k].key == fs[k].key
    ensures forall i :: 0 <= i < |es| ==> SameItems(es[i].value, fs[i].value)
  {
    SameKeyIff(es, fs);
    forall i | 0 <= i < |es|
      ensures SameItems(es[i].value, fs[i].value)
    {
      SameAt(es, fs, i);
    }
  }

  /** Two services share a fetcher exactly when all their settings are equal. */
  lemma SharedFetcherIff(a: FetcherArgs, b: FetcherArgs)
    ensures Freeze(Dict(Config(a))) == Freeze(Dict(Config(b))) <==> a == b
  {
    if Freeze(Dict(Config(a))) == Freeze(Dict(Config(b))) {
      SamePlaces(Config(a), Config(b));
      SameArgs(a, b);
    }
  }

  lemma SameArgs(a: FetcherArgs, b: FetcherArgs)
    requires forall i :: 0 <= i < 8 ==> SameItems(Config(a)[i].value, Config(b)[i].value)
    ensures a == b
  {
    var es, fs := Config(a), Config(b);
    assert SameItems(es[0].value, fs[0].value) && SameItems(es[1].value, fs[1].value);
    assert SameItems(es[2].value, fs[2].value) && SameItems(es[3].value, fs[3].value);
    assert SameItems(es[4].value, fs[4].value) && SameItems(es[5].value, fs[5].value);
    assert SameItems(es[6].value, fs[6].value) && SameItems(es[7].value, fs[7].value);
    SameTexts(a.arguments, b.arguments);
    SameNumbers(a.window, b.window);
  }

  lemma SameTexts(a: seq<string>, b: seq<string>)
    ensures SameItems(List(Texts(a)), List(Texts(b))) ==> a == b
  {
    if SameItems(List(Texts(a)), List(Texts(b))) {
      assert forall k :: 0 <= k < |a| ==> SameItems(Texts(a)[k], Texts(b)[k]);
    }
  }

  lemma SameNumbers(a: seq<int>, b: seq<int>)
    ensures SameItems(Tuple(Numbers(a)), Tuple(Numbers(b))) ==> a == b
  {
    if SameItems(Tuple(Numbers(a)), Tuple(Numbers(b))) {
      assert forall k :: 0 <= k < |a| ==> SameItems(Numbers(a)[k], Numbers(b)[k]);
    }
  }
}
