/** A cache table and its three cleanup phases (app/cache/sqlite_cache.py): the scrape,
    search and transcript tables run the same statements. */
module CacheTable {
  import opened Sequences
  import opened IsoTime
  import opened StringOrder
  import SizeSweep

  /** Timestamps are the stored strings. */
  datatype Row = Row(key: string, fetchedAt: string, expiresAt: Option<string>, size: nat)

  /** Rows in scan order, keys distinct. */
  predicate Unique(t: seq<Row>) {
    forall i, j :: 0 <= i < j < |t| ==> t[i].key != t[j].key
  }

  predicate FetchedLeq(a: Row, b: Row) { AtMost(a.fetchedAt, b.fetchedAt) }

  lemma FetchedLeqTotal()
    ensures TotalPreorder(FetchedLeq)
  {
    forall x, y
      ensures FetchedLeq(x, y) || FetchedLeq(y, x)
    {
      AtMostTotal(x.fetchedAt, y.fetchedAt);
    }
    forall x, y, z | FetchedLeq(x, y) && FetchedLeq(y, z)
      ensures FetchedLeq(x, z)
    {
      AtMostTransitive(x.fetchedAt, y.fetchedAt, z.fetchedAt);
    }
  }

  /** `ORDER BY fetched_at ASC`, rows fetched at the same instant in scan order. */
  function Oldest(t: seq<Row>): seq<Row> { Sort(t, FetchedLeq) }

  function Sizes(t: seq<Row>): (r: seq<nat>)
    ensures |r| == |t|
    ensures forall k :: 0 <= k < |t| ==> r[k] == t[k].size
  {
    if t == [] then [] else [t[0].size] + Sizes(t[1..])
  }

  /** `SUM(content_length)`. */
  function TotalSize(t: seq<Row>): nat { SizeSweep.Sum(Sizes(t)) }

  function Keys(t: seq<Row>): set<string> { set r | r in t :: r.key }

  /** `DELETE ... WHERE cache_key IN keys`. */
  function Without(t: seq<Row>, keys: set<string>): seq<Row> {
    if t == [] then []
    else if t[0].key in keys then Without(t[1..], keys)
    else [t[0]] + Without(t[1..], keys)
  }

  /** `DELETE ... IN (SELECT cache_key ... ORDER BY fetched_at ASC LIMIT n)`. */
  function DeleteOldest(t: seq<Row>, n: nat): seq<Row> {
    Without(t, Keys(Oldest(t)[..Min(n, |Oldest(t)|)]))
  }

  /** `expires_at IS NOT NULL AND expires_at < cutoff`. */
  predicate ExpiredBefore(r: Row, cutoff: string) { r.expiresAt.Some? && Less(r.expiresAt.value, cutoff) }

  function Unexpired(t: seq<Row>, cutoff: string): seq<Row> {
    if t == [] then []
    else if ExpiredBefore(t[0], cutoff) then Unexpired(t[1..], cutoff)
    else [t[0]] + Unexpired(t[1..], cutoff)
  }

  function CapEntries(t: seq<Row>, maxEntries: int): seq<Row> {
    if |t| <= maxEntries then t else DeleteOldest(t, |t| - maxEntries)
  }

  function CapSize(t: seq<Row>, maxSize: int): seq<Row> {
    DeleteOldest(t, SizeSweep.Sweep(Sizes(Oldest(t)), maxSize))
  }

  /** The three phases on one table. */
  function Cleanup(t: seq<Row>, cutoff: string, maxEntries: int, maxSize: int): seq<Row> {
    CapSize(CapEntries(Unexpired(t, cutoff), maxEntries), maxSize)
  }

  // -------------------------------------------------- deleting oldest rows

  lemma WithoutIsFilter(t: seq<Row>, keys: set<string>, p: Row -> bool)
    requires forall r :: r in t ==> (p(r) <==> r.key !in keys)
    ensures Without(t, keys) == Filter(t, p)
  {
  }

  lemma UniqueOfMembers(t: seq<Row>, a: Row, b: Row)
    requires Unique(t) && a in t && b in t && a.key == b.key
    ensures a == b
  {
  }

  lemma {:induction false} InsertTotal(x: Row, t: seq<Row>)
    ensures TotalSize(Insert(x, t, FetchedLeq)) == x.size + TotalSize(t)
  {
    if t == [] || FetchedLeq(x, t[0]) {
      assert Sizes([x] + t) == [x.size] + Sizes(t);
    } else {
      InsertTotal(x, t[1..]);
      var r := Insert(x, t[1..], FetchedLeq);
      assert Sizes([t[0]] + r) == [t[0].size] + Sizes(r);
    }
  }

  lemma {:induction false} OldestTotal(t: seq<Row>)
    ensures TotalSize(Oldest(t)) == TotalSize(t)
  {
    if t != [] {
      OldestTotal(t[1..]);
      InsertTotal(t[0], Oldest(t[1..]));
    }
  }

  lemma OldestUnique(t: seq<Row>)
    requires Unique(t)
    ensures Unique(Oldest(t)) && |Oldest(t)| == |t|
    ensures forall r :: r in Oldest(t) <==> r in t
  {
    SortMultiset(t, FetchedLeq);
    UniquePermutation(t, Oldest(t));
  }

  lemma {:induction false} UniquePermutation(t: seq<Row>, u: seq<Row>)
    requires Unique(t) && multiset(t) == multiset(u)
    ensures Unique(u)
  {
    SameMultisetSameElements(t, u);
    forall i, j | 0 <= i < j < |u|
      ensures u[i].key != u[j].key
    {
      if u[i].key == u[j].key {
        assert u[i] in t && u[j] in t;
        UniqueOfMembers(t, u[i], u[j]);
        TwiceInSeq(u, i, j);
        OnceInUnique(t, u[i]);
      }
    }
  }

  lemma TwiceInSeq(u: seq<Row>, i: nat, j: nat)
    requires i < j < |u| && u[i] == u[j]
    ensures multiset(u)[u[i]] >= 2
  {
    assert u == u[..j] + [u[j]] + u[j + 1..];
    assert u[i] in u[..j] by {
      assert u[..j][i] == u[i];
    }
    assert u[i] in multiset(u[..j]);
  }

  lemma {:induction false} OnceInUnique(t: seq<Row>, x: Row)
    requires Unique(t)
    ensures multiset(t)[x] <= 1
  {
    if t != [] {
      OnceInUnique(t[1..], x);
      assert t == [t[0]] + t[1..];
      if t[0] == x {
        assert x !in t[1..];
        assert x !in multiset(t[1..]);
      }
    }
  }

  /** In a table with distinct keys, deleting the keys of a prefix leaves the suffix. */
  lemma {:induction false} WithoutPrefix(t: seq<Row>, n: nat)
    requires Unique(t) && n <= |t|
    ensures Without(t, Keys(t[..n])) == t[n..]
  {
    var keys := Keys(t[..n]);
    assert t == t[..n] + t[n..];
    WithoutConcat(t[..n], t[n..], keys);
    WithoutGone(t[..n], keys);
    forall r | r in t[n..]
      ensures r.key !in keys
    {
    }
    WithoutKept(t[n..], keys);
  }

  lemma {:induction false} WithoutConcat(a: seq<Row>, b: seq<Row>, keys: set<string>)
    ensures Without(a + b, keys) == Without(a, keys) + Without(b, keys)
  {
    if a == [] {
      assert a + b == b;
    } else {
      WithoutConcat(a[1..], b, keys);
      assert (a + b)[1..] == a[1..] + b;
    }
  }

  lemma WithoutGone(t: seq<Row>, keys: set<string>)
    requires forall r :: r in t ==> r.key in keys
    ensures Without(t, keys) == []
  {
  }

  lemma WithoutKept(t: seq<Row>, keys: set<string>)
    requires forall r :: r in t ==> r.key !in keys
    ensures Without(t, keys) == t
  {
  }

  lemma {:induction false} WithoutUnique(t: seq<Row>, keys: set<string>)
    requires Unique(t)
    ensures Unique(Without(t, keys))
    ensures forall r :: r in Without(t, keys) <==> r in t && r.key !in keys
  {
    if t != [] {
      WithoutUnique(t[1..], keys);
      var rest := Without(t[1..], keys);
      assert forall k :: 0 <= k < |rest| ==> rest[k] in t[1..];
    }
  }

  /** The statement deletes exactly the oldest `n` rows: what is left, in age order, is
      the age order without its first `n`. */
  lemma DeleteOldestIsPrefix(t: seq<Row>, n: nat)
    requires Unique(t)
    ensures |Oldest(t)| == |t|
    ensures Oldest(DeleteOldest(t, n)) == Oldest(t)[Min(n, |t|)..]
    ensures Unique(DeleteOldest(t, n)) && |DeleteOldest(t, n)| == |t| - Min(n, |t|)
    ensures forall r :: r in DeleteOldest(t, n) ==> r in t
  {
    OldestUnique(t);
    FetchedLeqTotal();
    var m := Min(n, |t|);
    var keys := Keys(Oldest(t)[..m]);
    var p := (r: Row) => r.key !in keys;
    WithoutIsFilter(t, keys, p);
    WithoutIsFilter(Oldest(t), keys, p);
    SortFilter(t, FetchedLeq, p);
    WithoutPrefix(Oldest(t), m);
    WithoutUnique(t, keys);
    OldestUnique(Without(t, keys));
  }

  lemma DeleteNothing(t: seq<Row>)
    ensures DeleteOldest(t, 0) == t
  {
    assert Keys(Oldest(t)[..0]) == {};
    WithoutKept(t, {});
  }

  /** Two tables with the same rows in age order and the same deletions. */
  lemma SizesSuffix(t: seq<Row>, n: nat)
    requires n <= |t|
    ensures Sizes(t[n..]) == Sizes(t)[n..]
  {
  }

  /** The rows of `a` are rows of `b`, in the same order. */
  predicate Subsequence(a: seq<Row>, b: seq<Row>) {
    a == [] || (b != [] && Subsequence(if a[0] == b[0] then a[1..] else a, b[1..]))
  }

  lemma {:induction false} SubsequenceMembers(a: seq<Row>, b: seq<Row>)
    requires Subsequence(a, b)
    ensures |a| <= |b| && forall r :: r in a ==> r in b
  {
    if a != [] {
      var rest := if a[0] == b[0] then a[1..] else a;
      SubsequenceMembers(rest, b[1..]);
      assert forall r :: r in a ==> r == a[0] || r in a[1..];
    }
  }

  /** A table and the rows that stay decide the rest. */
  lemma {:induction false} SubsequenceUnique(a: seq<Row>, c: seq<Row>, b: seq<Row>)
    requires Unique(b) && Subsequence(a, b) && Subsequence(c, b)
    requires forall r :: r in a <==> r in c
    ensures a == c
    decreases b
  {
    assert (c != [] ==> c[0] in c) && (a != [] ==> a[0] in a);
    if a != [] && c != [] {
      HeadFirst(a, b);
      HeadFirst(c, b);
      assert b[0] !in b[1..];
      if a[0] == b[0] {
        assert b[0] in a;
        SubsequenceMembers(a[1..], b[1..]);
        SubsequenceMembers(c[1..], b[1..]);
        assert a == [b[0]] + a[1..] && c == [b[0]] + c[1..];
        forall r
          ensures r in a[1..] <==> r in c[1..]
        {
          assert r in a[1..] || r in c[1..] ==> r in b[1..] && r in a && r in c;
        }
        SubsequenceUnique(a[1..], c[1..], b[1..]);
      } else {
        assert b[0] !in a;
        SubsequenceUnique(a, c, b[1..]);
      }
    }
  }

  lemma HeadFirst(a: seq<Row>, b: seq<Row>)
    requires Unique(b) && Subsequence(a, b) && a != []
    ensures a[0] == b[0] <==> b[0] in a
  {
    if a[0] != b[0] {
      SubsequenceMembers(a, b[1..]);
    }
  }

  lemma {:induction false} WithoutSubsequence(t: seq<Row>, keys: set<string>)
    requires Unique(t)
    ensures Subsequence(Without(t, keys), t)
  {
    if t != [] {
      WithoutSubsequence(t[1..], keys);
      SkipHead(Without(t[1..], keys), t);
    }
  }

  lemma {:induction false} UnexpiredSubsequence(t: seq<Row>, cutoff: string)
    requires Unique(t)
    ensures Subsequence(Unexpired(t, cutoff), t)
  {
    if t != [] {
      UnexpiredSubsequence(t[1..], cutoff);
      SkipHead(Unexpired(t[1..], cutoff), t);
    }
  }

  lemma SkipHead(a: seq<Row>, t: seq<Row>)
    requires t != [] && Unique(t) && Subsequence(a, t[1..])
    ensures Subsequence(a, t) && Subsequence([t[0]] + a, t)
  {
    SubsequenceMembers(a, t[1..]);
    assert a != [] ==> a[0] in a;
    assert t[0] !in t[1..];
    assert ([t[0]] + a)[1..] == a;
  }

  predicate Suffix(a: seq<Row>, b: seq<Row>) { |a| <= |b| && a == b[|b| - |a|..] }

  /** The rows a cleanup of expired rows leaves are fixed by which they are and by their
      order. */
  lemma UnexpiredDetermined(t: seq<Row>, u: seq<Row>, cutoff: string)
    requires Unique(t) && Subsequence(u, t)
    requires forall r :: r in u <==> r in t && !ExpiredBefore(r, cutoff)
    ensures u == Unexpired(t, cutoff)
  {
    UnexpiredProperties(t, cutoff);
    UnexpiredSubsequence(t, cutoff);
    SubsequenceUnique(u, Unexpired(t, cutoff), t);
  }

  /** So are those left by the entry cap, by their number and their being the newest. */
  lemma CapEntriesDetermined(t: seq<Row>, u: seq<Row>, maxEntries: int)
    requires Unique(t) && Unique(u) && Subsequence(u, t)
    requires |u| == Min(|t|, Max(0, maxEntries)) && Suffix(Oldest(u), Oldest(t))
    ensures u == CapEntries(t, maxEntries)
  {
    var v := CapEntries(t, maxEntries);
    CapEntriesProperties(t, maxEntries);
    OldestUnique(u);
    OldestUnique(v);
    CapEntriesSubsequence(t, maxEntries);
    assert Oldest(u) == Oldest(v);
    SubsequenceUnique(u, v, t);
  }

  lemma CapEntriesSubsequence(t: seq<Row>, maxEntries: int)
    requires Unique(t)
    ensures Subsequence(CapEntries(t, maxEntries), t)
  {
    WithoutSubsequence(t, {});
    WithoutKept(t, {});
    if |t| > maxEntries {
      var n := |t| - maxEntries;
      WithoutSubsequence(t, Keys(Oldest(t)[..Min(n, |Oldest(t)|)]));
    }
  }

  // --------------------------------------------------------------- the phases

  lemma {:induction false} UnexpiredProperties(t: seq<Row>, cutoff: string)
    requires Unique(t)
    ensures Unique(Unexpired(t, cutoff)) && |Unexpired(t, cutoff)| <= |t|
    ensures forall r :: r in Unexpired(t, cutoff) <==> r in t && !ExpiredBefore(r, cutoff)
  {
    if t != [] {
      UnexpiredProperties(t[1..], cutoff);
      var rest := Unexpired(t[1..], cutoff);
      assert forall k :: 0 <= k < |rest| ==> rest[k] in t[1..];
    }
  }

  lemma UnexpiredFixed(t: seq<Row>, cutoff: string)
    requires forall r :: r in t ==> !ExpiredBefore(r, cutoff)
    ensures Unexpired(t, cutoff) == t
  {
  }

  lemma CapEntriesProperties(t: seq<Row>, maxEntries: int)
    requires Unique(t)
    ensures var r := CapEntries(t, maxEntries);
      && Unique(r) && |r| == Min(|t|, Max(0, maxEntries))
      && |Oldest(t)| == |t| && Oldest(r) == Oldest(t)[|t| - |r|..]
      && (forall x :: x in r ==> x in t)
  {
    DeleteOldestIsPrefix(t, 0);
    DeleteNothing(t);
    if |t| > maxEntries {
      DeleteOldestIsPrefix(t, |t| - maxEntries);
    }
  }

  /** The size phase deletes an oldest-first prefix, reaches the limit or the empty table,
      and passes the shortest prefix that fits by at most 99 rows. */
  lemma CapSizeProperties(t: seq<Row>, maxSize: int)
    requires Unique(t)
    ensures var r := CapSize(t, maxSize);
      && Unique(r) && |r| <= |t| && |Oldest(t)| == |t|
      && Oldest(r) == Oldest(t)[|t| - |r|..]
      && (TotalSize(r) <= maxSize || r == [])
      && (var k := SizeSweep.Shortest(Sizes(Oldest(t)), maxSize); k <= |t| - |r| <= k + 99)
      && (forall x :: x in r ==> x in t)
  {
    var sizes := Sizes(Oldest(t));
    var n := SizeSweep.Sweep(sizes, maxSize);
    var r := CapSize(t, maxSize);
    SizeSweep.SweepBounds(sizes, maxSize);
    DeleteOldestIsPrefix(t, n);
    SizesSuffix(Oldest(t), n);
    OldestTotal(r);
  }

  lemma CapEntriesFixed(t: seq<Row>, maxEntries: int)
    requires |t| <= maxEntries
    ensures CapEntries(t, maxEntries) == t
  {
  }

  lemma CapSizeFixed(t: seq<Row>, maxSize: int)
    requires TotalSize(t) <= maxSize || t == []
    ensures CapSize(t, maxSize) == t
  {
    OldestTotal(t);
    DeleteNothing(t);
  }

  lemma SuffixOfSuffix<T>(x: seq<T>, y: seq<T>, z: seq<T>)
    requires |z| <= |y| <= |x| && y == x[|x| - |y|..] && z == y[|y| - |z|..]
    ensures z == x[|x| - |z|..]
  {
  }

  /** The survivors of the phases are the newest of the rows not past the cutoff. */
  lemma CleanupSurvivors(t: seq<Row>, cutoff: string, maxEntries: int, maxSize: int)
    requires Unique(t)
    ensures var r := Cleanup(t, cutoff, maxEntries, maxSize);
      var live := Oldest(Unexpired(t, cutoff));
      Unique(r) && |r| <= |live| <= |t| && Oldest(r) == live[|live| - |r|..]
  {
    var a := Unexpired(t, cutoff);
    UnexpiredProperties(t, cutoff);
    CappedSurvivors(a, maxEntries, maxSize);
  }

  lemma CappedSurvivors(a: seq<Row>, maxEntries: int, maxSize: int)
    requires Unique(a)
    ensures var r := CapSize(CapEntries(a, maxEntries), maxSize);
      Unique(r) && |r| <= |a| == |Oldest(a)| && Oldest(r) == Oldest(a)[|a| - |r|..]
  {
    var b := CapEntries(a, maxEntries);
    var r := CapSize(b, maxSize);
    CapEntriesProperties(a, maxEntries);
    CapSizeProperties(b, maxSize);
    SortMultiset(r, FetchedLeq);
    SuffixOfSuffix(Oldest(a), Oldest(b), Oldest(r));
  }

  /** A cleanup with non-negative limits leaves no row past the grace cutoff, at most
      `maxEntries` rows and at most `maxSize` bytes. */
  lemma CleanupLimits(t: seq<Row>, cutoff: string, maxEntries: nat, maxSize: nat)
    requires Unique(t)
    ensures var r := Cleanup(t, cutoff, maxEntries, maxSize);
      && (forall x :: x in r ==> x in t && !ExpiredBefore(x, cutoff))
      && |r| <= maxEntries && TotalSize(r) <= maxSize
  {
    var a := Unexpired(t, cutoff);
    UnexpiredProperties(t, cutoff);
    CapEntriesProperties(a, maxEntries);
    CapSizeProperties(CapEntries(a, maxEntries), maxSize);
    assert TotalSize([]) == 0;
  }

  /** A second run with the same cutoff and limits deletes nothing. */
  lemma CleanupIdempotent(t: seq<Row>, cutoff: string, maxEntries: nat, maxSize: nat)
    requires Unique(t)
    ensures var r := Cleanup(t, cutoff, maxEntries, maxSize);
      Cleanup(r, cutoff, maxEntries, maxSize) == r
  {
    var r := Cleanup(t, cutoff, maxEntries, maxSize);
    CleanupLimits(t, cutoff, maxEntries, maxSize);
    UnexpiredFixed(r, cutoff);
    CapEntriesFixed(r, maxEntries);
    CapSizeFixed(r, maxSize);
  }

  // ------------------------------------------------------------ points in time

  /** `when` gives the instants whose strings a row stores. */
  ghost predicate Stamped(r: Row, fetched: Instant, expires: Option<Instant>) {
    && Valid(fetched) && r.fetchedAt == Iso(fetched)
    && match expires
       case None => r.expiresAt.None?
       case Some(e) => Valid(e) && r.expiresAt == Some(Iso(e))
  }

  /** `CacheEntry.is_expired` at `now`. */
  predicate EntryExpired(expires: Option<Instant>, now: Instant)
    requires Valid(now) && (expires.Some? ==> Valid(expires.value))
  {
    expires.Some? && Micros(now) > Micros(expires.value)
  }

  /** The text comparison of the SQL statements is the datetime comparison of the entry. */
  lemma ExpiryAgrees(r: Row, fetched: Instant, expires: Option<Instant>, now: Instant)
    requires Stamped(r, fetched, expires) && Valid(now)
    ensures ExpiredBefore(r, Iso(now)) <==> EntryExpired(expires, now)
  {
    if expires.Some? {
      TextOrderIsTimeOrder(expires.value, now);
    }
  }

  /** `ORDER BY fetched_at` on the strings lists rows from the earliest fetch on. */
  lemma OldestIsChronological(t: seq<Row>, fetched: Row -> Instant, i: nat, j: nat)
    requires forall r :: r in t ==> Valid(fetched(r)) && r.fetchedAt == Iso(fetched(r))
    requires i < j < |t|
    ensures |Oldest(t)| == |t|
    ensures var o := Oldest(t); o[i] in t && o[j] in t && Micros(fetched(o[i])) <= Micros(fetched(o[j]))
  {
    FetchedLeqTotal();
    SortSorted(t, FetchedLeq);
    SortMultiset(t, FetchedLeq);
    var o := Oldest(t);
    assert o[i] in o && o[j] in o;
    assert FetchedLeq(o[i], o[j]);
    TextOrderIsTimeOrder(fetched(o[j]), fetched(o[i]));
  }

  ghost function CountExpired(
    t: seq<Row>, fetched: Row -> Instant, expires: Row -> Option<Instant>, now: Instant): nat
    requires Valid(now) && forall r :: r in t ==> Stamped(r, fetched(r), expires(r))
  {
    if t == [] then 0
    else
      assert Stamped(t[0], fetched(t[0]), expires(t[0]));
      (if EntryExpired(expires(t[0]), now) then 1 else 0) + CountExpired(t[1..], fetched, expires, now)
  }

  /** The expired entries `stats` counts by text are the entries that are expired. */
  lemma {:induction false} StatsAgree(
    t: seq<Row>, fetched: Row -> Instant, expires: Row -> Option<Instant>, now: Instant)
    requires Valid(now) && forall r :: r in t ==> Stamped(r, fetched(r), expires(r))
    ensures |t| - |Unexpired(t, Iso(now))| == CountExpired(t, fetched, expires, now)
  {
    if t != [] {
      StatsAgree(t[1..], fetched, expires, now);
      ExpiryAgrees(t[0], fetched(t[0]), expires(t[0]), now);
    }
  }
}
