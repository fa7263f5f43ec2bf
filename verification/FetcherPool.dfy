/** The shared pool of browser fetchers (app/scraper/browser_pool.py): least recently used
    eviction over frozen configuration keys. */
module FetcherPool {
  import opened Sequences
  import opened FrozenConfig
  import FetcherModel
  import opened BrowserFetcher

  // ------------------------------------------------------------ recency order

  /** The distinct keys of a request history, least recently requested first. */
  function Recent(history: seq<Frozen>): seq<Frozen> {
    if history == [] then []
    else
      var last := history[|history| - 1];
      Remove(Recent(history[..|history| - 1]), last) + [last]
  }

  function Newest(s: seq<Frozen>, n: nat): (r: seq<Frozen>)
    ensures |r| == Min(n, |s|)
  {
    s[|s| - Min(n, |s|)..]
  }

  /** What one request does to the keys of a pool of capacity `n`. */
  function Touch(keys: seq<Frozen>, k: Frozen, n: nat): seq<Frozen> {
    if k in keys then Remove(keys, k) + [k]
    else if |keys| + 1 > n && keys != [] then keys[1..] + [k]
    else keys + [k]
  }

  function Replay(history: seq<Frozen>, n: nat): seq<Frozen> {
    if history == [] then [] else Touch(Replay(history[..|history| - 1], n), history[|history| - 1], n)
  }

  function LastIndex(history: seq<Frozen>, k: Frozen): int {
    if history == [] then -1
    else if history[|history| - 1] == k then |history| - 1
    else LastIndex(history[..|history| - 1], k)
  }

  lemma {:induction false} RemoveDistinct(s: seq<Frozen>, k: Frozen)
    requires Distinct(s)
    ensures Distinct(Remove(s, k)) && k !in Remove(s, k)
    ensures forall x :: x in Remove(s, k) <==> x in s && x != k
    ensures |Remove(s, k)| == |s| - if k in s then 1 else 0
  {
    if s != [] {
      assert s == [s[0]] + s[1..] && s[0] !in s[1..];
      RemoveDistinct(s[1..], k);
      var rest := Remove(s[1..], k);
      assert s[0] !in rest;
    }
  }

  lemma {:induction false} RecentDistinct(history: seq<Frozen>)
    ensures Distinct(Recent(history))
    ensures forall k :: k in Recent(history) <==> k in history
  {
    if history != [] {
      var n := |history| - 1;
      RecentDistinct(history[..n]);
      RemoveDistinct(Recent(history[..n]), history[n]);
      assert history == history[..n] + [history[n]];
    }
  }

  lemma {:induction false} RemoveOrder(s: seq<Frozen>, k: Frozen, i: nat, j: nat) returns (x: nat, y: nat)
    requires Distinct(s) && i < j < |Remove(s, k)|
    ensures x < y < |s| && s[x] == Remove(s, k)[i] && s[y] == Remove(s, k)[j]
  {
    if s[0] == k {
      x, y := i + 1, j + 1;
    } else if i > 0 {
      x, y := RemoveOrder(s[1..], k, i - 1, j - 1);
      x, y := x + 1, y + 1;
    } else {
      x := 0;
      y := Place(s[1..], k, j - 1);
      y := y + 1;
    }
  }

  lemma {:induction false} Place(s: seq<Frozen>, k: Frozen, j: nat) returns (y: nat)
    requires j < |Remove(s, k)|
    ensures y < |s| && s[y] == Remove(s, k)[j]
  {
    if s[0] == k {
      y := j + 1;
    } else if j == 0 {
      y := 0;
    } else {
      y := Place(s[1..], k, j - 1);
      y := y + 1;
    }
  }

  /** The recency order is the order of the last requests. */
  lemma {:induction false} RecentOrder(history: seq<Frozen>, i: nat, j: nat)
    requires i < j < |Recent(history)|
    ensures LastIndex(history, Recent(history)[i]) < LastIndex(history, Recent(history)[j])
  {
    var n := |history| - 1;
    var before := Recent(history[..n]);
    RecentDistinct(history[..n]);
    RemoveDistinct(before, history[n]);
    if j < |Recent(history)| - 1 {
      var x, y := RemoveOrder(before, history[n], i, j);
      RecentOrder(history[..n], x, y);
    } else {
      LastIndexBound(history[..n], Recent(history)[i]);
    }
  }

  lemma LastIndexBound(history: seq<Frozen>, k: Frozen)
    ensures LastIndex(history, k) < |history|
  {
  }

  /** One request keeps the newest keys in recency order. */
  lemma TouchNewest(recent: seq<Frozen>, k: Frozen, n: nat)
    requires Distinct(recent) && n >= 1
    ensures Newest(Remove(recent, k) + [k], n) == Touch(Newest(recent, n), k, n)
  {
    var keys := Newest(recent, n);
    var older := recent[..|recent| - |keys|];
    assert recent == older + keys;
    if k in keys {
      TouchKnown(older, keys, k, n);
    } else {
      TouchNew(older, keys, k, n);
    }
  }

  lemma NewestOfConcat(a: seq<Frozen>, b: seq<Frozen>, n: nat)
    requires |b| == n || (a == [] && |b| <= n)
    ensures Newest(a + b, n) == b
  {
  }

  lemma TouchNew(older: seq<Frozen>, keys: seq<Frozen>, k: Frozen, n: nat)
    requires n >= 1 && k !in keys && |keys| == Min(n, |older| + |keys|)
    ensures Newest(Remove(older + keys, k) + [k], n) == Touch(keys, k, n)
  {
    RemoveConcat(older, keys, k);
    RemoveAbsent(keys, k);
    var rest := if k in older then Remove(older, k) else older;
    if |keys| < n {
      assert older == [];
      NewestWithRoom(keys, k, n);
    } else {
      NewestWhenFull(rest, keys, k, n);
    }
  }

  lemma NewestWithRoom(keys: seq<Frozen>, k: Frozen, n: nat)
    requires |keys| < n
    ensures Newest([] + keys + [k], n) == keys + [k]
  {
    assert [] + keys + [k] == [] + (keys + [k]);
    NewestOfConcat([], keys + [k], n);
  }

  lemma NewestWhenFull(rest: seq<Frozen>, keys: seq<Frozen>, k: Frozen, n: nat)
    requires |keys| == n && n >= 1
    ensures Newest(rest + keys + [k], n) == keys[1..] + [k]
  {
    assert rest + keys + [k] == (rest + [keys[0]]) + (keys[1..] + [k]);
    NewestOfConcat(rest + [keys[0]], keys[1..] + [k], n);
  }

  lemma TouchKnown(older: seq<Frozen>, keys: seq<Frozen>, k: Frozen, n: nat)
    requires Distinct(older + keys) && k in keys && |keys| == Min(n, |older| + |keys|)
    ensures Newest(Remove(older + keys, k) + [k], n) == Remove(keys, k) + [k]
  {
    RemoveConcat(older, keys, k);
    assert forall i :: 0 <= i < |older| ==> (older + keys)[i] == older[i];
    assert forall i :: 0 <= i < |keys| ==> (older + keys)[|older| + i] == keys[i];
    assert Distinct(keys);
    assert k !in older;
    RemoveDistinct(keys, k);
    assert Remove(older + keys, k) + [k] == older + (Remove(keys, k) + [k]);
    NewestOfConcat(older, Remove(keys, k) + [k], n);
  }

  /** After any requests, the pool holds exactly the most recently requested distinct keys
      that fit, in recency order. */
  lemma {:induction false} PoolIsNewest(history: seq<Frozen>, n: nat)
    requires n >= 1
    ensures Replay(history, n) == Newest(Recent(history), n)
  {
    if history != [] {
      var before := history[..|history| - 1];
      PoolIsNewest(before, n);
      RecentDistinct(before);
      TouchNewest(Recent(before), history[|history| - 1], n);
    }
  }

  // --------------------------------------------------------------------- pool

  datatype Slot = Slot(key: Frozen, fetcher: BrowserFetcher)

  /** What a caller of `get` passes: the configuration, and what the constructor of the
      fetcher makes of it. */
  datatype Request = Request(config: seq<Entry>, settings: FetcherModel.Config)

  /** The request has the slot's key, and the slot's fetcher has the request's settings. */
  ghost predicate MadeFor(slot: Slot, request: Request) {
    Freeze(Dict(request.config)) == slot.key && slot.fetcher.cfg == request.settings
  }

  /** The slot's fetcher was made for a request with the slot's key. */
  ghost predicate Paired(requests: seq<Request>, slot: Slot) {
    exists request :: request in requests && MadeFor(slot, request)
  }

  ghost predicate AllPaired(requests: seq<Request>, slots: seq<Slot>) {
    forall slot :: slot in slots ==> Paired(requests, slot)
  }

  lemma PairedMore(requests: seq<Request>, more: Request, slot: Slot)
    requires Paired(requests, slot) || MadeFor(slot, more)
    ensures Paired(requests + [more], slot)
  {
    if MadeFor(slot, more) {
      assert more in requests + [more];
    } else {
      var request :| request in requests && MadeFor(slot, request);
      assert request in requests + [more];
    }
  }

  /** After a request the slots are old ones and at most one made for it. */
  lemma PairedAfter(requests: seq<Request>, more: Request, before: seq<Slot>, slots: seq<Slot>, last: Slot)
    requires AllPaired(requests, before) && (last in before || MadeFor(last, more))
    requires forall slot :: slot in slots ==> slot in before || slot == last
    ensures AllPaired(requests + [more], slots) && Paired(requests + [more], last)
  {
    PairedMore(requests, more, last);
    forall slot | slot in slots
      ensures Paired(requests + [more], slot)
    {
      PairedMore(requests, more, slot);
    }
  }

  function Keys(slots: seq<Slot>): seq<Frozen> { seq(|slots|, i requires 0 <= i < |slots| => slots[i].key) }

  function Fetchers(slots: seq<Slot>): seq<BrowserFetcher> {
    seq(|slots|, i requires 0 <= i < |slots| => slots[i].fetcher)
  }

  /** Position of a key in the ordered dictionary. */
  function SlotOf(slots: seq<Slot>, k: Frozen): (r: Option<nat>)
    ensures r.Some? ==> r.value < |slots| && slots[r.value].key == k
    ensures r.Some? ==> forall i :: 0 <= i < r.value ==> slots[i].key != k
    ensures r.None? ==> forall i :: 0 <= i < |slots| ==> slots[i].key != k
  {
    if slots == [] then None
    else if slots[0].key == k then Some(0)
    else match SlotOf(slots[1..], k) case None => None case Some(i) => Some(i + 1)
  }

  lemma ReplayOne(history: seq<Frozen>, k: Frozen, n: nat)
    requires n >= 1
    ensures Replay(history + [k], n) == Touch(Replay(history, n), k, n)
    ensures |Replay(history, n)| <= n
  {
    assert (history + [k])[..|history|] == history;
    PoolIsNewest(history, n);
  }

  class BrowserFetcherPool {
    const maxSize: nat
    var slots: seq<Slot>

    /** The keys requested since the last `close_all`, and the fetchers ever created and
        taken out to be closed. */
    ghost var history: seq<Frozen>
    ghost var created: seq<BrowserFetcher>
    ghost var removed: seq<BrowserFetcher>

    /** Every request there ever was. */
    ghost var requests: seq<Request>

    ghost predicate Valid()
      reads this
    {
      Accounted() && AllPaired(requests, slots)
    }

    ghost predicate Accounted()
      reads this`slots, this`history, this`created, this`removed
    {
      && maxSize >= 1
      && Keys(slots) == Replay(history, maxSize)
      && AllDifferent(created)
      && multiset(created) == multiset(Fetchers(slots)) + multiset(removed)
    }

    constructor (maxSize: nat)
      requires maxSize >= 1
      ensures Valid() && this.maxSize == maxSize && history == [] && created == [] && requests == []
    {
      this.maxSize, slots := maxSize, [];
      history, created, removed, requests := [], [], [], [];
    }

    /** A capacity below one is refused. */
    static method Make(maxSize: int) returns (pool: Option<BrowserFetcherPool>)
      ensures pool.Some? <==> maxSize >= 1
      ensures pool.Some? ==> fresh(pool.value) && pool.value.Valid() && pool.value.maxSize == maxSize
    {
      if maxSize < 1 {
        return None;
      }
      var made := new BrowserFetcherPool(maxSize);
      return Some(made);
    }

    /** `get` under the pool's lock: the fetcher of the configuration, now the most recent,
        and the fetcher that had to go, which the caller of the lock closes. */
    method Get(config: seq<Entry>, settings: FetcherModel.Config)
      returns (fetcher: BrowserFetcher, evicted: Option<BrowserFetcher>)
      requires Valid()
      modifies this
      ensures Valid() && history == old(history) + [Freeze(Dict(config))]
      ensures slots != [] && slots[|slots| - 1] == Slot(Freeze(Dict(config)), fetcher)
      ensures if Freeze(Dict(config)) in Keys(old(slots))
        then created == old(created) && Slot(Freeze(Dict(config)), fetcher) in old(slots)
        else fresh(fetcher) && fetcher.Valid() && fetcher.cfg == settings && created == old(created) + [fetcher]
      ensures requests == old(requests) + [Request(config, settings)]
      ensures Paired(requests, Slot(Freeze(Dict(config)), fetcher))
      ensures removed == match evicted case None => old(removed) case Some(f) => old(removed) + [f]
    {
      fetcher, evicted := GetByKey(Freeze(Dict(config)), settings);
      PairedAfter(requests, Request(config, settings), old(slots), slots, Slot(Freeze(Dict(config)), fetcher));
      requests := requests + [Request(config, settings)];
    }

    method GetByKey(key: Frozen, settings: FetcherModel.Config)
      returns (fetcher: BrowserFetcher, evicted: Option<BrowserFetcher>)
      requires Accounted()
      modifies this`slots, this`history, this`created, this`removed
      ensures Accounted() && history == old(history) + [key]
      ensures slots != [] && slots[|slots| - 1] == Slot(key, fetcher)
      ensures forall slot :: slot in slots ==> slot in old(slots) || slot == Slot(key, fetcher)
      ensures if key in Keys(old(slots))
        then created == old(created) && Slot(key, fetcher) in old(slots)
        else fresh(fetcher) && fetcher.Valid() && fetcher.cfg == settings && created == old(created) + [fetcher]
      ensures removed == match evicted case None => old(removed) case Some(f) => old(removed) + [f]
    {
      var found := SlotOf(slots, key);
      ghost var keys := Keys(slots);
      assert forall i :: 0 <= i < |slots| ==> keys[i] == slots[i].key;
      ReplayOne(history, key, maxSize);
      history := history + [key];
      evicted := None;
      if found.Some? {
        fetcher := slots[found.value].fetcher;
        MoveToEnd(found.value);
      } else {
        fetcher, evicted := Create(key, settings);
      }
    }

    method Create(key: Frozen, settings: FetcherModel.Config)
      returns (fetcher: BrowserFetcher, evicted: Option<BrowserFetcher>)
      requires maxSize >= 1 && |slots| <= maxSize && key !in Keys(slots) && AllDifferent(created)
      modifies this`slots, this`created, this`removed
      ensures fresh(fetcher) && fetcher.Valid() && fetcher.cfg == settings
      ensures slots != [] && slots[|slots| - 1] == Slot(key, fetcher)
      ensures forall slot :: slot in slots ==> slot in old(slots) || slot == Slot(key, fetcher)
      ensures Keys(slots) == Touch(old(Keys(slots)), key, maxSize)
      ensures AllDifferent(created) && created == old(created) + [fetcher]
      ensures removed == match evicted case None => old(removed) case Some(f) => old(removed) + [f]
      ensures multiset(Fetchers(slots)) + multiset(removed)
           == old(multiset(Fetchers(slots)) + multiset(removed)) + multiset{fetcher}
    {
      fetcher := new BrowserFetcher(settings);
      evicted := Insert(key, fetcher);
    }

    /** `move_to_end`. */
    method MoveToEnd(i: nat)
      requires i < |slots| && forall j :: 0 <= j < i ==> slots[j].key != slots[i].key
      modifies this`slots
      ensures slots == old(slots)[..i] + old(slots)[i + 1..] + [old(slots)[i]]
      ensures Keys(slots) == Touch(old(Keys(slots)), old(slots)[i].key, maxSize)
      ensures multiset(Fetchers(slots)) == old(multiset(Fetchers(slots)))
    {
      KeysMoved(slots, i, maxSize);
      FetchersMoved(slots, i);
      var slot := slots[i];
      slots := slots[..i] + slots[i + 1..] + [slot];
    }

    static lemma KeysMoved(slots: seq<Slot>, i: nat, maxSize: nat)
      requires i < |slots| && forall j :: 0 <= j < i ==> slots[j].key != slots[i].key
      ensures Keys(slots[..i] + slots[i + 1..] + [slots[i]]) == Touch(Keys(slots), slots[i].key, maxSize)
    {
      var was := Keys(slots);
      RemoveAt(was, i);
      assert was[i] == slots[i].key && was[i] in was;
      assert Keys(slots[..i] + slots[i + 1..] + [slots[i]]) == was[..i] + was[i + 1..] + [was[i]];
    }

    static lemma FetchersMoved(slots: seq<Slot>, i: nat)
      requires i < |slots|
      ensures multiset(Fetchers(slots[..i] + slots[i + 1..] + [slots[i]])) == multiset(Fetchers(slots))
    {
      var fs := Fetchers(slots);
      assert Fetchers(slots[..i] + slots[i + 1..] + [slots[i]]) == fs[..i] + fs[i + 1..] + [fs[i]];
      assert fs == fs[..i] + [fs[i]] + fs[i + 1..];
    }

    /** A new fetcher at the end; the least recent one leaves when there are too many. */
    method Insert(key: Frozen, fetcher: BrowserFetcher) returns (evicted: Option<BrowserFetcher>)
      requires maxSize >= 1 && |slots| <= maxSize && key !in Keys(slots)
      modifies this`slots, this`created, this`removed
      ensures slots != [] && slots[|slots| - 1] == Slot(key, fetcher)
      ensures forall slot :: slot in slots ==> slot in old(slots) || slot == Slot(key, fetcher)
      ensures Keys(slots) == Touch(old(Keys(slots)), key, maxSize)
      ensures created == old(created) + [fetcher]
      ensures removed == match evicted case None => old(removed) case Some(f) => old(removed) + [f]
      ensures multiset(Fetchers(slots)) + multiset(removed)
           == old(multiset(Fetchers(slots)) + multiset(removed)) + multiset{fetcher}
    {
      ghost var was, fs := Keys(slots), Fetchers(slots);
      evicted := None;
      created := created + [fetcher];
      slots := slots + [Slot(key, fetcher)];
      assert Keys(slots) == was + [key] && Fetchers(slots) == fs + [fetcher];
      if |slots| > maxSize {
        evicted := PopFirst();
        assert Keys(slots) == was[1..] + [key];
      }
    }

    /** `popitem(last=False)`. */
    method PopFirst() returns (evicted: Option<BrowserFetcher>)
      requires slots != []
      modifies this`slots, this`removed
      ensures slots == old(slots)[1..] && evicted == Some(old(slots)[0].fetcher)
      ensures removed == old(removed) + [evicted.value]
      ensures multiset(Fetchers(slots)) + multiset(removed) == old(multiset(Fetchers(slots)) + multiset(removed))
    {
      ghost var fs := Fetchers(slots);
      evicted := Some(slots[0].fetcher);
      slots := slots[1..];
      removed := removed + [evicted.value];
      assert fs == [fs[0]] + Fetchers(slots);
    }

    /** `close_all` under the lock: every pooled fetcher is taken out to be closed. */
    method TakeAll() returns (fetchers: seq<BrowserFetcher>)
      requires Valid()
      modifies this
      ensures Valid() && history == [] && slots == [] && created == old(created)
      ensures fetchers == old(Fetchers(slots)) && removed == old(removed) + fetchers
    {
      fetchers := Fetchers(slots);
      slots, history, removed := [], [], removed + fetchers;
    }
  }

  /** Every fetcher created is either pooled or was taken out for closing, exactly once. */
  lemma PooledOrRemoved(pool: BrowserFetcherPool, f: BrowserFetcher)
    requires pool.Valid() && f in pool.created
    ensures multiset(Fetchers(pool.slots))[f] + multiset(pool.removed)[f] == 1
  {
    assert Distinct(pool.created);
    CountDistinct(pool.created, f);
  }

  /** When what the constructor makes of a configuration depends on its key only, as it does
      for configurations of the service, every pooled fetcher has the settings of every
      configuration that it would be returned for. */
  lemma PooledAsConfigured(pool: BrowserFetcherPool, make: seq<Entry> -> FetcherModel.Config, i: nat, config: seq<Entry>)
    requires pool.Valid() && i < |pool.slots| && pool.slots[i].key == Freeze(Dict(config))
    requires forall request :: request in pool.requests ==> request.settings == make(request.config)
    requires forall es, fs :: Freeze(Dict(es)) == Freeze(Dict(fs)) ==> make(es) == make(fs)
    ensures pool.slots[i].fetcher.cfg == make(config)
  {
    assert pool.slots[i] in pool.slots;
    assert Paired(pool.requests, pool.slots[i]);
  }

  /** The pool holds the most recently requested configurations that fit. */
  lemma PoolKeys(pool: BrowserFetcherPool)
    requires pool.Valid()
    ensures Keys(pool.slots) == Newest(Recent(pool.history), pool.maxSize)
    ensures |pool.slots| == Min(pool.maxSize, |Recent(pool.history)|)
  {
    PoolIsNewest(pool.history, pool.maxSize);
    assert |Keys(pool.slots)| == |pool.slots|;
  }
}
