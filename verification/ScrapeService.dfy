/** The scrape orchestrator (app/scraper/service.py): the cache check, the fallback from
    HTTP to the browser, the stale answer and the store.  HTTP, browser and the block-page
    test are oracles; a scrape runs in two atomic stretches around its awaited fetches. */
module ScrapeService {
  import opened Sequences

  const SECOND := 1000000

  datatype Page = Page(finalUrl: string, status: int, html: string, headers: string, backend: Option<string>)

  /** The classes of exceptions that the code tells apart; `Foreign` is none of the
      service's own. */
  datatype Exc =
    | Security(message: string)
    | Browser(message: string)
    | Scraper(kind: string)
    | MissingImport
    | Foreign(message: string)
    | Internal(cause: Exc)

  predicate IsScraper(e: Exc) { e.Security? || e.Browser? || e.Scraper? || e.Internal? }

  datatype Fetched = Got(page: Page) | Threw(exc: Exc)

  /** What one scrape meets: its HTTP fetches and its browser fetches in order. */
  datatype World = World(http: nat -> Fetched, browser: nat -> Fetched, blocked: Page -> bool)

  datatype Mode = Http | BrowserMode | Auto

  // -------------------------------------------------------------- auto mode

  predicate Blocked(w: World) { w.http(0).Got? && w.blocked(w.http(0).page) }

  /** An exception that is none of the service's own. */
  predicate Alien(e: Exc) { e.Foreign? || e.MissingImport? }

  /** The failure that auto mode reports when the browser gives nothing: that of HTTP, or of
      the browser's first attempt at a page that was blocked. */
  function FirstFailure(w: World): Option<Exc> {
    if w.http(0).Threw? then Some(w.http(0).exc)
    else if w.blocked(w.http(0).page) && w.browser(0).Threw? then Some(w.browser(0).exc)
    else None
  }

  /** What auto mode promises, for any fetches: one HTTP attempt; at most two browser attempts, two exactly
      when a blocked page sends it to the browser and that fails within the service; the
      page returned is the HTTP page only if it is not blocked, and otherwise that of the
      last browser attempt, with the mode that names its source; and when the browser fails
      too, the first failure is reported. */
  predicate AutoPromise(w: World, out: Fetched, mode: Mode, tries: nat, attempts: nat) {
    && tries == 1 && attempts <= 2
    && (attempts == 2 <==> Blocked(w) && w.browser(0).Threw? && !Alien(w.browser(0).exc))
    && (attempts == 0 <==> if w.http(0).Got? then !Blocked(w) else Alien(w.http(0).exc))
    && (out.Got? ==> mode == if attempts == 0 then Http else BrowserMode)
    && (attempts == 0 ==> out == w.http(0))
    && (attempts > 0 ==>
          var last := w.browser(attempts - 1);
          && (last.Got? ==> out == last)
          && (last.Threw? ==>
                out == Threw(if (w.http(0).Threw? || attempts == 2) && (last.exc.Browser? || last.exc.MissingImport?)
                             then FirstFailure(w).value else last.exc)))
  }

  /** The nested `try` blocks of auto mode. */
  method FetchAuto(w: World) returns (out: Fetched, mode: Mode, tries: nat, attempts: nat)
    ensures AutoPromise(w, out, mode, tries, attempts)
  {
    mode, tries, attempts := Auto, 0, 0;
    out := w.http(tries);
    tries := tries + 1;
    var caught: Option<Exc> := None;
    if out.Got? {
      if w.blocked(out.page) {
        out := w.browser(0);
        attempts := 1;
        if out.Got? {
          mode := BrowserMode;
          return;
        }
      } else {
        mode := Http;
        return;
      }
    }
    if !IsScraper(out.exc) {
      return;
    }
    var exc := out.exc;
    out := w.browser(attempts);
    attempts := attempts + 1;
    if out.Got? {
      mode := BrowserMode;
      return;
    }
    if out.exc.Browser? || out.exc.MissingImport? {
      out := Threw(exc);
    }
  }

  /** The promise leaves no choice: the fetches determine outcome, source and attempts. */
  lemma PromiseDetermines(w: World, a: Fetched, b: Fetched, m: Mode, n: Mode, h: nat, l: nat, i: nat, j: nat)
    requires AutoPromise(w, a, m, h, i) && AutoPromise(w, b, n, l, j)
    ensures a == b && h == l && i == j && (a.Got? ==> m == n)
  {
  }

  /** Auto mode fails exactly when HTTP gave nothing usable and every browser attempt it led
      to failed. */
  lemma AutoFailsIff(w: World, out: Fetched, mode: Mode, tries: nat, attempts: nat)
    requires AutoPromise(w, out, mode, tries, attempts)
    ensures out.Threw? <==>
      && (w.http(0).Threw? || Blocked(w))
      && ((w.http(0).Threw? && Alien(w.http(0).exc)) || w.browser(0).Threw?)
      && (Blocked(w) && w.browser(0).Threw? && !Alien(w.browser(0).exc) ==> w.browser(1).Threw?)
  {
  }

  // ------------------------------------------------------------------ entries

  datatype Entry = Entry(
    key: string, url: string, finalUrl: string, status: int, html: string, fetchedAt: int, expiresAt: Option<int>,
    mode: Mode, length: nat, headers: Option<string>, backend: Option<string>)

  predicate IsExpired(entry: Entry, now: int) { entry.expiresAt.Some? && now > entry.expiresAt.value }

  datatype Response = Response(entry: Entry, fromCache: bool, stale: bool)

  datatype Config = Config(staleIfError: bool, defaultTtl: int, maxSize: nat)

  datatype Request = Request(url: string, key: string, mode: Mode, ttl: Option<int>, domainTtl: Option<int>, force: bool)

  /** Python's `a or b or c` on lifetimes: a zero falls through to the next. */
  function Lifetime(cfg: Config, r: Request): int {
    if r.ttl.Some? && r.ttl.value != 0 then r.ttl.value
    else if r.domainTtl.Some? && r.domainTtl.value != 0 then r.domainTtl.value
    else cfg.defaultTtl
  }

  datatype Started = Hit(response: Response) | Fetching(cached: Option<Entry>)

  datatype Outcome = Served(response: Response) | Failed(exc: Exc)

  type Store = map<string, Entry>

  /** The entry stored for a page, which is cut to size. */
  function EntryFor(cfg: Config, r: Request, page: Page, mode: Mode, now: int): Entry {
    var html := if |page.html| > cfg.maxSize then page.html[..cfg.maxSize] else page.html;
    var ttl := Lifetime(cfg, r);
    Entry(r.key, r.url, page.finalUrl, page.status, html, now, if ttl > 0 then Some(now + ttl * SECOND) else None, mode,
          |html|, if page.headers == "" then None else Some(page.headers), page.backend)
  }

  /** What the cache check finds. */
  function Look(cache: Store, r: Request, now: int): Started {
    if r.force || r.key !in cache then Fetching(None)
    else if IsExpired(cache[r.key], now) then Fetching(Some(cache[r.key]))
    else Hit(Response(cache[r.key], true, false))
  }

  // ------------------------------------------------------------- what is stored

  /** What can happen to the rows: a scrape stores a page, or a cleanup or purge drops some. */
  datatype Event = Keep(r: Request, page: Page, mode: Mode, now: int) | Drop(keys: set<string>)

  function Step(cfg: Config, cache: Store, e: Event): Store {
    match e
    case Keep(r, page, mode, now) => cache[r.key := EntryFor(cfg, r, page, mode, now)]
    case Drop(keys) => cache - keys
  }

  function After(cfg: Config, cache: Store, es: seq<Event>): Store
    decreases |es|
  {
    if es == [] then cache else After(cfg, Step(cfg, cache, es[0]), es[1..])
  }

  predicate Touches(e: Event, key: string) {
    match e
    case Keep(r, _, _, _) => r.key == key
    case Drop(keys) => key in keys
  }

  lemma {:induction false} RowStays(cfg: Config, cache: Store, es: seq<Event>, key: string)
    requires key in cache && forall e :: e in es ==> !Touches(e, key)
    ensures key in After(cfg, cache, es) && After(cfg, cache, es)[key] == cache[key]
    decreases |es|
  {
    if es != [] {
      assert es[0] in es;
      RowStays(cfg, Step(cfg, cache, es[0]), es[1..], key);
    }
  }

  /** The row holds the page, cut to size, with its source and time. */
  predicate HoldsPage(entry: Entry, cfg: Config, page: Page, mode: Mode, now: int) {
    && entry.finalUrl == page.finalUrl && entry.status == page.status && entry.mode == mode
    && entry.html <= page.html && |entry.html| == Min(|page.html|, cfg.maxSize) && entry.length == |entry.html|
    && entry.fetchedAt == now && entry.backend == page.backend
    && (if entry.headers.Some? then entry.headers.value == page.headers && page.headers != "" else page.headers == "")
  }

  /** From the scrape that stores a page on, whatever else is stored or dropped, every request
      with its key that is not forced is answered with that page, without a fetch, exactly
      until its lifetime in microseconds is over: that of the request, or else of the domain,
      or else the default, where a zero counts as none, and for good if it is not positive.
      Afterwards the page is what a stale answer would be; a forced request never sees it. */
  lemma ServedUntilTouched(cfg: Config, cache: Store, r: Request, page: Page, mode: Mode, later: int, es: seq<Event>,
                           q: Request, now: int)
    requires q.key == r.key && forall e :: e in es ==> !Touches(e, r.key)
    ensures var ttl :=
        if r.ttl.Some? && r.ttl.value != 0 then r.ttl.value
        else if r.domainTtl.Some? && r.domainTtl.value != 0 then r.domainTtl.value
        else cfg.defaultTtl;
      var started := Look(After(cfg, cache, [Keep(r, page, mode, later)] + es), q, now);
      && (started.Hit? <==> !q.force && (ttl <= 0 || now <= later + 1000000 * ttl))
      && (started.Hit? ==>
            && started.response.fromCache && !started.response.stale
            && started.response.entry.key == r.key && started.response.entry.url == r.url
            && HoldsPage(started.response.entry, cfg, page, mode, later))
      && (started.Fetching? ==>
            && (started.cached.Some? <==> !q.force)
            && (started.cached.Some? ==> HoldsPage(started.cached.value, cfg, page, mode, later)))
  {
    var stored := Step(cfg, cache, Keep(r, page, mode, later));
    assert ([Keep(r, page, mode, later)] + es)[1..] == es;
    RowStays(cfg, stored, es, r.key);
  }

  class ScraperService {
    const cfg: Config
    var cache: Store
    var proxyErrors: nat

    /** Every entry ever stored, in order. */
    ghost var stored: seq<Entry>

    constructor (cfg: Config)
      ensures this.cfg == cfg && cache == map[] && stored == [] && Valid()
    {
      this.cfg, cache, proxyErrors, stored := cfg, map[], 0, [];
    }

    /** What the cache holds under a key was stored for that key. */
    ghost predicate Valid()
      reads this
    {
      forall k :: k in cache ==> Stored(cache[k], k)
    }

    ghost predicate Stored(entry: Entry, key: string)
      reads this
    {
      entry.key == key && entry in stored
    }

    /** Any cleanup or purge. */
    method DropRows(keys: set<string>)
      requires Valid()
      modifies this`cache
      ensures Valid() && cache == Step(cfg, old(cache), Drop(keys))
    {
      cache := cache - keys;
    }

    /** The cache check: an entry that is not expired is served; a forced refresh does not
        look. */
    method Begin(r: Request, now: int) returns (started: Started)
      requires Valid()
      ensures started == Look(cache, r, now)
      ensures started.Hit? <==>
        !r.force && r.key in cache && (cache[r.key].expiresAt.Some? ==> now <= cache[r.key].expiresAt.value)
      ensures started.Hit? ==>
        started.response == Response(cache[r.key], true, false) && Stored(started.response.entry, r.key)
      ensures started.Fetching? ==>
        && (started.cached.Some? <==> !r.force && r.key in cache)
        && (started.cached.Some? ==> started.cached.value == cache[r.key] && Stored(started.cached.value, r.key))
    {
      var cached := None;
      if !r.force && r.key in cache {
        cached := Some(cache[r.key]);
        if !IsExpired(cached.value, now) {
          return Hit(Response(cached.value, true, false));
        }
      }
      return Fetching(cached);
    }

    /** The fetch in the requested mode, and how many HTTP and browser attempts it took. */
    method Fetch(r: Request, w: World) returns (out: Fetched, mode: Mode, tries: nat, attempts: nat)
      ensures FetchedBy(r, w, out, mode, tries, attempts)
    {
      tries, attempts := 0, 0;
      match r.mode
      case Http => return w.http(tries), Http, tries + 1, attempts;
      case BrowserMode => return w.browser(attempts), BrowserMode, tries, attempts + 1;
      case Auto => out, mode, tries, attempts := FetchAuto(w);
    }

    /** After the fetch; other scrapes and cleanups may have come in between.  An error is
        answered with the expired entry that was found, if stale answers are on, and is
        raised otherwise; a page is stored and served. */
    method Finish(r: Request, cached: Option<Entry>, out: Fetched, mode: Mode, now: int) returns (answer: Outcome)
      requires Valid() && (cached.Some? ==> Stored(cached.value, r.key))
      modifies this
      ensures Valid() && old(stored) <= stored
      ensures answer.Served? ==> Stored(answer.response.entry, r.key)
      ensures out.Threw? ==>
        && cache == old(cache)
        && answer == if cfg.staleIfError && cached.Some? then Served(Response(cached.value, true, true))
                     else Failed(if Alien(out.exc) then Internal(out.exc) else out.exc)
      ensures out.Got? ==>
        && cache == Step(cfg, old(cache), Keep(r, out.page, mode, now))
        && r.key in cache && answer == Served(Response(cache[r.key], false, false))
        && HoldsPage(cache[r.key], cfg, out.page, mode, now)
      ensures proxyErrors == old(proxyErrors) + if out.Threw? && out.exc.Security? then 1 else 0
    {
      if out.Threw? {
        if out.exc.Security? {
          proxyErrors := proxyErrors + 1;
        }
        var error := if IsScraper(out.exc) then out.exc else Internal(out.exc);
        if cfg.staleIfError && cached.Some? {
          return Served(Response(cached.value, true, true));
        }
        return Failed(error);
      }
      var entry := MakeEntry(r, out.page, mode, now);
      cache, stored := cache[r.key := entry], stored + [entry];
      return Served(Response(entry, false, false));
    }

    method MakeEntry(r: Request, page: Page, mode: Mode, now: int) returns (entry: Entry)
      ensures entry == EntryFor(cfg, r, page, mode, now)
    {
      var ttl := Lifetime(cfg, r);
      var html := page.html;
      if |html| > cfg.maxSize {
        html := html[..cfg.maxSize];
      }
      var expiresAt := None;
      if ttl > 0 {
        expiresAt := Some(now + ttl * SECOND);
      }
      entry := Entry(r.key, r.url, page.finalUrl, page.status, html, now, expiresAt, mode, |html|,
                     if page.headers == "" then None else Some(page.headers), page.backend);
    }

    /** `scrape` with nothing in between.  A refused URL and a fresh entry take no fetch.
        Otherwise an error leaves the cache alone and is raised, unless an expired entry was
        there, not bypassed, and stale answers are on: then that entry is the answer.  A page
        is stored under the key, with the mode of its fetch, and nothing else changes. */
    method Scrape(r: Request, refusal: Option<string>, w: World, now: int, later: int)
      returns (answer: Outcome, tries: nat, attempts: nat)
      requires Valid()
      modifies this
      ensures Valid() && old(stored) <= stored
      ensures answer.Served? ==> Stored(answer.response.entry, r.key)
      ensures refusal.Some? ==> answer == Failed(Security(refusal.value))
      ensures var hit := !r.force && r.key in old(cache)
                         && (old(cache)[r.key].expiresAt.Some? ==> now <= old(cache)[r.key].expiresAt.value);
        && (refusal.Some? || hit ==> cache == old(cache) && tries == 0 && attempts == 0)
        && (refusal.None? && hit ==> answer == Served(Response(old(cache)[r.key], true, false)))
        && (refusal.None? && !hit ==>
              exists out, mode ::
                && FetchedBy(r, w, out, mode, tries, attempts)
                && (out.Threw? ==>
                      && cache == old(cache)
                      && answer == if cfg.staleIfError && !r.force && r.key in old(cache)
                                   then Served(Response(old(cache)[r.key], true, true))
                                   else Failed(if Alien(out.exc) then Internal(out.exc) else out.exc))
                && (out.Got? ==>
                      && cache == Step(cfg, old(cache), Keep(r, out.page, mode, later))
                      && r.key in cache && answer == Served(Response(cache[r.key], false, false))
                      && HoldsPage(cache[r.key], cfg, out.page, mode, later)))
    {
      tries, attempts := 0, 0;
      if refusal.Some? {
        return Failed(Security(refusal.value)), 0, 0;
      }
      var started := Begin(r, now);
      if started.Hit? {
        return Served(started.response), 0, 0;
      }
      var out, mode;
      out, mode, tries, attempts := Fetch(r, w);
      answer := Finish(r, started.cached, out, mode, later);
    }
  }

  /** The outcome of the fetches in the requested mode. */
  predicate FetchedBy(r: Request, w: World, out: Fetched, mode: Mode, tries: nat, attempts: nat) {
    match r.mode
    case Http => out == w.http(0) && tries == 1 && attempts == 0 && mode == Http
    case BrowserMode => out == w.browser(0) && tries == 0 && attempts == 1 && mode == BrowserMode
    case Auto => AutoPromise(w, out, mode, tries, attempts)
  }

  /** A page comes from the last attempt of the backend that its mode names. */
  lemma ModeNamesSource(r: Request, w: World, out: Fetched, mode: Mode, tries: nat, attempts: nat)
    requires FetchedBy(r, w, out, mode, tries, attempts) && out.Got?
    ensures match mode
      case Http => tries > 0 && out == w.http(tries - 1)
      case BrowserMode => attempts > 0 && out == w.browser(attempts - 1)
      case Auto => false
  {
  }
}
