/** The search result cache as a transition system (app/search/cache.py).  A search runs in
    two atomic stretches, before and after the awaited route; between them other searches,
    cleanups and corruption of the stored text may come. */
module SearchCacheModel {
  import opened Sequences
  import opened SearchModels
  import opened SearchKey

  const SECOND := 1000000

  datatype Config = Config(enabled: bool, defaultTtl: nat, staleIfError: bool)

  /** A stored row; `None` is a text that no longer decodes. */
  datatype Row = Row(response: Option<Response>, fetchedAt: int, expiresAt: Option<int>)

  datatype Entry = Entry(response: Response, fetchedAt: int, expiresAt: Option<int>)

  type Store = map<Material, Row>

  /** Which storage calls of a stretch fail. */
  datatype Faults = Faults(read: bool, discard: bool, write: bool)

  // ------------------------------------------------------------ one search

  /** `is_expired`: an entry without an expiry never expires. */
  predicate IsExpired(expiresAt: Option<int>, now: int) { expiresAt.Some? && now > expiresAt.value }

  function Expiry(cfg: Config, q: Query, now: int): Option<int> {
    var ttl := if q.cacheTtl.Some? then q.cacheTtl.value else cfg.defaultTtl;
    if ttl > 0 then Some(now + ttl * SECOND) else None
  }

  /** `_get`: storage failures and undecodable rows are misses. */
  function Read(store: Store, key: Material, faults: Faults): Option<Entry> {
    if faults.read || key !in store || store[key].response.None? then None
    else Some(Entry(store[key].response.value, store[key].fetchedAt, store[key].expiresAt))
  }

  /** An undecodable row is discarded when it is read. */
  function AfterRead(store: Store, key: Material, faults: Faults): Store {
    if !faults.read && key in store && store[key].response.None? && !faults.discard then store - {key} else store
  }

  function AfterWrite(store: Store, key: Material, row: Row, faults: Faults): Store {
    if faults.write then store else store[key := row]
  }

  /** `_stamp_served`. */
  function Served(entry: Entry, now: int, stale: bool, warnings: seq<Note>): Response {
    entry.response.(meta := entry.response.meta.(
      fromCache := true, stale := stale, cachedAt := Some(entry.fetchedAt),
      cacheAge := Some(Max(0, now - entry.fetchedAt)), warnings := warnings))
  }

  function WithNote(notes: seq<Note>, note: Note): seq<Note> { if note in notes then notes else notes + [note] }

  /** `_stamp_fresh`. */
  function Freshly(r: Response): Response {
    r.(meta := r.meta.(fromCache := false, stale := false, cachedAt := None, cacheAge := None))
  }

  /** `_stale_eligible`. */
  predicate StaleEligible(e: Error) {
    match e
    case Transient(_) => true
    case NoProvider(Exhausted(attempted, _)) => attempted != []
    case NoProvider(Candidates(candidates)) =>
      candidates != [] && forall k :: 0 <= k < |candidates| ==> !candidates[k].reason.Mismatch?
    case _ => false
  }

  /** A suspended search: the request, the entry read for it and when. */
  datatype Pending = Pending(q: Query, cached: Option<Entry>, since: int)

  datatype Counters = Counters(hits: nat, misses: nat, errors: nat, staleHits: nat)

  /** The first stretch: an answer from the cache, or a live run to await. */
  datatype Started = Hit(response: Response) | Await(pending: Pending)

  function Start(cfg: Config, store: Store, key: Material, q: Query, now: int, faults: Faults): Started {
    if !cfg.enabled || q.forceRefresh then Await(Pending(q, None, now))
    else
      var cached := Read(store, key, faults);
      if cached.Some? && !IsExpired(cached.value.expiresAt, now)
      then Hit(Served(cached.value, now, false, cached.value.response.meta.warnings))
      else Await(Pending(q, cached, now))
  }

  function StartStore(cfg: Config, store: Store, key: Material, q: Query, faults: Faults): Store {
    if !cfg.enabled || q.forceRefresh then store else AfterRead(store, key, faults)
  }

  predicate Masked(cfg: Config, p: Pending, e: Error) {
    !e.Foreign? && cfg.staleIfError && p.cached.Some? && !p.q.forceRefresh && StaleEligible(e)
  }

  /** The second stretch: what the caller gets for the outcome of the route. */
  function Answer(cfg: Config, p: Pending, outcome: Outcome, now: int): Outcome {
    if !cfg.enabled then outcome
    else match outcome
      case Ok(r) => Ok(Freshly(r))
      case Raise(e) =>
        if Masked(cfg, p, e) then
          Ok(Served(p.cached.value, now, true,
                    WithNote(p.cached.value.response.meta.warnings, StaleServed(ErrorType(e)))))
        else outcome
  }

  function Counted(cfg: Config, c: Counters, p: Pending, outcome: Outcome): Counters {
    if !cfg.enabled || (outcome.Raise? && outcome.error.Foreign?) then c
    else match outcome
      case Ok(_) => c.(misses := c.misses + 1)
      case Raise(e) =>
        c.(errors := c.errors + 1, staleHits := c.staleHits + if Masked(cfg, p, e) then 1 else 0)
  }

  /** Right after it was stored an answer serves every request with its key that is not
      forced, exactly until its time to live is over. */
  lemma StoredThenServed(cfg: Config, store: Store, k: Material, p: Pending, r: Response, now: int, faults: Faults,
                         q: Query, later: int, reading: Faults)
    requires cfg.enabled && !faults.write && !reading.read && !q.forceRefresh
    ensures var ttl := if p.q.cacheTtl.Some? then p.q.cacheTtl.value else cfg.defaultTtl;
      var stored := AfterWrite(store, k, Row(Some(r), now, Expiry(cfg, p.q, now)), faults);
      var started := Start(cfg, stored, k, q, later, reading);
      && (started.Hit? <==> ttl <= 0 || later <= now + ttl * SECOND)
      && (started.Hit? ==>
            && StoredCopy(started.response, r, now, later)
            && !started.response.meta.stale && started.response.meta.warnings == r.meta.warnings)
      && (started.Await? ==> started.pending.cached == Some(Entry(r, now, Some(now + ttl * SECOND))))
  {
  }

  // ---------------------------------------------------------------- system

  /** A successful route: its key, answer, time, and expiry by its own TTL. */
  datatype Record = Record(key: Material, response: Response, at: int, expiresAt: Option<int>)

  /** What a caller got: for which request, begun and ended when. */
  datatype Reply = Reply(q: Query, out: Outcome, since: int, at: int)

  /** `log` and `replies` are history. */
  datatype State = State(
    store: Store, pending: map<nat, Pending>, counters: Counters, log: seq<Record>, replies: seq<Reply>, foreign: nat)

  datatype Event =
    | Begin(id: nat, q: Query, now: int, faults: Faults)
    | Finish(id: nat, outcome: Outcome, now: int, faults: Faults)
    | Drop(keys: set<Material>)
    | Corrupt(key: Material)

  predicate Enabled(s: State, e: Event) {
    match e
    case Begin(id, _, _, _) => id !in s.pending
    case Finish(id, _, _, _) => id in s.pending
    case Drop(_) => true
    case Corrupt(_) => true
  }

  function Init(): State { State(map[], map[], Counters(0, 0, 0, 0), [], [], 0) }

  function DoBegin(key: Query -> Material, cfg: Config, s: State, id: nat, q: Query, now: int, faults: Faults): State {
    var s1 := s.(store := StartStore(cfg, s.store, key(q), q, faults));
    match Start(cfg, s.store, key(q), q, now, faults)
    case Hit(r) =>
      s1.(counters := s.counters.(hits := s.counters.hits + 1), replies := s.replies + [Reply(q, Ok(r), now, now)])
    case Await(p) => s1.(pending := s.pending[id := p])
  }

  function DoFinish(
    key: Query -> Material, cfg: Config, s: State, id: nat, outcome: Outcome, now: int, faults: Faults): State
    requires id in s.pending
  {
    var p := s.pending[id];
    var s1 := s.(pending := s.pending - {id},
                 counters := Counted(cfg, s.counters, p, outcome),
                 replies := s.replies + [Reply(p.q, Answer(cfg, p, outcome, now), p.since, now)],
                 foreign := s.foreign + if outcome.Raise? && outcome.error.Foreign? then 1 else 0);
    if cfg.enabled && outcome.Ok? then
      var expiresAt := Expiry(cfg, p.q, now);
      s1.(store := AfterWrite(s.store, key(p.q), Row(Some(outcome.response), now, expiresAt), faults),
          log := s.log + [Record(key(p.q), outcome.response, now, expiresAt)])
    else s1
  }

  function Step(key: Query -> Material, cfg: Config, s: State, e: Event): State
    requires Enabled(s, e)
  {
    match e
    case Begin(id, q, now, faults) => DoBegin(key, cfg, s, id, q, now, faults)
    case Finish(id, outcome, now, faults) => DoFinish(key, cfg, s, id, outcome, now, faults)
    case Drop(keys) => s.(store := s.store - keys)
    case Corrupt(k) => if k in s.store then s.(store := s.store[k := s.store[k].(response := None)]) else s
  }

  // ------------------------------------------------------------- invariant

  predicate RowsLogged(store: Store, log: seq<Record>) {
    forall k :: k in store && store[k].response.Some? ==>
      Record(k, store[k].response.value, store[k].fetchedAt, store[k].expiresAt) in log
  }

  predicate EntryLogged(key: Query -> Material, p: Pending, log: seq<Record>) {
    p.cached.Some? ==>
      && !p.q.forceRefresh && IsExpired(p.cached.value.expiresAt, p.since)
      && Record(key(p.q), p.cached.value.response, p.cached.value.fetchedAt, p.cached.value.expiresAt) in log
  }

  ghost predicate PendingLogged(key: Query -> Material, pending: map<nat, Pending>, log: seq<Record>) {
    forall id :: id in pending ==> EntryLogged(key, pending[id], log)
  }

  /** One answer but for the note of where it came from: everything that the provider and
      the router put into it is the same. */
  predicate SameAnswer(a: Response, b: Response) {
    && a.query == b.query && a.verticals == b.verticals && a.results == b.results
    && a.meta.provider == b.meta.provider && a.meta.attempted == b.meta.attempted
    && a.meta.fallback == b.meta.fallback && a.meta.degraded == b.meta.degraded
  }

  /** The live answer `r`, marked as such. */
  predicate LiveCopy(a: Response, r: Response) {
    && SameAnswer(a, r) && a.meta.warnings == r.meta.warnings
    && !a.meta.fromCache && !a.meta.stale && a.meta.cachedAt.None? && a.meta.cacheAge.None?
  }

  /** The answer `r` stored at `stored`, marked with that and with its age. */
  predicate StoredCopy(a: Response, r: Response, stored: int, now: int) {
    && SameAnswer(a, r) && a.meta.fromCache && a.meta.cachedAt == Some(stored)
    && a.meta.cacheAge == Some(if now < stored then 0 else now - stored)
  }

  /** The warnings with one that stale data stands in for an error of this type. */
  predicate StaleNoted(after: seq<Note>, before: seq<Note>, cause: string) {
    StaleServed(cause) in after && (after == before || after == before + [StaleServed(cause)])
  }

  /** The reply carries the answer of a successful route for the same key.  Unless stale,
      its time to live had not elapsed; if stale, it had when the search began. */
  ghost predicate FromRecord(key: Query -> Material, cfg: Config, reply: Reply, rec: Record) {
    && reply.out.Ok? && !reply.q.forceRefresh
    && rec.key == key(reply.q)
    && StoredCopy(reply.out.response, rec.response, rec.at, reply.at)
    && (if reply.out.response.meta.stale
        then cfg.staleIfError && rec.expiresAt.Some? && rec.expiresAt.value < reply.since
             && exists cause :: StaleNoted(reply.out.response.meta.warnings, rec.response.meta.warnings, cause)
        else (rec.expiresAt.Some? ==> reply.at <= rec.expiresAt.value)
             && reply.out.response.meta.warnings == rec.response.meta.warnings)
  }

  /** The reply is the answer of a successful route that was run for it just now. */
  predicate FromLiveRoute(key: Query -> Material, reply: Reply, rec: Record) {
    reply.out.Ok? && rec.key == key(reply.q) && rec.at == reply.at && LiveCopy(reply.out.response, rec.response)
  }

  ghost predicate ReplyGood(key: Query -> Material, cfg: Config, reply: Reply, log: seq<Record>) {
    reply.out.Ok? ==>
      if reply.out.response.meta.fromCache
      then exists rec :: rec in log && FromRecord(key, cfg, reply, rec)
      else exists rec :: rec in log && FromLiveRoute(key, reply, rec)
  }

  ghost predicate RepliesGood(key: Query -> Material, cfg: Config, replies: seq<Reply>, log: seq<Record>) {
    forall i :: 0 <= i < |replies| ==> ReplyGood(key, cfg, replies[i], log)
  }

  predicate IsHit(r: Reply) { r.out.Ok? && r.out.response.meta.fromCache && !r.out.response.meta.stale }

  predicate IsStale(r: Reply) { r.out.Ok? && r.out.response.meta.fromCache && r.out.response.meta.stale }

  predicate IsLive(r: Reply) { r.out.Ok? && !r.out.response.meta.fromCache }

  predicate IsError(r: Reply) { r.out.Raise? && !r.out.error.Foreign? }

  function Tally(rs: seq<Reply>, p: Reply -> bool): nat {
    if rs == [] then 0 else Tally(rs[..|rs| - 1], p) + if p(rs[|rs| - 1]) then 1 else 0
  }

  lemma TallyMore(rs: seq<Reply>, r: Reply, p: Reply -> bool)
    ensures Tally(rs + [r], p) == Tally(rs, p) + if p(r) then 1 else 0
  {
    assert (rs + [r])[..|rs|] == rs;
  }

  /** The counters count the replies of each kind; an error that stale data covers counts as
      an error too. */
  ghost predicate CountersAgree(s: State) {
    && s.counters.hits == Tally(s.replies, IsHit)
    && s.counters.misses == Tally(s.replies, IsLive) == |s.log|
    && s.counters.staleHits == Tally(s.replies, IsStale)
    && s.counters.errors == Tally(s.replies, IsError) + s.counters.staleHits
    && s.counters.hits + s.counters.misses + s.counters.errors + s.foreign == |s.replies|
  }

  lemma TallyAll(rs: seq<Reply>, r: Reply)
    ensures Tally(rs + [r], IsHit) == Tally(rs, IsHit) + if IsHit(r) then 1 else 0
    ensures Tally(rs + [r], IsLive) == Tally(rs, IsLive) + if IsLive(r) then 1 else 0
    ensures Tally(rs + [r], IsStale) == Tally(rs, IsStale) + if IsStale(r) then 1 else 0
    ensures Tally(rs + [r], IsError) == Tally(rs, IsError) + if IsError(r) then 1 else 0
  {
    TallyMore(rs, r, IsHit);
    TallyMore(rs, r, IsLive);
    TallyMore(rs, r, IsStale);
    TallyMore(rs, r, IsError);
  }

  ghost predicate Inv(key: Query -> Material, cfg: Config, s: State) {
    && RowsLogged(s.store, s.log) && PendingLogged(key, s.pending, s.log)
    && RepliesGood(key, cfg, s.replies, s.log) && CountersAgree(s)
  }

  lemma LogGrows(key: Query -> Material, cfg: Config, s: State, rec: Record)
    requires Inv(key, cfg, s)
    ensures RowsLogged(s.store, s.log + [rec]) && PendingLogged(key, s.pending, s.log + [rec])
    ensures RepliesGood(key, cfg, s.replies, s.log + [rec])
  {
    forall i | 0 <= i < |s.replies|
      ensures ReplyGood(key, cfg, s.replies[i], s.log + [rec])
    {
      assert ReplyGood(key, cfg, s.replies[i], s.log);
      GoodGrows(key, cfg, s.replies[i], s.log, rec);
    }
  }

  lemma GoodGrows(key: Query -> Material, cfg: Config, reply: Reply, log: seq<Record>, rec: Record)
    requires ReplyGood(key, cfg, reply, log)
    ensures ReplyGood(key, cfg, reply, log + [rec])
  {
    if reply.out.Ok? {
      if reply.out.response.meta.fromCache {
        var r :| r in log && FromRecord(key, cfg, reply, r);
        assert r in log + [rec];
      } else {
        var r :| r in log && FromLiveRoute(key, reply, r);
        assert r in log + [rec];
      }
    }
  }

  lemma HitGood(key: Query -> Material, cfg: Config, s: State, q: Query, now: int, faults: Faults)
    requires Inv(key, cfg, s) && Start(cfg, s.store, key(q), q, now, faults).Hit?
    ensures var reply := Reply(q, Ok(Start(cfg, s.store, key(q), q, now, faults).response), now, now);
      ReplyGood(key, cfg, reply, s.log) && IsHit(reply)
  {
    var row := s.store[key(q)];
    var rec := Record(key(q), row.response.value, row.fetchedAt, row.expiresAt);
    assert rec in s.log;
    assert FromRecord(key, cfg, Reply(q, Ok(Start(cfg, s.store, key(q), q, now, faults).response), now, now), rec);
  }

  lemma AwaitGood(key: Query -> Material, cfg: Config, s: State, q: Query, now: int, faults: Faults)
    requires Inv(key, cfg, s) && Start(cfg, s.store, key(q), q, now, faults).Await?
    ensures EntryLogged(key, Start(cfg, s.store, key(q), q, now, faults).pending, s.log)
  {
  }

  lemma BeginInv(key: Query -> Material, cfg: Config, s: State, id: nat, q: Query, now: int, faults: Faults)
    requires Inv(key, cfg, s) && id !in s.pending
    ensures Inv(key, cfg, DoBegin(key, cfg, s, id, q, now, faults))
  {
    var started := Start(cfg, s.store, key(q), q, now, faults);
    if started.Hit? {
      HitGood(key, cfg, s, q, now, faults);
      TallyAll(s.replies, Reply(q, Ok(started.response), now, now));
    } else {
      AwaitGood(key, cfg, s, q, now, faults);
    }
  }

  lemma MaskedGood(key: Query -> Material, cfg: Config, log: seq<Record>, p: Pending, e: Error, now: int)
    requires cfg.enabled && EntryLogged(key, p, log) && Masked(cfg, p, e)
    ensures var reply := Reply(p.q, Answer(cfg, p, Raise(e), now), p.since, now);
      ReplyGood(key, cfg, reply, log) && IsStale(reply)
  {
    var entry := p.cached.value;
    var reply := Reply(p.q, Answer(cfg, p, Raise(e), now), p.since, now);
    assert StaleNoted(reply.out.response.meta.warnings, entry.response.meta.warnings, ErrorType(e));
    assert FromRecord(key, cfg, reply, Record(key(p.q), entry.response, entry.fetchedAt, entry.expiresAt));
  }

  lemma FinishRaised(key: Query -> Material, cfg: Config, s: State, id: nat, e: Error, now: int, faults: Faults)
    requires cfg.enabled && Inv(key, cfg, s) && id in s.pending
    ensures Inv(key, cfg, DoFinish(key, cfg, s, id, Raise(e), now, faults))
  {
    var p := s.pending[id];
    TallyAll(s.replies, Reply(p.q, Answer(cfg, p, Raise(e), now), p.since, now));
    if Masked(cfg, p, e) {
      MaskedGood(key, cfg, s.log, p, e, now);
    }
  }

  lemma FinishAnswered(key: Query -> Material, cfg: Config, s: State, id: nat, r: Response, now: int, faults: Faults)
    requires cfg.enabled && Inv(key, cfg, s) && id in s.pending
    ensures Inv(key, cfg, DoFinish(key, cfg, s, id, Ok(r), now, faults))
  {
    var p := s.pending[id];
    var rec := Record(key(p.q), r, now, Expiry(cfg, p.q, now));
    var reply := Reply(p.q, Answer(cfg, p, Ok(r), now), p.since, now);
    LogGrows(key, cfg, s, rec);
    TallyAll(s.replies, reply);
    assert rec in s.log + [rec] && FromLiveRoute(key, reply, rec);
  }

  lemma StepInv(key: Query -> Material, cfg: Config, s: State, e: Event)
    requires cfg.enabled && Inv(key, cfg, s) && Enabled(s, e)
    ensures Inv(key, cfg, Step(key, cfg, s, e))
  {
    match e
    case Begin(id, q, now, faults) => BeginInv(key, cfg, s, id, q, now, faults);
    case Finish(id, outcome, now, faults) =>
      if outcome.Ok? {
        FinishAnswered(key, cfg, s, id, outcome.response, now, faults);
      } else {
        FinishRaised(key, cfg, s, id, outcome.error, now, faults);
      }
    case Drop(keys) =>
    case Corrupt(k) =>
  }

  ghost predicate Runs(key: Query -> Material, cfg: Config, s: State, es: seq<Event>)
    decreases |es|
  {
    es == [] || (Enabled(s, es[0]) && Runs(key, cfg, Step(key, cfg, s, es[0]), es[1..]))
  }

  ghost function After(key: Query -> Material, cfg: Config, s: State, es: seq<Event>): State
    requires Runs(key, cfg, s, es)
    decreases |es|
  {
    if es == [] then s else After(key, cfg, Step(key, cfg, s, es[0]), es[1..])
  }

  lemma {:induction false} RunInv(key: Query -> Material, cfg: Config, s: State, es: seq<Event>)
    requires cfg.enabled && Inv(key, cfg, s) && Runs(key, cfg, s, es)
    ensures Inv(key, cfg, After(key, cfg, s, es))
    decreases |es|
  {
    if es != [] {
      StepInv(key, cfg, s, es[0]);
      RunInv(key, cfg, Step(key, cfg, s, es[0]), es[1..]);
    }
  }

  /** Over any interleaving of searches, cleanups and corruption, with the cache enabled,
      every answer from the cache carries the results of an earlier successful route for
      the same key.  It is fresh by the time to live it was stored with, or marked stale,
      and is never given to a forced refresh. */
  lemma CachedAnswers(key: Query -> Material, cfg: Config, es: seq<Event>, i: nat)
    requires cfg.enabled && Runs(key, cfg, Init(), es) && i < |After(key, cfg, Init(), es).replies|
    ensures var s := After(key, cfg, Init(), es);
      var reply := s.replies[i];
      reply.out.Ok? && reply.out.response.meta.fromCache ==>
        !reply.q.forceRefresh && exists rec :: rec in s.log && FromRecord(key, cfg, reply, rec)
  {
    RunInv(key, cfg, Init(), es);
    var s := After(key, cfg, Init(), es);
    assert ReplyGood(key, cfg, s.replies[i], s.log);
  }

  /** Over any such run every answer that is not from the cache is that of the route run for
      it just then, unchanged but for the marks. */
  lemma LiveAnswers(key: Query -> Material, cfg: Config, es: seq<Event>, i: nat)
    requires cfg.enabled && Runs(key, cfg, Init(), es) && i < |After(key, cfg, Init(), es).replies|
    ensures var s := After(key, cfg, Init(), es);
      var reply := s.replies[i];
      reply.out.Ok? && !reply.out.response.meta.fromCache ==>
        exists rec :: rec in s.log && FromLiveRoute(key, reply, rec)
  {
    RunInv(key, cfg, Init(), es);
    var s := After(key, cfg, Init(), es);
    assert ReplyGood(key, cfg, s.replies[i], s.log);
  }

  /** Every reply is accounted for by one counter. */
  lemma RepliesCounted(key: Query -> Material, cfg: Config, es: seq<Event>)
    requires cfg.enabled && Runs(key, cfg, Init(), es)
    ensures CountersAgree(After(key, cfg, Init(), es))
  {
    RunInv(key, cfg, Init(), es);
  }

  // ---------------------------------------------------------- stored answers

  /** The event may change the row of the key: a cleanup of it, corruption, or another
      successful route for it. */
  predicate Touches(key: Query -> Material, s: State, e: Event, k: Material) {
    match e
    case Begin(_, _, _, _) => false
    case Finish(id, outcome, _, _) => id in s.pending && key(s.pending[id].q) == k && outcome.Ok?
    case Drop(keys) => k in keys
    case Corrupt(x) => x == k
  }

  ghost predicate Spares(key: Query -> Material, cfg: Config, s: State, es: seq<Event>, k: Material)
    requires Runs(key, cfg, s, es)
    decreases |es|
  {
    es == [] || (!Touches(key, s, es[0], k) && Spares(key, cfg, Step(key, cfg, s, es[0]), es[1..], k))
  }

  /** Nothing else changes a row that decodes. */
  lemma {:induction false} RowStays(key: Query -> Material, cfg: Config, s: State, es: seq<Event>, k: Material)
    requires Runs(key, cfg, s, es) && Spares(key, cfg, s, es, k) && k in s.store && s.store[k].response.Some?
    ensures var t := After(key, cfg, s, es); k in t.store && t.store[k] == s.store[k]
    decreases |es|
  {
    if es != [] {
      var t := Step(key, cfg, s, es[0]);
      assert k in t.store && t.store[k] == s.store[k];
      RowStays(key, cfg, t, es[1..], k);
    }
  }

  /** From the end of a successful route on, whatever follows but a cleanup, a corruption or
      another success for the same key, every request with that key that is not forced is
      answered from that route's results, without the router, exactly until the time to
      live is over; with none they serve for good. */
  lemma ServedUntilTouched(key: Query -> Material, cfg: Config, s: State, e: Event, es: seq<Event>,
                           q: Query, later: int, reading: Faults)
    requires cfg.enabled && e.Finish? && e.outcome.Ok? && !e.faults.write && Runs(key, cfg, s, [e] + es)
    requires key(q) == key(s.pending[e.id].q) && Spares(key, cfg, Step(key, cfg, s, e), es, key(q))
    requires !reading.read && !q.forceRefresh
    ensures var p := s.pending[e.id];
      var ttl := if p.q.cacheTtl.Some? then p.q.cacheTtl.value else cfg.defaultTtl;
      var started := Start(cfg, After(key, cfg, s, [e] + es).store, key(q), q, later, reading);
      && (started.Hit? <==> ttl <= 0 || later <= e.now + ttl * SECOND)
      && (started.Hit? ==>
            && StoredCopy(started.response, e.outcome.response, e.now, later)
            && !started.response.meta.stale && started.response.meta.warnings == e.outcome.response.meta.warnings)
  {
    assert ([e] + es)[1..] == es;
    RowStays(key, cfg, Step(key, cfg, s, e), es, key(q));
    var p, store := s.pending[e.id], After(key, cfg, s, [e] + es).store;
    var row := Row(Some(e.outcome.response), e.now, Expiry(cfg, p.q, e.now));
    assert store[key(q)] == row;
    assert AfterWrite(store, key(q), row, e.faults) == store;
    StoredThenServed(cfg, store, key(q), p, e.outcome.response, e.now, e.faults, q, later, reading);
  }
}
