/** The search cache object around the router (app/search/cache.py), and exactly when a
    failed search is covered by a stale entry. */
module SearchCache {
  import opened Sequences
  import opened SearchModels
  import opened SearchKey
  import opened SearchCacheModel
  import Routing
  import opened SearchRouter

  // ------------------------------------------------------------------ masking

  predicate Unreachable(world: Routing.World, name: string) {
    world.probe(name).None? || !world.probe(name).value.available
  }

  /** The providers are down: some could serve the request and all of those failed
      transiently, or there are candidates and every one of them is unreachable. */
  ghost predicate ProvidersDown(world: Routing.World, q: Query, cs: seq<string>) {
    && cs != []
    && (forall n :: n in cs && Routing.CanServe(world, q, n) ==> Routing.FailsTransiently(world, n))
    && ((exists n :: n in cs && Routing.CanServe(world, q, n)) || (forall n :: n in cs ==> Unreachable(world, n)))
  }

  /** The deciding provider itself raised a `NoProvider` error that reads as an outage. */
  ghost predicate ProviderSaysDown(world: Routing.World, q: Query, cs: seq<string>) {
    exists i: nat :: Routing.Decides(world, q, cs, i) && RaisesOutage(world, cs[i])
  }

  predicate RaisesOutage(world: Routing.World, name: string) {
    var outcome := world.outcome(name);
    outcome.Raise? && outcome.error.NoProvider? && StaleEligible(outcome.error)
  }

  lemma {:induction false} SkippedUnreachable(world: Routing.World, q: Query, cs: seq<string>)
    requires forall n :: n in cs ==> !Routing.CanServe(world, q, n)
    ensures |Routing.SkippedOf(world, q, cs)| == |cs|
    ensures (forall k :: 0 <= k < |cs| ==> !Routing.SkippedOf(world, q, cs)[k].reason.Mismatch?)
       <==> (forall n :: n in cs ==> Unreachable(world, n))
  {
    if cs != [] {
      SkippedUnreachable(world, q, cs[1..]);
      assert cs[0] in cs;
      Routing.VerdictIsCanServe(world, q, cs[0]);
      var rest := Routing.SkippedOf(world, q, cs[1..]);
      var all := Routing.SkippedOf(world, q, cs);
      assert all == [all[0]] + rest;
      assert all[0].reason.Mismatch? <==> !Unreachable(world, cs[0]);
      assert forall k :: 0 <= k < |rest| ==> all[k + 1] == rest[k];
    }
  }

  /** A route without a deciding provider is covered exactly when the providers are down. */
  lemma UndecidedMasked(world: Routing.World, q: Query, cs: seq<string>)
    requires forall i: nat :: !Routing.Decides(world, q, cs, i)
    ensures Routing.AutoRun(world, q, cs).outcome.Raise?
    ensures StaleEligible(Routing.AutoRun(world, q, cs).outcome.error) <==> ProvidersDown(world, q, cs)
  {
    Routing.NobodyDecides(world, q, cs);
    Routing.EligibleServe(world, q, cs);
    var es := Routing.Eligible(world, q, cs);
    if cs == [] {
    } else if es == [] {
      forall n | n in cs
        ensures !Routing.CanServe(world, q, n)
      {
        assert n !in es;
      }
      SkippedUnreachable(world, q, cs);
    } else {
      assert es[0] in es;
    }
  }

  lemma DecidedMasked(world: Routing.World, q: Query, cs: seq<string>, i: nat)
    requires Routing.Decides(world, q, cs, i)
    ensures var outcome := Routing.AutoRun(world, q, cs).outcome;
      (outcome.Raise? && StaleEligible(outcome.error)) <==> RaisesOutage(world, cs[i])
    ensures !ProvidersDown(world, q, cs)
  {
    Routing.DeciderDecides(world, q, cs, i);
    assert cs[i] in cs;
  }

  lemma OneDecider(world: Routing.World, q: Query, cs: seq<string>, i: nat, j: nat)
    requires Routing.Decides(world, q, cs, i) && Routing.Decides(world, q, cs, j)
    ensures i == j
  {
  }

  /** A failed auto run is eligible for a stale answer exactly when the providers are down
      or the deciding one says so.  An empty registry, or a mismatch among candidates that
      none can serve, never is. */
  lemma AutoMasked(world: Routing.World, q: Query, cs: seq<string>)
    ensures var outcome := Routing.AutoRun(world, q, cs).outcome;
      (outcome.Raise? && StaleEligible(outcome.error))
      <==> ProvidersDown(world, q, cs) || ProviderSaysDown(world, q, cs)
  {
    if i: nat :| Routing.Decides(world, q, cs, i) {
      DecidedMasked(world, q, cs, i);
      forall j: nat | Routing.Decides(world, q, cs, j)
        ensures j == i
      {
        OneDecider(world, q, cs, i, j);
      }
    } else {
      UndecidedMasked(world, q, cs);
    }
  }

  /** An explicit request is covered exactly when its provider is registered and is
      unreachable, or can serve the request and fails transiently or reports an outage. */
  lemma ExplicitMasked(world: Routing.World, q: Query, names: seq<string>, name: string)
    ensures var outcome := Routing.ExplicitRun(world, q, names, name).outcome;
      (outcome.Raise? && StaleEligible(outcome.error))
      <==> name in names && (Unreachable(world, name)
             || (Routing.CanServe(world, q, name)
                 && (Routing.FailsTransiently(world, name) || RaisesOutage(world, name))))
  {
    Routing.VerdictIsCanServe(world, q, name);
  }

  /** A failed auto search is answered with stale data exactly when there is a cached entry,
      stale answers are on, no refresh is forced, and the providers are down or the
      deciding one says so. */
  lemma StaleAnswerIff(cfg: Config, p: Pending, world: Routing.World, cs: seq<string>, now: int)
    requires cfg.enabled
    ensures var outcome := Routing.AutoRun(world, p.q, cs).outcome;
      var answer := Answer(cfg, p, outcome, now);
      (answer.Ok? && answer.response.meta.stale)
      <==> cfg.staleIfError && p.cached.Some? && !p.q.forceRefresh
           && (ProvidersDown(world, p.q, cs) || ProviderSaysDown(world, p.q, cs))
  {
    AutoMasked(world, p.q, cs);
  }

  // ------------------------------------------------------------------- object

  class SearchCache {
    const cfg: Config
    const router: Router
    const key: Query -> Material
    var store: Store
    var counters: Counters
    ghost var model: State

    /** The object is in the model's state, which with the cache enabled keeps its
        invariant. */
    ghost predicate Valid()
      reads this
    {
      store == model.store && counters == model.counters && (cfg.enabled ==> Inv(key, cfg, model))
    }

    constructor (cfg: Config, router: Router, key: Query -> Material)
      ensures this.cfg == cfg && this.router == router && this.key == key
      ensures Valid() && model == Init()
    {
      this.cfg, this.router, this.key := cfg, router, key;
      store, counters, model := map[], Counters(0, 0, 0, 0), Init();
    }

    /** The reply came from the store: from a logged successful route for the same key, fresh
        when it is given, or marked stale, allowed to be, and expired since before the search
        began; and no refresh was forced. */
    ghost predicate FromRoute(reply: Reply)
      reads this
    {
      !reply.q.forceRefresh && exists rec :: rec in model.log && FromRecord(key, cfg, reply, rec)
    }

    /** So did every answer that the object gave from its store. */
    lemma ServedFromRoute(i: nat)
      requires Valid() && cfg.enabled && i < |model.replies|
      ensures var reply := model.replies[i];
        reply.out.Ok? && reply.out.response.meta.fromCache ==> FromRoute(reply)
    {
      assert ReplyGood(key, cfg, model.replies[i], model.log);
    }

    /** `_get`. */
    method Get(k: Material, faults: Faults) returns (entry: Option<Entry>)
      modifies this`store
      ensures entry == Read(old(store), k, faults) && store == AfterRead(old(store), k, faults)
    {
      if faults.read || k !in store {
        return None;
      }
      var row := store[k];
      if row.response.None? {
        if !faults.discard {
          store := store - {k};
        }
        return None;
      }
      return Some(Entry(row.response.value, row.fetchedAt, row.expiresAt));
    }

    /** `_put`. */
    method Put(k: Material, q: Query, response: Response, now: int, faults: Faults)
      modifies this`store
      ensures store == AfterWrite(old(store), k, Row(Some(response), now, Expiry(cfg, q, now)), faults)
    {
      var ttl := if q.cacheTtl.Some? then q.cacheTtl.value else cfg.defaultTtl;
      var expiresAt := if ttl > 0 then Some(now + ttl * SECOND) else None;
      if !faults.write {
        store := store[k := Row(Some(response), now, expiresAt)];
      }
    }

    /** Rows that a cleanup of the table deletes. */
    method DeleteRows(keys: set<Material>)
      requires Valid()
      modifies this
      ensures Valid() && model == Step(key, cfg, old(model), Drop(keys))
    {
      AdvanceInv(Drop(keys));
      store := store - keys;
      model := Step(key, cfg, model, Drop(keys));
    }

    lemma AdvanceInv(e: Event)
      requires Valid() && Enabled(model, e)
      ensures cfg.enabled ==> Inv(key, cfg, Step(key, cfg, model, e))
    {
      if cfg.enabled {
        StepInv(key, cfg, model, e);
      }
    }

    /** `search` up to the awaited route, as the search `id`. */
    method Begin(q: Query, now: int, faults: Faults, ghost id: nat) returns (started: Started)
      requires Valid() && id !in model.pending
      modifies this
      ensures Valid() && model == Step(key, cfg, old(model), Event.Begin(id, q, now, faults))
      ensures started == Start(cfg, old(store), key(q), q, now, faults)
      ensures store == StartStore(cfg, old(store), key(q), q, faults)
      ensures counters == old(counters).(hits := old(counters).hits + if started.Hit? then 1 else 0)
      ensures started.Hit? ==>
        && key(q) in old(store) && old(store)[key(q)].response.Some?
        && StoredCopy(started.response, old(store)[key(q)].response.value, old(store)[key(q)].fetchedAt, now)
        && !started.response.meta.stale
        && started.response.meta.warnings == old(store)[key(q)].response.value.meta.warnings
      ensures started.Hit? ==> model.pending == old(model).pending && FromRoute(Reply(q, Ok(started.response), now, now))
      ensures started.Await? ==> model.pending == old(model).pending[id := started.pending]
    {
      if Start(cfg, store, key(q), q, now, faults).Hit? {
        HitGood(key, cfg, model, q, now, faults);
      }
      AdvanceInv(Event.Begin(id, q, now, faults));
      model := Step(key, cfg, model, Event.Begin(id, q, now, faults));
      if !cfg.enabled {
        return Await(Pending(q, None, now));
      }
      var cached := None;
      if !q.forceRefresh {
        cached := Get(key(q), faults);
        if cached.Some? && !IsExpired(cached.value.expiresAt, now) {
          counters := counters.(hits := counters.hits + 1);
          return Hit(Served(cached.value, now, false, cached.value.response.meta.warnings));
        }
      }
      return Await(Pending(q, cached, now));
    }

    /** `search` from the outcome of the route on. */
    method Finish(p: Pending, outcome: Outcome, now: int, faults: Faults, ghost id: nat) returns (answer: Outcome)
      requires Valid() && id in model.pending && model.pending[id] == p
      modifies this
      ensures Valid() && model == Step(key, cfg, old(model), Event.Finish(id, outcome, now, faults))
      ensures answer == Answer(cfg, p, outcome, now)
      ensures cfg.enabled && answer.Ok? && answer.response.meta.fromCache ==> FromRoute(Reply(p.q, answer, p.since, now))
      ensures !cfg.enabled ==> answer == outcome
      ensures cfg.enabled && outcome.Ok? ==> answer.Ok? && LiveCopy(answer.response, outcome.response)
      ensures cfg.enabled && outcome.Raise? ==>
        if cfg.staleIfError && p.cached.Some? && !p.q.forceRefresh && StaleEligible(outcome.error)
        then answer.Ok? && answer.response.meta.stale
             && StoredCopy(answer.response, p.cached.value.response, p.cached.value.fetchedAt, now)
             && StaleNoted(answer.response.meta.warnings, p.cached.value.response.meta.warnings, ErrorType(outcome.error))
        else answer == outcome
      ensures counters == Counted(cfg, old(counters), p, outcome)
      ensures store == if cfg.enabled && outcome.Ok?
        then AfterWrite(old(store), key(p.q), Row(Some(outcome.response), now, Expiry(cfg, p.q, now)), faults)
        else old(store)
    {
      if cfg.enabled && outcome.Raise? && Masked(cfg, p, outcome.error) {
        MaskedGood(key, cfg, model.log, p, outcome.error, now);
      }
      AdvanceInv(Event.Finish(id, outcome, now, faults));
      model := Step(key, cfg, model, Event.Finish(id, outcome, now, faults));
      if !cfg.enabled {
        return outcome;
      }
      match outcome
      case Raise(e) =>
        if e.Foreign? {
          return outcome;
        }
        counters := counters.(errors := counters.errors + 1);
        if cfg.staleIfError && p.cached.Some? && !p.q.forceRefresh && StaleEligible(e) {
          counters := counters.(staleHits := counters.staleHits + 1);
          var entry := p.cached.value;
          var warnings := WithNote(entry.response.meta.warnings, StaleServed(ErrorType(e)));
          return Ok(Served(entry, now, true, warnings));
        }
        return outcome;
      case Ok(response) =>
        counters := counters.(misses := counters.misses + 1);
        Put(key(p.q), p.q, response, now, faults);
        return Ok(Freshly(response));
    }

    /** `search` with nothing in between.  An invalid request is refused before the cache is
        touched; a valid one is answered by the fresh entry or by the route, and in auto
        mode a stale entry stands in exactly when the providers are down. */
    method Search(
      q: Query, world: Routing.World, now: int, later: int, reading: Faults, writing: Faults, ghost id: nat)
      returns (answer: Outcome)
      requires Valid() && id !in model.pending && router.registry.Valid()
      modifies this, router.metrics
      ensures Valid()
      ensures !ValidQuery(q) ==> answer.Raise? && answer.error.Validation? && model == old(model)
      ensures cfg.enabled && answer.Ok? && answer.response.meta.fromCache ==>
        FromRoute(Reply(q, answer, now, if answer.response.meta.stale then later else now))
      ensures ValidQuery(q) ==>
        var started := Start(cfg, old(store), key(q), q, now, reading);
        var run := Routing.RouteRun(world, router.config, router.registry.Names(), q);
        var begun := Step(key, cfg, old(model), Event.Begin(id, q, now, reading));
        match started
        case Hit(response) =>
          && answer == Ok(response) && model == begun
          && router.metrics.View() == old(router.metrics.View())
        case Await(p) =>
          && (run.outcome.Ok? ==>
                && answer.Ok?
                && if cfg.enabled then LiveCopy(answer.response, run.outcome.response) else answer == run.outcome)
          && (run.outcome.Raise? && !answer.Ok? ==> answer == run.outcome)
          && answer == Answer(cfg, p, run.outcome, later)
          && id in begun.pending && model == Step(key, cfg, begun, Event.Finish(id, run.outcome, later, writing))
          && router.metrics.View() == Plus(old(router.metrics.View()), run)
    {
      if !ValidQuery(q) {
        return Raise(Validation("Invalid search request"));
      }
      var started := Begin(q, now, reading, id);
      match started
      case Hit(response) =>
        return Ok(response);
      case Await(p) =>
        var outcome := router.Route(world, q);
        answer := Finish(p, outcome, later, writing, id);
    }
  }
}
