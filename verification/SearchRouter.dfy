/** The registry and the router over mutable counters (app/search/registry.py,
    app/search/router.py): the loops of the code, each proved to compute the route that
    `Routing` describes. */
module SearchRouter {
  import opened Sequences
  import opened Text
  import opened SearchModels
  import opened Routing

  class Provider {
    const name: string

    constructor (name: string)
      ensures this.name == name
    {
      this.name := name;
    }
  }

  function NamesOf(ps: seq<Provider>): seq<string> { seq(|ps|, k requires 0 <= k < |ps| => ps[k].name) }

  predicate DistinctNames(ps: seq<Provider>) {
    forall i, j :: 0 <= i < j < |ps| ==> ps[i].name != ps[j].name
  }

  class Registry {
    var providers: seq<Provider>

    ghost predicate Valid()
      reads this
    {
      DistinctNames(providers) && "" !in NamesOf(providers)
    }

    function Names(): seq<string>
      reads this
    {
      NamesOf(providers)
    }

    constructor ()
      ensures Valid() && Names() == []
    {
      providers := [];
    }

    /** Fails, changing nothing, on an empty or taken name. */
    method Register(provider: Provider) returns (ok: bool)
      requires Valid()
      modifies this
      ensures Valid()
      ensures ok <==> provider.name != "" && provider.name !in old(Names())
      ensures providers == if ok then old(providers) + [provider] else old(providers)
    {
      if provider.name == "" || provider.name in Names() {
        return false;
      }
      assert forall k :: 0 <= k < |providers| ==> Names()[k] == providers[k].name;
      providers := providers + [provider];
      assert Names() == old(Names()) + [provider.name];
      return true;
    }

    function Get(name: string): (p: Option<Provider>)
      reads this
      ensures p.Some? ==> p.value in providers && p.value.name == name
      ensures p.Some? <==> name in Names()
    {
      Named(providers, name)
    }
  }

  function Named(ps: seq<Provider>, name: string): (p: Option<Provider>)
    ensures p.Some? ==> p.value in ps && p.value.name == name
    ensures p.Some? <==> name in NamesOf(ps)
  {
    if ps == [] then None
    else
      assert NamesOf(ps) == [ps[0].name] + NamesOf(ps[1..]);
      if ps[0].name == name then Some(ps[0]) else Named(ps[1..], name)
  }

  datatype Counts = Counts(attempts: multiset<string>, successes: multiset<string>, errors: multiset<string>, fallbacks: nat)

  /** The counters after a run that starts at `c`. */
  function Plus(c: Counts, run: Run): Counts {
    Counts(c.attempts + multiset(run.attempted), c.successes + multiset(run.succeeded),
           c.errors + multiset(run.errored), c.fallbacks + run.fallbacks)
  }

  /** The per-provider counters, as bags of provider names, and the fallback counter. */
  class Metrics {
    var attempts: multiset<string>
    var successes: multiset<string>
    var errors: multiset<string>
    var fallbacks: nat

    constructor ()
      ensures Balanced()
    {
      attempts, successes, errors, fallbacks := multiset{}, multiset{}, multiset{}, 0;
    }

    function View(): Counts
      reads this
    {
      Counts(attempts, successes, errors, fallbacks)
    }

    /** For every provider, attempts are successes plus errors. */
    ghost predicate Balanced()
      reads this
    {
      attempts == successes + errors
    }
  }

  /** An eligible candidate with the capabilities it was probed with. */
  datatype Offer = Offer(provider: Provider, caps: Capabilities)

  function OfferNames(offers: seq<Offer>): seq<string> {
    seq(|offers|, k requires 0 <= k < |offers| => offers[k].provider.name)
  }

  /** The lists that the fallback loop builds. */
  datatype Log = Log(attempts: seq<string>, failures: seq<Failure>, warnings: seq<Note>)

  predicate Offered(world: World, offers: seq<Offer>) {
    forall k :: 0 <= k < |offers| ==> world.probe(offers[k].provider.name) == Some(offers[k].caps)
  }

  class Router {
    const registry: Registry
    const metrics: Metrics
    const config: Config

    constructor (registry: Registry, metrics: Metrics, config: Config)
      ensures this.registry == registry && this.metrics == metrics && this.config == config
    {
      this.registry, this.metrics, this.config := registry, metrics, config;
    }

    /** Construction fails when the default provider is neither `auto` nor registered. */
    static method Make(registry: Registry, metrics: Metrics, config: Config) returns (r: Option<Router>)
      ensures r.Some? <==> config.defaultProvider == AUTO || config.defaultProvider in registry.Names()
      ensures r.Some? ==> r.value.registry == registry && r.value.metrics == metrics && r.value.config == config
    {
      if config.defaultProvider != AUTO && config.defaultProvider !in registry.Names() {
        return None;
      }
      var router := new Router(registry, metrics, config);
      return Some(router);
    }

    /** `ordered_candidates`: the configured names that are registered, then the rest. */
    method OrderedCandidates() returns (ordered: seq<Provider>)
      requires registry.Valid()
      ensures NamesOf(ordered) == CandidateOrder(config.order, registry.Names())
    {
      var seen;
      ordered, seen := Configured();
      ordered := Remaining(ordered, seen);
    }

    method Configured() returns (ordered: seq<Provider>, seen: set<Provider>)
      requires registry.Valid()
      ensures SeenIs(ordered, seen, registry.providers)
      ensures NamesOf(ordered) == Collect([], config.order, registry.Names())
    {
      ordered, seen := [], {};
      var order := config.order;
      ghost var names := registry.Names();
      for k := 0 to |order|
        invariant SeenIs(ordered, seen, registry.providers)
        invariant Collect(NamesOf(ordered), order[k..], names) == Collect([], order, names)
      {
        var found := registry.Get(order[k]);
        if found.Some? {
          SeenNames(ordered, seen, registry.providers, found.value);
          if found.value !in seen {
            seen := seen + {found.value};
            ordered := ordered + [found.value];
          }
        }
      }
    }

    method Remaining(front: seq<Provider>, before: set<Provider>) returns (ordered: seq<Provider>)
      requires SeenIs(front, before, registry.providers)
      ensures NamesOf(ordered) == Collect(NamesOf(front), registry.Names(), registry.Names())
    {
      ordered := front;
      var seen := before;
      ghost var names := registry.Names();
      for k := 0 to |registry.providers|
        invariant SeenIs(ordered, seen, registry.providers)
        invariant Collect(NamesOf(ordered), names[k..], names) == Collect(NamesOf(front), names, names)
      {
        var provider := registry.providers[k];
        SeenNames(ordered, seen, registry.providers, provider);
        assert names[k] == provider.name;
        if provider !in seen {
          seen := seen + {provider};
          ordered := ordered + [provider];
        }
      }
    }

    ghost predicate SeenIs(ordered: seq<Provider>, seen: set<Provider>, all: seq<Provider>) {
      && DistinctNames(all)
      && (forall p :: p in seen ==> p in ordered)
      && (forall p :: p in ordered ==> p in seen && p in all)
    }

    /** Among registered providers, being seen is having one's name listed. */
    lemma SeenNames(ordered: seq<Provider>, seen: set<Provider>, all: seq<Provider>, p: Provider)
      requires SeenIs(ordered, seen, all) && p in all
      ensures p in seen <==> p.name in NamesOf(ordered)
      ensures NamesOf(ordered + [p]) == NamesOf(ordered) + [p.name]
      ensures SeenIs(ordered + [p], seen + {p}, all)
    {
      var names := NamesOf(ordered);
      if p in ordered {
        var k :| 0 <= k < |ordered| && ordered[k] == p;
        assert names[k] == p.name;
      }
      if p.name in names {
        var k :| 0 <= k < |names| && names[k] == p.name;
        assert ordered[k] in all;
      }
    }

    /** The first `k` candidates are offered or skipped, in order. */
    ghost predicate Probed(world: World, q: Query, cs: seq<string>, k: nat, eligible: seq<Offer>, skipped: seq<Skip>) {
      && k <= |cs|
      && OfferNames(eligible) == Eligible(world, q, cs[..k]) && Offered(world, eligible)
      && skipped == SkippedOf(world, q, cs[..k])
    }

    lemma OfferOne(eligible: seq<Offer>, offer: Offer)
      ensures OfferNames(eligible + [offer]) == OfferNames(eligible) + [offer.provider.name]
    {
    }

    /** The probe loop. */
    method ProbeAll(candidates: seq<Provider>, world: World, q: Query)
      returns (eligible: seq<Offer>, skipped: seq<Skip>)
      ensures OfferNames(eligible) == Eligible(world, q, NamesOf(candidates))
      ensures skipped == SkippedOf(world, q, NamesOf(candidates))
      ensures Offered(world, eligible)
    {
      eligible, skipped := [], [];
      ghost var cs := NamesOf(candidates);
      for k := 0 to |candidates|
        invariant Probed(world, q, cs, k, eligible, skipped)
      {
        var provider := candidates[k];
        NextCandidate(world, q, cs, k);
        var probed := world.probe(provider.name);
        if probed.None? {
          skipped := skipped + [Skip(provider.name, ProbeFailed)];
          continue;
        }
        if !probed.value.available {
          skipped := skipped + [Skip(provider.name, NotAvailable)];
          continue;
        }
        var missing := ListStrict(probed.value, q);
        if missing != [] {
          skipped := skipped + [Skip(provider.name, Mismatch(missing))];
          continue;
        }
        OfferOne(eligible, Offer(provider, probed.value));
        eligible := eligible + [Offer(provider, probed.value)];
      }
      assert cs[..|cs|] == cs;
    }

    /** The eligible providers before `i` were tried and all failed transiently. */
    ghost predicate Tried(world: World, es: seq<string>, i: nat, before: Counts, now: Counts) {
      && i <= |es|
      && Decisive(world, es) == i + Decisive(world, es[i..])
      && now == Counts(before.attempts + multiset(es[..i]), before.successes, before.errors + multiset(es[..i]),
                       before.fallbacks + if i < |es| then i else Max(0, i - 1))
    }

    ghost predicate Noted(world: World, es: seq<string>, notes: seq<Note>, i: nat, log: Log) {
      && i <= |es| && log.attempts == es[..i]
      && log.failures == Failures(world, es, i) && log.warnings == notes + FailNotes(world, es, i)
    }

    function Failing(c: Counts, name: string): Counts {
      c.(attempts := c.attempts + multiset{name}, errors := c.errors + multiset{name})
    }

    function Succeeding(c: Counts, name: string): Counts {
      c.(attempts := c.attempts + multiset{name}, successes := c.successes + multiset{name})
    }

    function Extended(log: Log, name: string, failure: Failure, next: Option<string>): Log {
      Log(log.attempts + [name], log.failures + [failure], log.warnings + [Failed(name, failure, next)])
    }

    function FellBack(c: Counts, next: Option<string>): Counts {
      if next.Some? then c.(fallbacks := c.fallbacks + 1) else c
    }

    function NextOf(es: seq<string>, i: nat): Option<string> { if i + 1 < |es| then Some(es[i + 1]) else None }

    lemma TriedOne(world: World, es: seq<string>, i: nat, before: Counts, now: Counts)
      requires i < |es| && FailsTransiently(world, es[i]) && Tried(world, es, i, before, now)
      ensures Tried(world, es, i + 1, before, FellBack(Failing(now, es[i]), NextOf(es, i)))
    {
      assert es[..i + 1] == es[..i] + [es[i]];
      assert es[i..] == [es[i]] + es[i + 1..];
    }

    lemma NotedOne(world: World, es: seq<string>, notes: seq<Note>, i: nat, log: Log, failure: Failure)
      requires i < |es| && Noted(world, es, notes, i, log) && world.outcome(es[i]) == Raise(Transient(failure))
      ensures Noted(world, es, notes, i + 1, Extended(log, es[i], failure, NextOf(es, i)))
    {
      assert es[..i + 1] == es[..i] + [es[i]];
    }

    /** What the fallback loop leaves: on an answer, the attempts and warnings that go into
        its metadata. */
    ghost predicate Fell(world: World, es: seq<string>, notes: seq<Note>, before: Counts, now: Counts,
                         out: Outcome, log: Log)
      requires es != []
    {
      var run := Fall(world, es);
      && out == run.outcome && now == Plus(before, run)
      && (out.Ok? ==> log.attempts == run.attempted && log.warnings == notes + FailNotes(world, es, |log.attempts| - 1))
    }

    lemma FellFailing(world: World, es: seq<string>, notes: seq<Note>, i: nat, before: Counts, now: Counts, log: Log)
      requires i < |es| && !FailsTransiently(world, es[i]) && Tried(world, es, i, before, now)
      requires world.outcome(es[i]).Raise?
      ensures Fell(world, es, notes, before, Failing(now, es[i]), world.outcome(es[i]), log)
    {
      assert es[..i + 1] == es[..i] + [es[i]];
    }

    lemma SucceedingPlus(world: World, es: seq<string>, i: nat, before: Counts, now: Counts)
      requires i < |es| && Tried(world, es, i, before, now) && world.outcome(es[i]).Ok?
      ensures Fall(world, es) == Run(world.outcome(es[i]), es[..i + 1], [es[i]], es[..i], i)
      ensures Succeeding(now, es[i]) == Plus(before, Fall(world, es))
    {
      assert es[..i + 1] == es[..i] + [es[i]];
    }

    lemma FellSucceeding(world: World, es: seq<string>, notes: seq<Note>, i: nat, before: Counts, now: Counts, log: Log)
      requires i < |es| && Tried(world, es, i, before, now) && Noted(world, es, notes, i, log)
      requires world.outcome(es[i]).Ok?
      ensures Fell(world, es, notes, before, Succeeding(now, es[i]), world.outcome(es[i]),
                   log.(attempts := log.attempts + [es[i]]))
    {
      SucceedingPlus(world, es, i, before, now);
      assert es[..i + 1] == es[..i] + [es[i]];
    }

    lemma FailedAttempt(world: World, q: Query, es: seq<string>, notes: seq<Note>, before: Counts, now: Counts,
                        out: Outcome, log: Log)
      requires es != [] && out.Raise? && Fell(world, es, notes, before, now, out, log)
      requires forall n :: n in es ==> world.probe(n).Some?
      ensures Attempt(world, q, es, notes).outcome == out && now == Plus(before, Attempt(world, q, es, notes))
    {
    }

    /** Stamping the answer changes nothing that is counted. */
    lemma StampedRun(world: World, q: Query, es: seq<string>, notes: seq<Note>, caps: Capabilities)
      requires es != [] && Fall(world, es).outcome.Ok? && forall n :: n in es ==> world.probe(n).Some?
      requires world.probe(es[|Fall(world, es).attempted| - 1]) == Some(caps)
      ensures var run := Fall(world, es);
        var notes' := notes + FailNotes(world, es, |run.attempted| - 1);
        Attempt(world, q, es, notes) == run.(outcome := Ok(Stamp(run.outcome.response, run.attempted, notes', caps, q)))
    {
    }

    lemma AnsweredAttempt(world: World, q: Query, es: seq<string>, notes: seq<Note>, before: Counts, now: Counts,
                          out: Outcome, log: Log, caps: Capabilities)
      requires es != [] && out.Ok? && Fell(world, es, notes, before, now, out, log)
      requires forall n :: n in es ==> world.probe(n).Some?
      requires 1 <= |log.attempts| <= |es| && world.probe(es[|log.attempts| - 1]) == Some(caps)
      ensures now == Plus(before, Attempt(world, q, es, notes))
      ensures Attempt(world, q, es, notes).outcome == Ok(Stamp(out.response, log.attempts, log.warnings, caps, q))
    {
      StampedRun(world, q, es, notes, caps);
      PlusOutcome(before, Fall(world, es), Attempt(world, q, es, notes).outcome);
    }

    lemma PlusOutcome(before: Counts, run: Run, outcome: Outcome)
      ensures Plus(before, run.(outcome := outcome)) == Plus(before, run)
    {
    }

    /** A transient failure is noted; a fallback is counted if there is a next provider. */
    method FallBack(log: Log, name: string, failure: Failure, next: Option<string>) returns (more: Log)
      modifies metrics
      ensures more == Extended(log, name, failure, next)
      ensures metrics.View() == FellBack(old(metrics.View()), next)
    {
      if next.Some? {
        metrics.fallbacks := metrics.fallbacks + 1;
      }
      more := Log(log.attempts + [name], log.failures + [failure], log.warnings + [Failed(name, failure, next)]);
    }

    /** The fallback loop over the eligible providers. */
    method TryEligible(eligible: seq<Offer>, notes: seq<Note>, world: World) returns (out: Outcome, log: Log)
      requires eligible != []
      modifies metrics
      ensures Fell(world, OfferNames(eligible), notes, old(metrics.View()), metrics.View(), out, log)
    {
      ghost var es := OfferNames(eligible);
      ghost var before := metrics.View();
      log := Log([], [], notes);
      TriedNone(world, es, notes, before);
      for i := 0 to |eligible|
        invariant Tried(world, es, i, before, metrics.View()) && Noted(world, es, notes, i, log)
      {
        var name := eligible[i].provider.name;
        assert name == es[i];
        ghost var now := metrics.View();
        out := CallSearch(name, world);
        if out.Ok? {
          FellSucceeding(world, es, notes, i, before, now, log);
          log := log.(attempts := log.attempts + [name]);
          return;
        }
        if !out.error.Transient? {
          FellFailing(world, es, notes, i, before, now, log);
          return;
        }
        TriedOne(world, es, i, before, now);
        NotedOne(world, es, notes, i, log, out.error.failure);
        var next := if i + 1 < |eligible| then Some(eligible[i + 1].provider.name) else None;
        assert next == NextOf(es, i);
        log := FallBack(log, name, out.error.failure, next);
      }
      FellExhausted(world, es, notes, before, metrics.View(), log);
      out := Raise(NoProvider(Exhausted(log.attempts, log.failures)));
    }

    lemma FellExhausted(world: World, es: seq<string>, notes: seq<Note>, before: Counts, now: Counts, log: Log)
      requires es != [] && Tried(world, es, |es|, before, now) && Noted(world, es, notes, |es|, log)
      ensures Fell(world, es, notes, before, now, Raise(NoProvider(Exhausted(log.attempts, log.failures))), log)
    {
      assert es[..|es|] == es;
    }

    lemma TriedNone(world: World, es: seq<string>, notes: seq<Note>, before: Counts)
      requires es != []
      ensures Tried(world, es, 0, before, before) && Noted(world, es, notes, 0, Log([], [], notes))
    {
      assert es[..0] == [] && es[0..] == es;
      assert notes + [] == notes;
    }

    /** One counted call to a provider's `search`. */
    method CallSearch(name: string, world: World) returns (outcome: Outcome)
      modifies metrics
      ensures outcome == world.outcome(name)
      ensures var before := old(metrics.View());
        metrics.View() == if outcome.Ok? then Succeeding(before, name) else Failing(before, name)
    {
      metrics.attempts := metrics.attempts + multiset{name};
      outcome := world.outcome(name);
      if outcome.Raise? {
        metrics.errors := metrics.errors + multiset{name};
      } else {
        metrics.successes := metrics.successes + multiset{name};
      }
    }

    /** `_route_auto`. */
    method RouteAuto(world: World, q: Query) returns (out: Outcome)
      requires registry.Valid()
      modifies metrics
      ensures var run := AutoRun(world, q, CandidateOrder(config.order, registry.Names()));
        out == run.outcome && metrics.View() == Plus(old(metrics.View()), run)
    {
      var candidates := OrderedCandidates();
      out := RouteOver(candidates, world, q);
    }

    method RouteOver(candidates: seq<Provider>, world: World, q: Query) returns (out: Outcome)
      modifies metrics
      ensures var run := AutoRun(world, q, NamesOf(candidates));
        out == run.outcome && metrics.View() == Plus(old(metrics.View()), run)
    {
      if candidates == [] {
        return Raise(NoProvider(EmptyRegistry));
      }
      assert |NamesOf(candidates)| > 0;
      var eligible, skipped := ProbeAll(candidates, world, q);
      if eligible == [] {
        return Raise(NoProvider(Candidates(skipped)));
      }
      out := RouteEligible(eligible, SkipNotes(skipped), world, q);
    }

    method RouteEligible(eligible: seq<Offer>, notes: seq<Note>, world: World, q: Query) returns (out: Outcome)
      requires eligible != [] && Offered(world, eligible)
      requires forall n :: n in OfferNames(eligible) ==> world.probe(n).Some?
      modifies metrics
      ensures var run := Attempt(world, q, OfferNames(eligible), notes);
        out == run.outcome && metrics.View() == Plus(old(metrics.View()), run)
    {
      var log;
      out, log := TryEligible(eligible, notes, world);
      ghost var es, now := OfferNames(eligible), metrics.View();
      if out.Raise? {
        FailedAttempt(world, q, es, notes, old(metrics.View()), now, out, log);
      } else {
        var selected := eligible[|log.attempts| - 1];
        assert es[|log.attempts| - 1] == selected.provider.name;
        AnsweredAttempt(world, q, es, notes, old(metrics.View()), now, out, log, selected.caps);
        var stamped := StampAnswer(out.response, log.attempts, log.warnings, selected.caps, q);
        out := Ok(stamped);
      }
    }

    /** The metadata of an answer in auto mode: the routing notes in front of the provider's
        warnings, and the negotiated tokens merged in. */
    static method StampAnswer(r: Response, attempts: seq<string>, notes: seq<Note>, caps: Capabilities, q: Query)
      returns (stamped: Response)
      ensures stamped == Stamp(r, attempts, notes, caps, q)
    {
      var meta := r.meta.(attempted := attempts, fallback := |attempts| > 1);
      if notes != [] {
        meta := meta.(warnings := notes + meta.warnings);
      }
      var degraded := MergeDegradations(meta.degraded, caps, q);
      stamped := r.(meta := meta.(degraded := degraded));
    }

    static method StampExplicit(r: Response, name: string, caps: Capabilities, q: Query) returns (stamped: Response)
      ensures stamped == ExplicitStamp(r, name, caps, q)
    {
      var degraded := MergeDegradations(r.meta.degraded, caps, q);
      stamped := r.(meta := r.meta.(attempted := [name], fallback := false, degraded := degraded));
    }

    /** `_route_explicit`. */
    method RouteExplicit(name: string, world: World, q: Query) returns (out: Outcome)
      requires registry.Valid()
      modifies metrics
      ensures var run := ExplicitRun(world, q, registry.Names(), name);
        out == run.outcome && metrics.View() == Plus(old(metrics.View()), run)
    {
      var provider := registry.Get(name);
      if provider.None? {
        return Raise(Validation(name));
      }
      var probed := world.probe(name);
      if probed.None? || !probed.value.available {
        return Raise(Transient(Unavailable));
      }
      var missing := ListStrict(probed.value, q);
      if missing != [] {
        return Raise(Unsupported(missing));
      }
      var outcome := CallSearch(name, world);
      if outcome.Raise? {
        return outcome;
      }
      var stamped := StampExplicit(outcome.response, name, probed.value, q);
      return Ok(stamped);
    }

    /** `route`: the route that the specification describes, counted; and over any
        sequence of routes the counters stay balanced. */
    method Route(world: World, q: Query) returns (out: Outcome)
      requires registry.Valid()
      modifies metrics
      ensures var run := RouteRun(world, config, registry.Names(), q);
        out == run.outcome && metrics.View() == Plus(old(metrics.View()), run)
      ensures old(metrics.Balanced()) ==> metrics.Balanced()
    {
      var requested := Strip(q.provider);
      var mode := if requested == AUTO then config.defaultProvider else requested;
      RunBalanced(world, config, registry.Names(), q);
      if mode == AUTO {
        out := RouteAuto(world, q);
      } else {
        out := RouteExplicit(mode, world, q);
      }
    }
  }
}
