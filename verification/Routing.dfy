/** What a routed search does, as a function of what the providers answer: the ordering of
    candidates, the negotiation and the fallback of app/search/router.py. */
module Routing {
  import opened Sequences
  import opened Text
  import opened SearchModels

  const AUTO := "auto"

  /** The providers as one request meets them: each probe (`None` when it raises or times
      out) and the outcome of each call to `search`. */
  datatype World = World(probe: string -> Option<Capabilities>, outcome: string -> Outcome)

  /** A finished route: its outcome, and what it adds to the per-provider counters. */
  datatype Run = Run(
    outcome: Outcome, attempted: seq<string>, succeeded: seq<string>, errored: seq<string>, fallbacks: nat)

  function Refused(error: Error): Run { Run(Raise(error), [], [], [], 0) }

  // -------------------------------------------------------- candidate order

  function CollectOne(have: seq<string>, x: string, names: seq<string>): seq<string> {
    if x in names && x !in have then have + [x] else have
  }

  /** Appends the registered names of `list` that are not there yet. */
  function Collect(have: seq<string>, list: seq<string>, names: seq<string>): seq<string>
    decreases list
  {
    if list == [] then have
    else Collect(CollectOne(have, list[0], names), list[1..], names)
  }

  /** `ordered_candidates`: the configured order first, then the order of registration. */
  function CandidateOrder(order: seq<string>, names: seq<string>): seq<string> {
    Collect(Collect([], order, names), names, names)
  }

  function FirstIndex(s: seq<string>, x: string): nat {
    if s == [] || s[0] == x then 0 else 1 + FirstIndex(s[1..], x)
  }

  /** `have` lists the registered names of `done` once each, by first mention. */
  predicate Gathered(done: seq<string>, have: seq<string>, names: seq<string>) {
    && (forall n :: n in have ==> n in done && n in names)
    && (forall n :: n in done && n in names ==> n in have)
    && (forall i, j :: 0 <= i < j < |have| ==> FirstIndex(done, have[i]) < FirstIndex(done, have[j]))
  }

  lemma {:induction false} FirstIndexAppend(s: seq<string>, x: string, y: string)
    ensures y in s ==> FirstIndex(s + [x], y) == FirstIndex(s, y) < |s|
    ensures y !in s ==> FirstIndex(s + [x], y) == if x == y then |s| else |s| + 1
  {
    if s == [] {
      assert [] + [x] == [x];
    } else {
      assert (s + [x])[1..] == s[1..] + [x];
      FirstIndexAppend(s[1..], x, y);
    }
  }

  lemma GatherOne(done: seq<string>, have: seq<string>, names: seq<string>, x: string)
    requires Gathered(done, have, names)
    ensures Gathered(done + [x], CollectOne(have, x, names), names)
  {
    forall n
      ensures n in done ==> FirstIndex(done + [x], n) == FirstIndex(done, n) < |done|
      ensures n !in done ==> FirstIndex(done + [x], n) >= |done|
    {
      FirstIndexAppend(done, x, n);
    }
    var more := CollectOne(have, x, names);
    forall i, j | 0 <= i < j < |more|
      ensures FirstIndex(done + [x], more[i]) < FirstIndex(done + [x], more[j])
    {
      assert more[i] == have[i] && have[i] in have;
      if j < |have| {
        assert have[j] in have;
      }
    }
  }

  lemma {:induction false} CollectGathers(done: seq<string>, have: seq<string>, list: seq<string>, names: seq<string>)
    requires Gathered(done, have, names)
    ensures Gathered(done + list, Collect(have, list, names), names)
    decreases list
  {
    if list == [] {
      assert done + list == done;
    } else {
      GatherOne(done, have, names, list[0]);
      assert done + list == (done + [list[0]]) + list[1..];
      CollectGathers(done + [list[0]], CollectOne(have, list[0], names), list[1..], names);
    }
  }

  /** The candidates are exactly the registered names, each once, in the order in which
      the configured order followed by the registry first mentions them. */
  lemma CandidateOrderRanks(order: seq<string>, names: seq<string>)
    ensures Gathered(order + names, CandidateOrder(order, names), names)
    ensures Distinct(CandidateOrder(order, names))
    ensures forall n :: n in CandidateOrder(order, names) <==> n in names
  {
    CollectGathers([], [], order, names);
    assert [] + order == order;
    CollectGathers(order, Collect([], order, names), names, names);
  }

  // ------------------------------------------------------------- eligibility

  /** Why a candidate is skipped, or `None` when it is eligible. */
  function Verdict(world: World, q: Query, name: string): Option<Reason> {
    match world.probe(name)
    case None => Some(ProbeFailed)
    case Some(caps) =>
      if !caps.available then Some(NotAvailable)
      else if StrictDegradations(caps, q) != [] then Some(Mismatch(StrictDegradations(caps, q)))
      else None
  }

  predicate CanServe(world: World, q: Query, name: string) {
    && world.probe(name).Some?
    && world.probe(name).value.available
    && Satisfies(world.probe(name).value, q)
  }

  lemma VerdictIsCanServe(world: World, q: Query, name: string)
    ensures Verdict(world, q, name).None? <==> CanServe(world, q, name)
  {
    if world.probe(name).Some? {
      StrictIsSatisfies(world.probe(name).value, q);
    }
  }

  function Eligible(world: World, q: Query, cs: seq<string>): (r: seq<string>)
    ensures |r| <= |cs|
    ensures forall n :: n in r ==> n in cs && world.probe(n).Some?
  {
    if cs == [] then []
    else (if Verdict(world, q, cs[0]).None? then [cs[0]] else []) + Eligible(world, q, cs[1..])
  }

  function SkippedOf(world: World, q: Query, cs: seq<string>): seq<Skip> {
    if cs == [] then []
    else (match Verdict(world, q, cs[0]) case None => [] case Some(why) => [Skip(cs[0], why)])
         + SkippedOf(world, q, cs[1..])
  }

  // ---------------------------------------------------------------- fallback

  predicate FailsTransiently(world: World, name: string) {
    world.outcome(name).Raise? && world.outcome(name).error.Transient?
  }

  /** Position of the first provider that does not fail transiently. */
  function Decisive(world: World, es: seq<string>): (k: nat)
    ensures k <= |es|
    ensures forall j :: 0 <= j < k ==> FailsTransiently(world, es[j])
    ensures k < |es| ==> !FailsTransiently(world, es[k])
  {
    if es == [] || !FailsTransiently(world, es[0]) then 0 else 1 + Decisive(world, es[1..])
  }

  function FailureAt(world: World, name: string): Failure {
    if FailsTransiently(world, name) then world.outcome(name).error.failure else Unavailable
  }

  function FailNote(world: World, es: seq<string>, k: nat): Note
    requires k < |es|
  {
    Failed(es[k], FailureAt(world, es[k]), if k + 1 < |es| then Some(es[k + 1]) else None)
  }

  function FailNotes(world: World, es: seq<string>, n: nat): seq<Note>
    requires n <= |es|
  {
    if n == 0 then [] else FailNotes(world, es, n - 1) + [FailNote(world, es, n - 1)]
  }

  function Failures(world: World, es: seq<string>, n: nat): seq<Failure>
    requires n <= |es|
  {
    if n == 0 then [] else Failures(world, es, n - 1) + [FailureAt(world, es[n - 1])]
  }

  function SkipNotes(skipped: seq<Skip>): seq<Note> {
    seq(|skipped|, k requires 0 <= k < |skipped| => Skipped(skipped[k].provider, ReasonText(skipped[k].reason)))
  }

  /** The metadata the router writes over the provider's. */
  function Stamp(r: Response, attempted: seq<string>, notes: seq<Note>, caps: Capabilities, q: Query): Response {
    r.(meta := r.meta.(attempted := attempted, fallback := |attempted| > 1,
                       warnings := notes + r.meta.warnings,
                       degraded := Merge(r.meta.degraded, Degradations(caps, q))))
  }

  /** Auto mode: the first eligible provider that does not fail transiently decides. */
  function AutoRun(world: World, q: Query, cs: seq<string>): Run {
    var es, skipped := Eligible(world, q, cs), SkippedOf(world, q, cs);
    if cs == [] then Refused(NoProvider(EmptyRegistry))
    else if es == [] then Refused(NoProvider(Candidates(skipped)))
    else Attempt(world, q, es, SkipNotes(skipped))
  }

  /** The providers are tried in order until one does not fail transiently. */
  function Fall(world: World, es: seq<string>): (run: Run)
    requires es != []
    ensures run.outcome.Ok? ==> 1 <= |run.attempted| <= |es|
  {
    var k := Decisive(world, es);
    if k == |es| then
      Run(Raise(NoProvider(Exhausted(es, Failures(world, es, k)))), es, [], es, |es| - 1)
    else
      var outcome := world.outcome(es[k]);
      if outcome.Raise? then Run(outcome, es[..k + 1], [], es[..k + 1], k)
      else Run(outcome, es[..k + 1], [es[k]], es[..k], k)
  }

  function Attempt(world: World, q: Query, es: seq<string>, notes: seq<Note>): Run
    requires es != [] && forall n :: n in es ==> world.probe(n).Some?
  {
    var run := Fall(world, es);
    if run.outcome.Raise? then run
    else
      var k := |run.attempted| - 1;
      assert es[k] in es;
      run.(outcome := Ok(Stamp(run.outcome.response, run.attempted, notes + FailNotes(world, es, k),
                               world.probe(es[k]).value, q)))
  }

  /** Explicit mode: one named provider, no fallback. */
  function ExplicitRun(world: World, q: Query, names: seq<string>, name: string): Run {
    if name !in names then Refused(Validation(name))
    else match Verdict(world, q, name)
      case Some(Mismatch(missing)) => Refused(Unsupported(missing))
      case Some(_) => Refused(Transient(Unavailable))
      case None =>
        match world.outcome(name)
        case Raise(e) => Run(Raise(e), [name], [], [name], 0)
        case Ok(r) => Run(Ok(ExplicitStamp(r, name, world.probe(name).value, q)), [name], [name], [], 0)
  }

  function ExplicitStamp(r: Response, name: string, caps: Capabilities, q: Query): Response {
    r.(meta := r.meta.(attempted := [name], fallback := false,
                       degraded := Merge(r.meta.degraded, Degradations(caps, q))))
  }

  datatype Config = Config(defaultProvider: string, order: seq<string>)

  function Mode(config: Config, q: Query): string {
    var requested := Strip(q.provider);
    if requested == AUTO then config.defaultProvider else requested
  }

  function RouteRun(world: World, config: Config, names: seq<string>, q: Query): Run {
    var mode := Mode(config, q);
    if mode == AUTO then AutoRun(world, q, CandidateOrder(config.order, names)) else ExplicitRun(world, q, names, mode)
  }

  // ------------------------------------------------------------- main results

  lemma {:induction false} EligibleConcat(world: World, q: Query, a: seq<string>, b: seq<string>)
    ensures Eligible(world, q, a + b) == Eligible(world, q, a) + Eligible(world, q, b)
  {
    if a == [] {
      assert a + b == b;
    } else {
      assert (a + b)[1..] == a[1..] + b;
      EligibleConcat(world, q, a[1..], b);
    }
  }

  /** The eligible candidates are those that can serve the request. */
  lemma {:induction false} EligibleServe(world: World, q: Query, cs: seq<string>)
    ensures forall n :: n in Eligible(world, q, cs) <==> n in cs && CanServe(world, q, n)
  {
    if cs != [] {
      VerdictIsCanServe(world, q, cs[0]);
      EligibleServe(world, q, cs[1..]);
      assert cs == [cs[0]] + cs[1..];
    }
  }

  lemma {:induction false} SkippedConcat(world: World, q: Query, a: seq<string>, b: seq<string>)
    ensures SkippedOf(world, q, a + b) == SkippedOf(world, q, a) + SkippedOf(world, q, b)
  {
    if a == [] {
      assert a + b == b;
    } else {
      assert (a + b)[1..] == a[1..] + b;
      SkippedConcat(world, q, a[1..], b);
    }
  }

  /** One more candidate is either eligible or skipped. */
  lemma NextCandidate(world: World, q: Query, cs: seq<string>, k: nat)
    requires k < |cs|
    ensures Eligible(world, q, cs[..k + 1])
         == Eligible(world, q, cs[..k]) + if Verdict(world, q, cs[k]).None? then [cs[k]] else []
    ensures SkippedOf(world, q, cs[..k + 1])
         == SkippedOf(world, q, cs[..k])
            + match Verdict(world, q, cs[k]) case None => [] case Some(why) => [Skip(cs[k], why)]
  {
    assert cs[..k + 1] == cs[..k] + [cs[k]];
    EligibleConcat(world, q, cs[..k], [cs[k]]);
    SkippedConcat(world, q, cs[..k], [cs[k]]);
  }

  lemma {:induction false} DecisivePast(world: World, a: seq<string>, b: seq<string>)
    requires forall n :: n in a ==> FailsTransiently(world, n)
    ensures Decisive(world, a + b) == |a| + Decisive(world, b)
  {
    if a == [] {
      assert a + b == b;
    } else {
      assert (a + b)[1..] == a[1..] + b;
      assert a[0] in a;
      DecisivePast(world, a[1..], b);
    }
  }

  /** Candidate `i` decides: it is eligible and answers or fails for good, and every
      candidate before it is ineligible or fails transiently. */
  predicate Decides(world: World, q: Query, cs: seq<string>, i: nat) {
    && i < |cs| && CanServe(world, q, cs[i]) && !FailsTransiently(world, cs[i])
    && forall j :: 0 <= j < i ==> !CanServe(world, q, cs[j]) || FailsTransiently(world, cs[j])
  }

  lemma SkippedFail(world: World, q: Query, cs: seq<string>, i: nat)
    requires Decides(world, q, cs, i)
    ensures forall n :: n in Eligible(world, q, cs[..i]) ==> FailsTransiently(world, n)
  {
    EligibleServe(world, q, cs[..i]);
    forall n | n in Eligible(world, q, cs[..i])
      ensures FailsTransiently(world, n)
    {
      var j :| 0 <= j < i && cs[j] == n;
    }
  }

  /** Up to the decider, the eligible candidates are those before it and itself. */
  lemma UpToDecider(world: World, q: Query, cs: seq<string>, i: nat)
    requires Decides(world, q, cs, i)
    ensures Eligible(world, q, cs[..i + 1]) == Eligible(world, q, cs[..i]) + [cs[i]]
    ensures Eligible(world, q, cs) == Eligible(world, q, cs[..i]) + Eligible(world, q, cs[i..])
    ensures |Eligible(world, q, cs[i..])| > 0 && Eligible(world, q, cs[i..])[0] == cs[i]
  {
    VerdictIsCanServe(world, q, cs[i]);
    NextCandidate(world, q, cs, i);
    assert cs == cs[..i] + cs[i..];
    EligibleConcat(world, q, cs[..i], cs[i..]);
  }

  lemma BeforeDecider(world: World, q: Query, cs: seq<string>, i: nat)
    requires Decides(world, q, cs, i)
    ensures var es := Eligible(world, q, cs);
      var before := Eligible(world, q, cs[..i]);
      && Decisive(world, es) == |before| < |es|
      && es[..|before| + 1] == before + [cs[i]] && es[..|before|] == before
      && Eligible(world, q, cs[..i + 1]) == before + [cs[i]]
  {
    SkippedFail(world, q, cs, i);
    UpToDecider(world, q, cs, i);
    DecisivePast(world, Eligible(world, q, cs[..i]), Eligible(world, q, cs[i..]));
  }

  // -------------------------------------------------------- what is reported

  /** The skipped candidates are those that cannot serve, each for its reason. */
  ghost predicate SkipFits(world: World, q: Query, skip: Skip) {
    match skip.reason
    case ProbeFailed => world.probe(skip.provider).None?
    case NotAvailable => world.probe(skip.provider).Some? && !world.probe(skip.provider).value.available
    case Mismatch(missing) =>
      && world.probe(skip.provider).Some? && world.probe(skip.provider).value.available
      && missing != [] && forall t :: t in missing <==> t != "limit" && TokenFor(world.probe(skip.provider).value, q, t)
  }

  lemma VerdictFits(world: World, q: Query, name: string, why: Reason)
    requires Verdict(world, q, name) == Some(why)
    ensures SkipFits(world, q, Skip(name, why))
  {
    if why.Mismatch? {
      var caps := world.probe(name).value;
      forall t
        ensures t in why.missing <==> t != "limit" && TokenFor(caps, q, t)
      {
        TokensAre(caps, q, t);
      }
    }
  }

  lemma {:induction false} SkipsFit(world: World, q: Query, cs: seq<string>)
    ensures forall k :: 0 <= k < |SkippedOf(world, q, cs)| ==>
      SkippedOf(world, q, cs)[k].provider in cs && SkipFits(world, q, SkippedOf(world, q, cs)[k])
  {
    if cs != [] {
      SkipsFit(world, q, cs[1..]);
      var verdict := Verdict(world, q, cs[0]);
      if verdict.Some? {
        VerdictFits(world, q, cs[0], verdict.value);
      }
    }
  }

  /** The note on a skipped candidate. */
  predicate NotesSkip(note: Note, skip: Skip) {
    note == Skipped(skip.provider, match skip.reason
      case ProbeFailed => "unavailable (probe failed)"
      case NotAvailable => "unavailable"
      case Mismatch(_) => "capability mismatch")
  }

  /** The note on a failed attempt names the provider that is tried next, if there is one. */
  predicate NotesFailure(world: World, es: seq<string>, k: nat, note: Note)
    requires k < |es|
  {
    && note.Failed? && note.provider == es[k] && world.outcome(es[k]) == Raise(Transient(note.error))
    && note.next == if k + 1 < |es| then Some(es[k + 1]) else None
  }

  lemma {:induction false} NotesAre(world: World, es: seq<string>, n: nat)
    requires n <= |es| && forall k :: 0 <= k < n ==> FailsTransiently(world, es[k])
    ensures |FailNotes(world, es, n)| == n && |Failures(world, es, n)| == n
    ensures forall k :: 0 <= k < n ==> NotesFailure(world, es, k, FailNotes(world, es, n)[k])
    ensures forall k :: 0 <= k < n ==> world.outcome(es[k]) == Raise(Transient(Failures(world, es, n)[k]))
  {
    if n > 0 {
      NotesAre(world, es, n - 1);
    }
  }

  /** The router's stamp on an answer: what the provider reported stays, with the tokens of
      what it cannot honour, and warnings of what was skipped and what failed before it. */
  predicate Stamped(a: Response, r: Response, tried: seq<string>, skips: seq<Note>, fails: seq<Note>) {
    && a.query == r.query && a.verticals == r.verticals && a.results == r.results
    && a.meta.provider == r.meta.provider && a.meta.attempted == tried && (a.meta.fallback <==> |tried| > 1)
    && a.meta.fromCache == r.meta.fromCache && a.meta.stale == r.meta.stale
    && a.meta.cachedAt == r.meta.cachedAt && a.meta.cacheAge == r.meta.cacheAge
    && a.meta.warnings == skips + fails + r.meta.warnings
  }

  /** The tokens reported are the provider's own and that of the limit, if it is exceeded. */
  ghost predicate Reports(a: Response, r: Response, caps: Capabilities, q: Query) {
    && r.meta.degraded <= a.meta.degraded
    && forall t :: t in a.meta.degraded <==>
         t in r.meta.degraded || (t == "limit" && q.limit.Some? && caps.maxResults.Some? && caps.maxResults.value < q.limit.value)
  }

  lemma ReportsLimit(r: Response, caps: Capabilities, q: Query, a: Response)
    requires Satisfies(caps, q) && a.meta.degraded == Merge(r.meta.degraded, Degradations(caps, q))
    ensures Reports(a, r, caps, q)
  {
    StrictIsSatisfies(caps, q);
    MergeProperties(r.meta.degraded, Degradations(caps, q));
  }

  /** The warnings that a route adds: one for each candidate skipped, and one for each
      provider that was tried in vain before the last. */
  ghost predicate RouteNotes(world: World, skipped: seq<Skip>, tried: seq<string>, skips: seq<Note>, fails: seq<Note>) {
    && |skips| == |skipped| && (forall k :: 0 <= k < |skips| ==> NotesSkip(skips[k], skipped[k]))
    && |fails| == |tried| - 1 && (forall k :: 0 <= k < |fails| ==> NotesFailure(world, tried, k, fails[k]))
  }

  lemma DeciderNotes(world: World, q: Query, cs: seq<string>, i: nat)
    requires Decides(world, q, cs, i)
    ensures var es, before := Eligible(world, q, cs), Eligible(world, q, cs[..i]);
      && |before| < |es|
      && RouteNotes(world, SkippedOf(world, q, cs), before + [cs[i]], SkipNotes(SkippedOf(world, q, cs)),
                    FailNotes(world, es, |before|))
  {
    BeforeDecider(world, q, cs, i);
    SkippedFail(world, q, cs, i);
    var es, before := Eligible(world, q, cs), Eligible(world, q, cs[..i]);
    forall k | 0 <= k < |before|
      ensures FailsTransiently(world, es[k])
    {
      assert es[k] == before[k] && before[k] in before;
    }
    NotesAre(world, es, |before|);
    assert forall k :: 0 <= k <= |before| ==> es[k] == es[..|before| + 1][k];
  }

  lemma StampIs(r: Response, tried: seq<string>, skips: seq<Note>, fails: seq<Note>, caps: Capabilities, q: Query)
    requires Satisfies(caps, q)
    ensures var a := Stamp(r, tried, skips + fails, caps, q); Stamped(a, r, tried, skips, fails) && Reports(a, r, caps, q)
  {
    ReportsLimit(r, caps, q, Stamp(r, tried, skips + fails, caps, q));
  }

  lemma DeciderStamps(world: World, q: Query, cs: seq<string>, i: nat)
    requires Decides(world, q, cs, i) && world.outcome(cs[i]).Ok?
    ensures var es, before := Eligible(world, q, cs), Eligible(world, q, cs[..i]);
      && |before| < |es|
      && AutoRun(world, q, cs).outcome
         == Ok(Stamp(world.outcome(cs[i]).response, before + [cs[i]],
                     SkipNotes(SkippedOf(world, q, cs)) + FailNotes(world, es, |before|), world.probe(cs[i]).value, q))
  {
    BeforeDecider(world, q, cs, i);
    var es, before := Eligible(world, q, cs), Eligible(world, q, cs[..i]);
    assert es[|before|] == es[..|before| + 1][|before|] == cs[i];
  }

  /** The deciding candidate's answer is passed on: with everything in it, and with what the
      route adds. */
  lemma DeciderAnswers(world: World, q: Query, cs: seq<string>, i: nat)
    requires Decides(world, q, cs, i) && world.outcome(cs[i]).Ok?
    ensures var a := AutoRun(world, q, cs).outcome;
      var r := world.outcome(cs[i]).response;
      var tried := Eligible(world, q, cs[..i]) + [cs[i]];
      && a.Ok? && world.probe(cs[i]).Some? && Reports(a.response, r, world.probe(cs[i]).value, q)
      && exists skips, fails ::
           Stamped(a.response, r, tried, skips, fails) && RouteNotes(world, SkippedOf(world, q, cs), tried, skips, fails)
  {
    DeciderStamps(world, q, cs, i);
    DeciderNotes(world, q, cs, i);
    var es, before := Eligible(world, q, cs), Eligible(world, q, cs[..i]);
    StampIs(world.outcome(cs[i]).response, before + [cs[i]], SkipNotes(SkippedOf(world, q, cs)),
            FailNotes(world, es, |before|), world.probe(cs[i]).value, q);
  }

  // ---------------------------------------------------------- where it goes

  /** A request that names a provider, or follows a default that does, is sent to that
      provider and to no other: refused when it is not registered, cannot be reached or
      cannot honour the request, and otherwise answered by it for better or worse. */
  lemma NamedProviderAlone(world: World, config: Config, names: seq<string>, q: Query, name: string)
    requires name != "auto" && name == if Strip(q.provider) == "auto" then config.defaultProvider else Strip(q.provider)
    ensures var run := RouteRun(world, config, names, q);
      var probe := world.probe(name);
      if name !in names then run.attempted == [] && run.outcome == Raise(Validation(name))
      else if probe.None? || !probe.value.available then run.attempted == [] && run.outcome == Raise(Transient(Unavailable))
      else if !Satisfies(probe.value, q)
      then run.attempted == [] && run.outcome.Raise? && run.outcome.error.Unsupported?
           && SkipFits(world, q, Skip(name, Mismatch(run.outcome.error.missing)))
      else run.attempted == [name] && run.fallbacks == 0
           && match world.outcome(name)
              case Raise(e) => run.outcome == Raise(e) && run.errored == [name]
              case Ok(r) =>
                && run.outcome.Ok? && run.succeeded == [name] && Reports(run.outcome.response, r, probe.value, q)
                && Stamped(run.outcome.response, r, [name], [], [])
  {
    VerdictIsCanServe(world, q, name);
    if name in names {
      var verdict := Verdict(world, q, name);
      if verdict.Some? {
        VerdictFits(world, q, name, verdict.value);
      } else if world.outcome(name).Ok? {
        var r := world.outcome(name).response;
        ReportsLimit(r, world.probe(name).value, q, RouteRun(world, config, names, q).outcome.response);
        assert [] + [] + r.meta.warnings == r.meta.warnings;
      }
    }
  }

  /** Only a request for `auto` under the default `auto` is routed among all candidates. */
  lemma AutoAmongAll(world: World, config: Config, names: seq<string>, q: Query)
    requires Strip(q.provider) == "auto" && config.defaultProvider == "auto"
    ensures RouteRun(world, config, names, q) == AutoRun(world, q, CandidateOrder(config.order, names))
  {
  }

  /** The deciding candidate's outcome is the outcome of the route.  The providers
      attempted are exactly the eligible ones up to it, those before it all count as
      errors, and there was a fallback exactly when there is one before it. */
  lemma DeciderDecides(world: World, q: Query, cs: seq<string>, i: nat)
    requires Decides(world, q, cs, i)
    ensures var run := AutoRun(world, q, cs);
      var tried := Eligible(world, q, cs[..i + 1]);
      && run.attempted == tried && run.fallbacks == |tried| - 1
      && match world.outcome(cs[i])
         case Raise(e) => run.outcome == Raise(e) && run.succeeded == [] && run.errored == tried
         case Ok(r) =>
           && run.outcome.Ok? && run.succeeded == [cs[i]] && run.errored == Eligible(world, q, cs[..i])
           && run.outcome.response.results == r.results
           && run.outcome.response.meta.attempted == tried
           && (run.outcome.response.meta.fallback <==> Eligible(world, q, cs[..i]) != [])
  {
    BeforeDecider(world, q, cs, i);
  }

  /** Without a deciding candidate the route ends in a `NoProvider` error: for an empty
      registry, because every candidate is skipped, or because every eligible provider
      was tried and failed transiently. */
  lemma NobodyDecides(world: World, q: Query, cs: seq<string>)
    requires forall i: nat :: !Decides(world, q, cs, i)
    ensures var run := AutoRun(world, q, cs);
      var es := Eligible(world, q, cs);
      && run.attempted == es == run.errored && run.succeeded == []
      && run.fallbacks == (if es == [] then 0 else |es| - 1)
      && run.outcome == Raise(NoProvider(
           if cs == [] then EmptyRegistry
           else if es == [] then Candidates(SkippedOf(world, q, cs))
           else Exhausted(es, Failures(world, es, |es|))))
      && |Failures(world, es, |es|)| == |es|
      && (forall k :: 0 <= k < |es| ==> world.outcome(es[k]) == Raise(Transient(Failures(world, es, |es|)[k])))
      && (forall k :: 0 <= k < |SkippedOf(world, q, cs)| ==>
            SkippedOf(world, q, cs)[k].provider in cs && SkipFits(world, q, SkippedOf(world, q, cs)[k]))
      && forall n :: n in cs && CanServe(world, q, n) ==> FailsTransiently(world, n)
  {
    forall n | n in cs && CanServe(world, q, n)
      ensures FailsTransiently(world, n)
    {
      if !FailsTransiently(world, n) {
        var i :| 0 <= i < |cs| && cs[i] == n;
        var _ := FirstDecider(world, q, cs, i);
      }
    }
    var es := Eligible(world, q, cs);
    EligibleServe(world, q, cs);
    DecisivePast(world, es, []);
    assert es + [] == es;
    NotesAre(world, es, |es|);
    SkipsFit(world, q, cs);
  }

  /** A candidate that could decide means that one does. */
  lemma {:induction false} FirstDecider(world: World, q: Query, cs: seq<string>, i: nat) returns (k: nat)
    requires i < |cs| && CanServe(world, q, cs[i]) && !FailsTransiently(world, cs[i])
    ensures Decides(world, q, cs, k)
  {
    if j: nat :| j < i && CanServe(world, q, cs[j]) && !FailsTransiently(world, cs[j]) {
      k := FirstDecider(world, q, cs, j);
    } else {
      k := i;
    }
  }

  predicate Balanced(run: Run) {
    && multiset(run.attempted) == multiset(run.succeeded) + multiset(run.errored)
    && run.fallbacks == Max(0, |run.attempted| - 1)
    && |run.succeeded| == if run.outcome.Ok? then 1 else 0
  }

  lemma AttemptBalanced(world: World, q: Query, es: seq<string>, notes: seq<Note>)
    requires es != [] && forall n :: n in es ==> world.probe(n).Some?
    ensures Balanced(Attempt(world, q, es, notes))
  {
    FallBalanced(world, es);
  }

  lemma FallBalanced(world: World, es: seq<string>)
    requires es != []
    ensures Balanced(Fall(world, es))
  {
    var k := Decisive(world, es);
    if k < |es| {
      assert es[..k + 1] == es[..k] + [es[k]];
    }
  }

  lemma ExplicitBalanced(world: World, q: Query, names: seq<string>, name: string)
    ensures Balanced(ExplicitRun(world, q, names, name))
  {
  }

  /** Every attempt is counted once more, as a success or as an error, and fallbacks are
      the attempts after the first. */
  lemma RunBalanced(world: World, config: Config, names: seq<string>, q: Query)
    ensures Balanced(RouteRun(world, config, names, q))
  {
    var cs := CandidateOrder(config.order, names);
    var es := Eligible(world, q, cs);
    ExplicitBalanced(world, q, names, Mode(config, q));
    if es != [] {
      AttemptBalanced(world, q, es, SkipNotes(SkippedOf(world, q, cs)));
    }
  }
}
