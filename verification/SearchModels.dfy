/** The provider-agnostic search domain (app/search/models.py): requests, responses and
    the negotiation of capabilities. */
module SearchModels {
  import opened Sequences

  datatype Vertical = Web | News | Images | Videos | Social | IT | Science | Maps | Music | Files

  datatype TimeRange = Day | Week | Month | Year

  datatype SafeSearch = Off | Moderate | Strict

  function VerticalValue(v: Vertical): string {
    match v
    case Web => "web"
    case News => "news"
    case Images => "images"
    case Videos => "videos"
    case Social => "social"
    case IT => "it"
    case Science => "science"
    case Maps => "maps"
    case Music => "music"
    case Files => "files"
  }

  datatype Query = Query(
    query: string, verticals: seq<Vertical>, language: Option<string>, timeRange: Option<TimeRange>,
    safeSearch: SafeSearch, page: int, limit: Option<int>, sources: seq<string>, provider: string,
    cacheTtl: Option<int>, forceRefresh: bool)

  /** The field constraints and the two validators of `SearchQuery`. */
  predicate ValidQuery(q: Query) {
    && 1 <= |q.query| <= 1000
    && q.verticals != [] && Distinct(q.verticals)
    && 1 <= q.page <= 100
    && (q.limit.Some? ==> 1 <= q.limit.value <= 100)
    && |q.sources| <= 50 && Distinct(q.sources)
    && (forall k :: 0 <= k < |q.sources| ==> 1 <= |q.sources[k]| <= 100)
    && 1 <= |q.provider| <= 100
    && (q.cacheTtl.Some? ==> 60 <= q.cacheTtl.value <= 2592000)
  }

  datatype Capabilities = Capabilities(
    verticals: seq<Vertical>, timeRanges: seq<TimeRange>, language: bool, safeSearch: bool, paging: bool,
    sourceSelection: bool, maxResults: Option<int>, available: bool)

  // ------------------------------------------------------------ degradation

  function Missing(wanted: seq<Vertical>, offered: seq<Vertical>): seq<string> {
    if wanted == [] then []
    else MissingOne(wanted[0], offered) + Missing(wanted[1..], offered)
  }

  function Add(list: seq<string>, condition: bool, token: string): seq<string> {
    if condition then list + [token] else list
  }

  predicate LimitExceeded(caps: Capabilities, q: Query) {
    q.limit.Some? && caps.maxResults.Some? && q.limit.value > caps.maxResults.value
  }

  predicate RangeDropped(caps: Capabilities, q: Query) { q.timeRange.Some? && q.timeRange.value !in caps.timeRanges }

  /** Tokens of the requested filters that the provider would drop. */
  function DroppedFilters(caps: Capabilities, q: Query): seq<string> {
    var s0 := Missing(q.verticals, caps.verticals);
    var s1 := Add(s0, RangeDropped(caps, q), "time_range");
    var s2 := Add(s1, q.language.Some? && !caps.language, "language");
    var s3 := Add(s2, q.safeSearch != Off && !caps.safeSearch, "safe_search");
    var s4 := Add(s3, q.page > 1 && !caps.paging, "paging");
    Add(s4, q.sources != [] && !caps.sourceSelection, "sources")
  }

  /** Tokens of the requested features that the provider cannot fully honour. */
  function Degradations(caps: Capabilities, q: Query): seq<string> {
    Add(DroppedFilters(caps, q), LimitExceeded(caps, q), "limit")
  }

  method AppendIf(list: seq<string>, condition: bool, token: string) returns (r: seq<string>)
    ensures r == Add(list, condition, token)
  {
    r := list;
    if condition {
      r := r + [token];
    }
  }

  function MissingOne(v: Vertical, offered: seq<Vertical>): seq<string> {
    if v in offered then [] else ["vertical:" + VerticalValue(v)]
  }

  lemma {:induction false} MissingAppend(wanted: seq<Vertical>, offered: seq<Vertical>, k: nat)
    requires k < |wanted|
    ensures Missing(wanted[..k + 1], offered) == Missing(wanted[..k], offered) + MissingOne(wanted[k], offered)
  {
    if k == 0 {
      assert wanted[..1] == [wanted[0]];
    } else {
      assert wanted[..k + 1][1..] == wanted[1..][..k] && wanted[..k][1..] == wanted[1..][..k - 1];
      MissingAppend(wanted[1..], offered, k - 1);
    }
  }

  method ListMissing(wanted: seq<Vertical>, offered: seq<Vertical>) returns (degraded: seq<string>)
    ensures degraded == Missing(wanted, offered)
  {
    degraded := [];
    for k := 0 to |wanted|
      invariant degraded == Missing(wanted[..k], offered)
    {
      MissingAppend(wanted, offered, k);
      if wanted[k] !in offered {
        degraded := degraded + ["vertical:" + VerticalValue(wanted[k])];
      }
    }
    assert wanted[..|wanted|] == wanted;
  }

  /** `SearchCapabilities.degradations`: the tokens appended one by one. */
  method ListDegradations(caps: Capabilities, q: Query) returns (degraded: seq<string>)
    ensures degraded == Degradations(caps, q)
  {
    degraded := ListMissing(q.verticals, caps.verticals);
    degraded := AppendIf(degraded, RangeDropped(caps, q), "time_range");
    degraded := AppendIf(degraded, q.language.Some? && !caps.language, "language");
    degraded := AppendIf(degraded, q.safeSearch != Off && !caps.safeSearch, "safe_search");
    degraded := AppendIf(degraded, q.page > 1 && !caps.paging, "paging");
    degraded := AppendIf(degraded, q.sources != [] && !caps.sourceSelection, "sources");
    degraded := AppendIf(degraded, LimitExceeded(caps, q), "limit");
  }

  /** Tokens that disqualify a provider: all but `limit`. */
  predicate StrictToken(token: string) { token != "limit" }

  function StrictDegradations(caps: Capabilities, q: Query): seq<string> {
    Filter(Degradations(caps, q), StrictToken)
  }

  /** `_strict_degradations`. */
  method ListStrict(caps: Capabilities, q: Query) returns (missing: seq<string>)
    ensures missing == StrictDegradations(caps, q)
  {
    var tokens := ListDegradations(caps, q);
    missing := KeepStrict(tokens);
  }

  method KeepStrict(tokens: seq<string>) returns (missing: seq<string>)
    ensures missing == Filter(tokens, StrictToken)
  {
    missing := [];
    for k := 0 to |tokens|
      invariant missing + Filter(tokens[k..], StrictToken) == Filter(tokens, StrictToken)
    {
      assert tokens[k..] == [tokens[k]] + tokens[k + 1..];
      StrictHead(missing, tokens[k], tokens[k + 1..]);
      if tokens[k] != "limit" {
        missing := missing + [tokens[k]];
      }
    }
  }

  lemma StrictHead(missing: seq<string>, token: string, rest: seq<string>)
    ensures missing + Filter([token] + rest, StrictToken)
         == (if StrictToken(token) then missing + [token] else missing) + Filter(rest, StrictToken)
  {
  }

  /** The request can be served without changing what its results mean. */
  predicate Satisfies(caps: Capabilities, q: Query) {
    && (forall v :: v in q.verticals ==> v in caps.verticals)
    && (q.timeRange.Some? ==> q.timeRange.value in caps.timeRanges)
    && (q.language.Some? ==> caps.language)
    && (q.safeSearch != Off ==> caps.safeSearch)
    && (q.page > 1 ==> caps.paging)
    && (q.sources != [] ==> caps.sourceSelection)
  }

  lemma {:induction false} MissingNone(wanted: seq<Vertical>, offered: seq<Vertical>)
    ensures Missing(wanted, offered) == [] <==> forall v :: v in wanted ==> v in offered
  {
    if wanted != [] {
      MissingNone(wanted[1..], offered);
      assert wanted == [wanted[0]] + wanted[1..];
    }
  }

  lemma {:induction false} MissingStrict(wanted: seq<Vertical>, offered: seq<Vertical>)
    ensures forall t :: t in Missing(wanted, offered) ==> StrictToken(t)
  {
    if wanted != [] {
      MissingStrict(wanted[1..], offered);
      assert |"vertical:" + VerticalValue(wanted[0])| > 5;
    }
  }

  lemma AddStrict(s: seq<string>, condition: bool, token: string)
    requires (forall t :: t in s ==> StrictToken(t)) && StrictToken(token)
    ensures forall t :: t in Add(s, condition, token) ==> StrictToken(t)
    ensures Add(s, condition, token) == [] <==> s == [] && !condition
  {
  }

  /** The tokens other than `limit` are strict, and there are none exactly when every
      filter of the request can be honoured. */
  lemma DroppedStrict(caps: Capabilities, q: Query)
    ensures forall t :: t in DroppedFilters(caps, q) ==> StrictToken(t)
    ensures DroppedFilters(caps, q) == [] <==> Satisfies(caps, q)
  {
    MissingNone(q.verticals, caps.verticals);
    MissingStrict(q.verticals, caps.verticals);
    var s0 := Missing(q.verticals, caps.verticals);
    AddStrict(s0, RangeDropped(caps, q), "time_range");
    var s1 := Add(s0, RangeDropped(caps, q), "time_range");
    AddStrict(s1, q.language.Some? && !caps.language, "language");
    var s2 := Add(s1, q.language.Some? && !caps.language, "language");
    AddStrict(s2, q.safeSearch != Off && !caps.safeSearch, "safe_search");
    var s3 := Add(s2, q.safeSearch != Off && !caps.safeSearch, "safe_search");
    AddStrict(s3, q.page > 1 && !caps.paging, "paging");
    var s4 := Add(s3, q.page > 1 && !caps.paging, "paging");
    AddStrict(s4, q.sources != [] && !caps.sourceSelection, "sources");
  }

  /** Only `limit` may be degraded: the strict tokens are the dropped filters. */
  lemma StrictPart(caps: Capabilities, q: Query)
    ensures StrictDegradations(caps, q) == DroppedFilters(caps, q)
  {
    var dropped := DroppedFilters(caps, q);
    DroppedStrict(caps, q);
    FilterConcat(dropped, ["limit"], StrictToken);
    FilterAll(dropped, StrictToken);
    FilterNone(["limit"], StrictToken);
  }

  /** A provider is not disqualified exactly when it can honour every filter; all that it
      may then degrade is the limit. */
  lemma StrictIsSatisfies(caps: Capabilities, q: Query)
    ensures StrictDegradations(caps, q) == [] <==> Satisfies(caps, q)
    ensures Satisfies(caps, q) ==> Degradations(caps, q) == if LimitExceeded(caps, q) then ["limit"] else []
  {
    StrictPart(caps, q);
    DroppedStrict(caps, q);
  }

  /** Which token stands for which feature that was asked for and is not offered. */
  predicate TokenFor(caps: Capabilities, q: Query, token: string) {
    || (exists v :: v in q.verticals && v !in caps.verticals && token == "vertical:" + VerticalValue(v))
    || (token == "time_range" && q.timeRange.Some? && q.timeRange.value !in caps.timeRanges)
    || (token == "language" && q.language.Some? && !caps.language)
    || (token == "safe_search" && q.safeSearch != Off && !caps.safeSearch)
    || (token == "paging" && q.page > 1 && !caps.paging)
    || (token == "sources" && q.sources != [] && !caps.sourceSelection)
    || (token == "limit" && q.limit.Some? && caps.maxResults.Some? && caps.maxResults.value < q.limit.value)
  }

  lemma {:induction false} MissingTokens(wanted: seq<Vertical>, offered: seq<Vertical>, token: string)
    ensures token in Missing(wanted, offered)
       <==> exists v :: v in wanted && v !in offered && token == "vertical:" + VerticalValue(v)
  {
    if wanted != [] {
      MissingTokens(wanted[1..], offered, token);
      assert wanted == [wanted[0]] + wanted[1..];
      assert token in MissingOne(wanted[0], offered)
        <==> wanted[0] !in offered && token == "vertical:" + VerticalValue(wanted[0]);
    }
  }

  lemma AddToken(s: seq<string>, condition: bool, token: string, t: string)
    ensures t in Add(s, condition, token) <==> t in s || (condition && t == token)
  {
  }

  /** The tokens are those of the features that are asked for and not offered. */
  lemma TokensAre(caps: Capabilities, q: Query, token: string)
    ensures token in Degradations(caps, q) <==> TokenFor(caps, q, token)
  {
    MissingTokens(q.verticals, caps.verticals, token);
    var s0 := Missing(q.verticals, caps.verticals);
    var s1 := Add(s0, RangeDropped(caps, q), "time_range");
    var s2 := Add(s1, q.language.Some? && !caps.language, "language");
    AddToken(s0, RangeDropped(caps, q), "time_range", token);
    AddToken(s1, q.language.Some? && !caps.language, "language", token);
    LastTokens(caps, q, token, s2);
    AddToken(DroppedFilters(caps, q), LimitExceeded(caps, q), "limit", token);
  }

  lemma LastTokens(caps: Capabilities, q: Query, token: string, s2: seq<string>)
    ensures var s3 := Add(s2, q.safeSearch != Off && !caps.safeSearch, "safe_search");
      var s4 := Add(s3, q.page > 1 && !caps.paging, "paging");
      token in Add(s4, q.sources != [] && !caps.sourceSelection, "sources")
      <==> token in s2
           || (token == "safe_search" && q.safeSearch != Off && !caps.safeSearch)
           || (token == "paging" && q.page > 1 && !caps.paging)
           || (token == "sources" && q.sources != [] && !caps.sourceSelection)
  {
  }

  // --------------------------------------------------------------- metadata

  datatype Note =
    | Skipped(provider: string, why: string)
    | Failed(provider: string, error: Failure, next: Option<string>)
    | StaleServed(cause: string)
    | Text(text: string)

  datatype Reason = ProbeFailed | NotAvailable | Mismatch(missing: seq<string>)

  function ReasonText(reason: Reason): string {
    match reason
    case ProbeFailed => "unavailable (probe failed)"
    case NotAvailable => "unavailable"
    case Mismatch(_) => "capability mismatch"
  }

  /** Transient provider-side failures. */
  datatype Failure = Unavailable | Timeout | InvalidResponse

  datatype Metadata = Metadata(
    provider: string, attempted: seq<string>, fallback: bool, fromCache: bool, stale: bool,
    cachedAt: Option<int>, cacheAge: Option<int>, warnings: seq<Note>, degraded: seq<string>)

  datatype Response = Response(query: string, verticals: seq<Vertical>, results: seq<string>, meta: Metadata)

  /** Tokens not yet listed are appended in order. */
  function Merge(have: seq<string>, tokens: seq<string>): seq<string>
    decreases tokens
  {
    if tokens == [] then have
    else Merge(if tokens[0] in have then have else have + [tokens[0]], tokens[1..])
  }

  /** The loop of `_merge_degradations`. */
  method MergeDegradations(have: seq<string>, caps: Capabilities, q: Query) returns (degraded: seq<string>)
    ensures degraded == Merge(have, Degradations(caps, q))
  {
    var tokens := ListDegradations(caps, q);
    degraded := have;
    for k := 0 to |tokens|
      invariant Merge(degraded, tokens[k..]) == Merge(have, tokens)
    {
      assert tokens[k..][1..] == tokens[k + 1..];
      if tokens[k] !in degraded {
        degraded := degraded + [tokens[k]];
      }
    }
  }

  /** Merging keeps the provider's tokens in front, adds the negotiated ones once, and
      invents none. */
  lemma {:induction false} MergeProperties(have: seq<string>, tokens: seq<string>)
    ensures have <= Merge(have, tokens)
    ensures forall t :: t in Merge(have, tokens) <==> t in have || t in tokens
    ensures Distinct(have) ==> Distinct(Merge(have, tokens))
    decreases tokens
  {
    if tokens != [] {
      var more := if tokens[0] in have then have else have + [tokens[0]];
      MergeProperties(more, tokens[1..]);
      assert have <= more;
      assert tokens == [tokens[0]] + tokens[1..];
    }
  }

  /** Tokens that are all listed already change nothing. */
  lemma {:induction false} MergeKnown(have: seq<string>, tokens: seq<string>)
    requires forall t :: t in tokens ==> t in have
    ensures Merge(have, tokens) == have
    decreases tokens
  {
    if tokens != [] {
      assert tokens[0] in tokens;
      MergeKnown(have, tokens[1..]);
    }
  }

  lemma MergeIdempotent(have: seq<string>, tokens: seq<string>)
    ensures Merge(Merge(have, tokens), tokens) == Merge(have, tokens)
  {
    MergeProperties(have, tokens);
    MergeKnown(Merge(have, tokens), tokens);
  }

  // ------------------------------------------------------------- outcomes

  datatype Skip = Skip(provider: string, reason: Reason)

  datatype Details =
    | EmptyRegistry
    | Candidates(candidates: seq<Skip>)
    | Exhausted(attempted: seq<string>, failures: seq<Failure>)

  /** What a search can raise: the classes the router and the cache tell apart. */
  datatype Error =
    | Transient(failure: Failure)
    | Validation(message: string)
    | Unsupported(missing: seq<string>)
    | NoProvider(details: Details)
    | OtherScraper(kind: string)
    | Foreign(kind: string)

  /** `error_type`: the token a stale serve reports. */
  function ErrorType(e: Error): string {
    match e
    case Transient(Unavailable) => "search_provider_unavailable"
    case Transient(Timeout) => "search_provider_timeout"
    case Transient(InvalidResponse) => "invalid_provider_response"
    case Validation(_) => "validation_error"
    case Unsupported(_) => "unsupported_search_capability"
    case NoProvider(_) => "no_provider_available"
    case OtherScraper(kind) => kind
    case Foreign(kind) => kind
  }

  datatype Outcome = Ok(response: Response) | Raise(error: Error)
}
