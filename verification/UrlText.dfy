/** URL normalisation for cache keys (app/scraper/normalizer.py): the components that
    `urlparse` gives, the text that `urlunparse` writes from them, and a second run on that
    text, which is parsed again. */
module UrlText {
  import opened Sequences
  import opened StringOrder
  import opened Splitting
  import opened Text

  /** A parsed URL; user information and fragment are not kept. */
  datatype Url = Url(scheme: string, hostname: string, port: Option<nat>, path: string, params: string, query: string)

  /** The parts of a written URL: `scheme://netloc tail ?query`. */
  datatype Written = Written(scheme: string, netloc: string, tail: string, query: string)

  function DefaultPort(scheme: string): Option<nat> {
    if scheme == "http" then Some(80) else if scheme == "https" then Some(443) else None
  }

  function SortQuery(query: string): string {
    if query == "" then "" else Join(Sort(Split(query, '&'), AtMost), "&")
  }

  function DropSlashes(path: string): string {
    if path != [] && path[|path| - 1] == '/' then DropSlashes(path[..|path| - 1]) else path
  }

  function NormalPath(path: string): string {
    var p := if path == "" then "/" else path;
    if |p| > 1 && p[|p| - 1] == '/' then DropSlashes(p) else p
  }

  function KeptPort(scheme: string, port: Option<nat>): Option<nat> {
    if port.Some? && port == DefaultPort(scheme) then None else port
  }

  /** `normalize_url` on components. */
  function Normalize(u: Url, lower: string -> string): Url {
    var scheme := lower(u.scheme);
    Url(scheme, lower(u.hostname), KeptPort(scheme, u.port), NormalPath(u.path), u.params, SortQuery(u.query))
  }

  // ---------------------------------------------------------------- decimals

  predicate AllDigits(s: string) { forall k :: 0 <= k < |s| ==> '0' <= s[k] <= '9' }

  function Decimal(n: nat): (r: string)
    ensures r != ""
  {
    if n < 10 then [Digit(n)] else Decimal(n / 10) + [Digit(n % 10)]
  }

  function Value(s: string): nat
    requires AllDigits(s)
  {
    if s == "" then 0 else Value(s[..|s| - 1]) * 10 + (s[|s| - 1] as int - '0' as int)
  }

  lemma {:induction false} DecimalReads(n: nat)
    ensures AllDigits(Decimal(n)) && Value(Decimal(n)) == n
  {
    var d := Decimal(n);
    if n < 10 {
      assert d[..|d| - 1] == "";
    } else {
      DecimalReads(n / 10);
      assert d[..|d| - 1] == Decimal(n / 10);
    }
  }

  // ----------------------------------------------------- writing and reading

  function NetlocText(hostname: string, port: Option<nat>): string {
    if port.None? then hostname else hostname + (":" + Decimal(port.value))
  }

  /** `urlunparse` puts the parameters back behind the path, and a slash in front when the
      rest of a URL with a host does not begin with one. */
  function TailText(path: string, params: string): string {
    var t := if params == "" then path else path + (";" + params);
    if t != "" && t[0] != '/' then "/" + t else t
  }

  function Write(u: Url): Written {
    Written(u.scheme, NetlocText(u.hostname, u.port), TailText(u.path, u.params), u.query)
  }

  /** `s.partition(c)` without the separator. */
  function Partition(s: string, c: char): (r: (string, string))
    ensures c !in r.0
    ensures c in s ==> s == r.0 + ([c] + r.1)
    ensures c !in s ==> r == (s, "")
  {
    if s == "" then ("", "")
    else if s[0] == c then
      assert s == "" + ([c] + s[1..]);
      ("", s[1..])
    else
      var (x, y) := Partition(s[1..], c);
      assert s == [s[0]] + s[1..];
      ([s[0]] + x, y)
  }

  lemma {:induction false} PartitionIs(h: string, rest: string, c: char)
    requires c !in h
    ensures Partition(h + ([c] + rest), c) == (h, rest)
  {
    var s := h + ([c] + rest);
    if h == "" {
      assert s[0] == c && s[1..] == rest;
    } else {
      assert s[0] == h[0] && s[1..] == h[1..] + ([c] + rest);
      PartitionIs(h[1..], rest, c);
      assert h == [h[0]] + h[1..];
    }
  }

  /** Where the last segment of a path begins. */
  function SegmentStart(s: string): (b: nat)
    ensures b <= |s| && '/' !in s[b..] && (b > 0 ==> s[b - 1] == '/')
  {
    if s == [] then 0
    else if s[|s| - 1] == '/' then |s|
    else
      var b := SegmentStart(s[..|s| - 1]);
      assert s[b..] == s[..|s| - 1][b..] + [s[|s| - 1]];
      b
  }

  /** `_splitparams`: from the first semicolon of the last segment on. */
  function SplitParams(tail: string): (string, string) {
    var b := SegmentStart(tail);
    var (name, params) := Partition(tail[b..], ';');
    (tail[..b] + name, params)
  }

  /** The schemes whose URLs have parameters. */
  predicate TakesParams(scheme: string) {
    scheme in ["", "ftp", "hdl", "prospero", "http", "https", "shttp", "rtsp", "rtspu", "sip", "sips", "mms", "sftp",
               "tel"]
  }

  function ReadPath(scheme: string, tail: string): (string, string) {
    if TakesParams(scheme) then SplitParams(tail) else (tail, "")
  }

  /** Host and port of an authority without brackets; `None` when the port is refused. */
  function ReadAuthority(netloc: string): Option<(string, Option<nat>)> {
    var (hostname, text) := Partition(netloc, ':');
    if text == "" then Some((hostname, None))
    else if !AllDigits(text) || Value(text) > 65535 then None
    else Some((hostname, Some(Value(text))))
  }

  /** A run of `normalize_url` on a written URL; `None` when parsing raises. */
  function NormalizeText(w: Written, lower: string -> string): Option<Written> {
    match ReadAuthority(w.netloc)
    case None => None
    case Some((hostname, port)) =>
      var (path, params) := ReadPath(w.scheme, w.tail);
      Some(Write(Normalize(Url(w.scheme, hostname, port, path, params, w.query), lower)))
  }

  // ------------------------------------------------------------------- queries

  /** The parameters of a sorted query are those of the query, in order. */
  lemma SplitSorted(query: string)
    ensures Split(SortQuery(query), '&') == Sort(Split(query, '&'), AtMost)
  {
    var ps := Split(query, '&');
    SplitFree(query, '&');
    SortMultiset(ps, AtMost);
    SplitOfJoin(Sort(ps, AtMost), '&');
  }

  /** Two queries are normalised alike exactly when they have the same parameters, in any
      order but each as often. */
  lemma SameQueryIff(a: string, b: string)
    ensures SortQuery(a) == SortQuery(b) <==> multiset(Split(a, '&')) == multiset(Split(b, '&'))
  {
    var ps, qs := Split(a, '&'), Split(b, '&');
    AtMostPreorder();
    SplitSorted(a);
    SplitSorted(b);
    SortMultiset(ps, AtMost);
    SortMultiset(qs, AtMost);
    JoinOfSplit(SortQuery(a), '&');
    JoinOfSplit(SortQuery(b), '&');
    if multiset(ps) == multiset(qs) {
      SortPermutation(ps, qs, AtMost);
    }
  }

  lemma QueryIdempotent(query: string)
    ensures SortQuery(SortQuery(query)) == SortQuery(query)
  {
    AtMostPreorder();
    SplitSorted(query);
    SortSorted(Split(query, '&'), AtMost);
    SortOfSorted(Sort(Split(query, '&'), AtMost), AtMost);
    JoinOfSplit(SortQuery(query), '&');
  }

  // ------------------------------------------------------------- the host part

  /** Lower-casing gives lower-case characters and leaves those alone. */
  ghost predicate Lowering(lower: string -> string, low: char -> bool) {
    && (forall s, k :: 0 <= k < |lower(s)| ==> low(lower(s)[k]))
    && (forall s :: (forall k :: 0 <= k < |s| ==> low(s[k])) ==> lower(s) == s)
  }

  /** The host is read back: it has no colon, or it came without a port out of brackets and
      itself reads as a name and a port that is written as it stands. */
  predicate HostSettles(scheme: string, hostname: string, port: Option<nat>) {
    ':' !in hostname || (port.None? && PortSettles(scheme, Partition(hostname, ':').1))
  }

  predicate PortSettles(scheme: string, text: string) {
    && text != "" && AllDigits(text) && Value(text) <= 65535
    && text == Decimal(Value(text)) && DefaultPort(scheme) != Some(Value(text))
  }

  /** The authority that a second run writes. */
  function RewrittenNetloc(scheme: string, netloc: string, lower: string -> string): Option<string> {
    match ReadAuthority(netloc)
    case None => None
    case Some((hostname, port)) => Some(NetlocText(lower(hostname), KeptPort(scheme, port)))
  }

  /** A host without a colon, with its port or without, is read back. */
  lemma PlainHost(scheme: string, h: string, port: Option<nat>, lower: string -> string)
    requires ':' !in h && lower(h) == h
    requires port.Some? ==> port.value <= 65535 && KeptPort(scheme, port) == port
    ensures RewrittenNetloc(scheme, NetlocText(h, port), lower) == Some(NetlocText(h, port))
  {
    if port.Some? {
      DecimalReads(port.value);
      PartitionIs(h, Decimal(port.value), ':');
    }
  }

  /** A host with a colon and a port after it reads as a host and a bad port. */
  lemma ColonAndPort(scheme: string, h: string, port: nat, lower: string -> string)
    requires ':' in h
    ensures RewrittenNetloc(scheme, NetlocText(h, Some(port)), lower) == None
  {
    var (name, text) := Partition(h, ':');
    var more := text + (":" + Decimal(port));
    assert more[|text|] == ':';
    assert NetlocText(h, Some(port)) == name + (":" + more) by {
      Regroup(name, ":" + text, ":" + Decimal(port));
      Regroup(":", text, ":" + Decimal(port));
    }
    PartitionIs(name, more, ':');
  }

  lemma PrefixLow(h: string, rest: string, lower: string -> string, low: char -> bool)
    requires Lowering(lower, low) && forall k :: 0 <= k < |h + rest| ==> low((h + rest)[k])
    ensures lower(h) == h
  {
    assert forall k :: 0 <= k < |h| ==> (h + rest)[k] == h[k];
  }

  lemma ColonAlone(scheme: string, h: string, lower: string -> string)
    requires ':' in h && lower(Partition(h, ':').0) == Partition(h, ':').0
    ensures RewrittenNetloc(scheme, h, lower) == Some(h) <==> PortSettles(scheme, Partition(h, ':').1)
  {
    var (name, text) := Partition(h, ':');
    LongerThanName(h, name, text);
    if text != "" && AllDigits(text) {
      PortRewritten(scheme, name, text);
    }
  }

  lemma LongerThanName(h: string, name: string, text: string)
    requires h == name + (":" + text)
    ensures h != name
  {
    assert |h| > |name|;
  }

  lemma PortRewritten(scheme: string, name: string, text: string)
    requires text != "" && AllDigits(text)
    ensures NetlocText(name, KeptPort(scheme, Some(Value(text)))) == name + (":" + text)
       <==> DefaultPort(scheme) != Some(Value(text)) && Decimal(Value(text)) == text
  {
    var v := Value(text);
    SameAfter(name, ":" + Decimal(v), ":" + text);
    SameAfter(":", Decimal(v), text);
    assert |name + (":" + text)| > |name|;
  }

  lemma SameAfter(a: string, x: string, y: string)
    ensures a + x == a + y <==> x == y
  {
    assert (a + x)[|a|..] == x && (a + y)[|a|..] == y;
  }

  lemma HostIff(scheme: string, h: string, port: Option<nat>, lower: string -> string, low: char -> bool)
    requires Lowering(lower, low) && (forall k :: 0 <= k < |h| ==> low(h[k]))
    requires port.Some? ==> port.value <= 65535 && KeptPort(scheme, port) == port
    ensures RewrittenNetloc(scheme, NetlocText(h, port), lower) == Some(NetlocText(h, port))
       <==> HostSettles(scheme, h, port)
  {
    assert lower(h) == h;
    if ':' !in h {
      PlainHost(scheme, h, port, lower);
    } else if port.Some? {
      ColonAndPort(scheme, h, port.value, lower);
    } else {
      PrefixLow(Partition(h, ':').0, ":" + Partition(h, ':').1, lower, low);
      ColonAlone(scheme, h, lower);
    }
  }

  // ------------------------------------------------------------- the path part

  predicate OnlySlashes(path: string) { forall k :: 0 <= k < |path| ==> path[k] == '/' }

  /** What `urlparse` gives for the rest of a URL with a host: the path is empty or begins
      with a slash, and parameters are taken off its last segment. */
  predicate ParsedPath(scheme: string, path: string, params: string) {
    && (path == "" || path[0] == '/')
    && if TakesParams(scheme) then ';' !in path[SegmentStart(path)..] && '/' !in params else params == ""
  }

  /** The path is written so that it reads back as it stands.  Only a path with trailing
      slashes may not be: one of slashes alone needs parameters to keep a slash, and a
      semicolon in the segment that the stripped path ends in is read as the start of the
      parameters, which must then be something and follow a name or the root. */
  predicate PathSettles(scheme: string, path: string, params: string) {
    if |path| <= 1 || path[|path| - 1] != '/' then true
    else if OnlySlashes(path) then params != ""
    else
      var q := DropSlashes(path);
      var b := SegmentStart(q);
      var (name, rest) := Partition(q[b..], ';');
      || !TakesParams(scheme) || ';' !in q[b..]
      || ((rest != "" || params != "") && (name != "" || b == 1))
  }

  /** The rest of the URL that a second run writes. */
  function RewrittenTail(scheme: string, tail: string): string {
    var (path, params) := ReadPath(scheme, tail);
    TailText(NormalPath(path), params)
  }

  lemma {:induction false} DropSlashesIs(path: string)
    ensures DropSlashes(path) == "" <==> OnlySlashes(path)
    ensures DropSlashes(path) != "" ==> DropSlashes(path)[|DropSlashes(path)| - 1] != '/'
    ensures |DropSlashes(path)| <= |path| && DropSlashes(path) == path[..|DropSlashes(path)|]
    ensures path != "" && path[|path| - 1] == '/' ==> |DropSlashes(path)| < |path|
  {
    if path != [] && path[|path| - 1] == '/' {
      DropSlashesIs(path[..|path| - 1]);
      assert forall k :: 0 <= k < |path| - 1 ==> path[..|path| - 1][k] == path[k];
    }
  }

  lemma {:induction false} SegmentIs(a: string, s: string)
    requires (a == "" || a[|a| - 1] == '/') && '/' !in s
    ensures SegmentStart(a + s) == |a|
  {
    if s == "" {
      assert a + s == a;
    } else {
      assert (a + s)[|a + s| - 1] == s[|s| - 1];
      assert (a + s)[..|a + s| - 1] == a + s[..|s| - 1];
      SegmentIs(a, s[..|s| - 1]);
    }
  }

  /** The parameters of a written path begin at the first semicolon of its last segment. */
  lemma SplitIs(a: string, s: string, q: string)
    requires (a == "" || a[|a| - 1] == '/') && '/' !in s && ';' !in s && '/' !in q
    ensures SplitParams(a + (s + (";" + q))) == (a + s, q)
  {
    var rest := s + (";" + q);
    SegmentIs(a, rest);
    PartitionIs(s, q, ';');
    Halves(a, rest);
  }

  lemma SplitNone(a: string, s: string)
    requires (a == "" || a[|a| - 1] == '/') && '/' !in s && ';' !in s
    ensures SplitParams(a + s) == (a + s, "")
  {
    SegmentIs(a, s);
    Halves(a, s);
  }

  lemma Halves(a: string, b: string)
    ensures (a + b)[..|a|] == a && (a + b)[|a|..] == b
  {
  }

  /** A path that is not emptied and holds no semicolon in its last segment is read back. */
  lemma ReadBack(scheme: string, p: string, params: string)
    requires p != "" && p[0] == '/' && ParsedPath(scheme, p, params)
    ensures ReadPath(scheme, TailText(p, params)) == (p, params)
  {
    var b := SegmentStart(p);
    assert p == p[..b] + p[b..];
    if TakesParams(scheme) {
      if params == "" {
        SplitNone(p[..b], p[b..]);
      } else {
        SplitIs(p[..b], p[b..], params);
        Regroup(p[..b], p[b..], ";" + params);
      }
    }
  }

  lemma Settled(scheme: string, p: string, params: string)
    requires p != "" && p[0] == '/' && ParsedPath(scheme, p, params) && NormalPath(p) == p
    ensures RewrittenTail(scheme, TailText(p, params)) == TailText(p, params)
  {
    ReadBack(scheme, p, params);
  }

  lemma AllSlashes(scheme: string, params: string)
    requires if TakesParams(scheme) then '/' !in params else params == ""
    ensures RewrittenTail(scheme, TailText("", params)) == TailText("", params) <==> params != ""
  {
    if params == "" {
      EmptyTail(scheme);
    } else {
      LeadingSlash(params);
      RootSettled(scheme, params);
    }
  }

  lemma LeadingSlash(params: string)
    requires params != ""
    ensures TailText("", params) == TailText("/", params)
  {
    assert "" + (";" + params) == ";" + params;
  }

  lemma EmptyTail(scheme: string)
    ensures RewrittenTail(scheme, "") == "/"
  {
  }

  lemma RootSettled(scheme: string, params: string)
    requires if TakesParams(scheme) then '/' !in params else params == ""
    ensures RewrittenTail(scheme, TailText("/", params)) == TailText("/", params)
  {
    assert "/"[SegmentStart("/")..] == "";
    Settled(scheme, "/", params);
  }

  function Tail2(rest: string, params: string): string { if params == "" then rest else rest + (";" + params) }

  /** The stripped path `a + s + ";" + t` ends in a segment with a semicolon. */
  lemma SemicolonIff(scheme: string, a: string, s: string, t: string, params: string)
    requires TakesParams(scheme) && a != "" && a[0] == '/' && a[|a| - 1] == '/'
    requires '/' !in s && ';' !in s && '/' !in t && '/' !in params
    ensures var tail := TailText(a + (s + (";" + t)), params);
      RewrittenTail(scheme, tail) == tail <==> (t != "" || params != "") && (s != "" || |a| == 1)
  {
    var more := Tail2(t, params);
    MoreParams(a, s, t, params);
    MoreFree(t, params);
    SplitIs(a, s, more);
    Regroup(a, s, ";" + more);
    if s == "" {
      assert a + s == a;
      SlashBeforeSemicolon(a, more);
    } else {
      LastOf(a, s);
      NameBeforeSemicolon(a + s, more);
    }
  }

  lemma MoreFree(t: string, params: string)
    requires '/' !in t && '/' !in params
    ensures '/' !in Tail2(t, params) && (Tail2(t, params) == "" <==> t == "" && params == "")
  {
  }

  lemma LastOf(a: string, s: string)
    requires a != "" && s != "" && '/' !in s
    ensures a + s != "" && (a + s)[0] == a[0] && (a + s)[|a + s| - 1] != '/'
  {
    assert (a + s)[|a + s| - 1] == s[|s| - 1] && s[|s| - 1] in s;
  }

  lemma MoreParams(a: string, s: string, t: string, params: string)
    requires a != "" && a[0] == '/'
    ensures TailText(a + (s + (";" + t)), params) == a + (s + (";" + Tail2(t, params)))
  {
    if params != "" {
      var p := ";" + params;
      Regroup(a, s + (";" + t), p);
      Regroup(s, ";" + t, p);
      Regroup(";", t, p);
    }
  }

  lemma NameBeforeSemicolon(p: string, more: string)
    requires p != "" && p[0] == '/' && p[|p| - 1] != '/'
    ensures TailText(NormalPath(p), more) == p + (";" + more) <==> more != ""
  {
  }

  lemma SlashBeforeSemicolon(a: string, more: string)
    requires a != "" && a[0] == '/' && a[|a| - 1] == '/'
    ensures TailText(NormalPath(a), more) == a + (";" + more) <==> more != "" && |a| == 1
  {
    DropSlashesIs(a);
    if |a| > 1 {
      assert |TailText(DropSlashes(a), more)| <= |a| + |more|;
    }
  }

  lemma StrippedIff(scheme: string, path: string, params: string)
    requires ParsedPath(scheme, path, params) && |path| > 1 && path[|path| - 1] == '/' && !OnlySlashes(path)
    ensures var tail := TailText(NormalPath(path), params);
      RewrittenTail(scheme, tail) == tail <==> PathSettles(scheme, path, params)
  {
    var q := DropSlashes(path);
    DropSlashesIs(path);
    assert NormalPath(path) == q && q != "" && q[0] == '/' && NormalPath(q) == q;
    if !TakesParams(scheme) || ';' !in q[SegmentStart(q)..] {
      Settled(scheme, q, params);
    } else {
      SegmentIff(scheme, q, params);
    }
  }

  lemma SegmentIff(scheme: string, q: string, params: string)
    requires TakesParams(scheme) && q != "" && q[0] == '/' && '/' !in params && ';' in q[SegmentStart(q)..]
    ensures var b := SegmentStart(q);
      var (s, t) := Partition(q[b..], ';');
      RewrittenTail(scheme, TailText(q, params)) == TailText(q, params)
      <==> (t != "" || params != "") && (s != "" || b == 1)
  {
    var b := SegmentStart(q);
    var a := q[..b];
    var (s, t) := Partition(q[b..], ';');
    FirstSegment(q);
    SlashFree(s, t, q[b..]);
    assert q == a + (s + (";" + t)) && a[0] == '/' && a[|a| - 1] == '/';
    SemicolonIff(scheme, a, s, t, params);
  }

  lemma FirstSegment(q: string)
    requires q != "" && q[0] == '/'
    ensures SegmentStart(q) > 0
  {
    assert q[0] in q && q[0..] == q;
  }

  lemma SlashFree(s: string, t: string, segment: string)
    requires segment == s + (";" + t) && '/' !in segment
    ensures '/' !in s && '/' !in t
  {
    assert forall c :: c in s ==> c in segment;
    assert forall c :: c in t ==> c in segment;
  }

  lemma PathIff(scheme: string, path: string, params: string)
    requires ParsedPath(scheme, path, params)
    ensures var tail := TailText(NormalPath(path), params);
      RewrittenTail(scheme, tail) == tail <==> PathSettles(scheme, path, params)
  {
    if |path| <= 1 || path[|path| - 1] != '/' {
      var p := NormalPath(path);
      assert path == "" ==> p == "/" && p[SegmentStart(p)..] == "";
      Settled(scheme, p, params);
    } else if OnlySlashes(path) {
      DropSlashesIs(path);
      AllSlashes(scheme, params);
    } else {
      StrippedIff(scheme, path, params);
    }
  }

  // ----------------------------------------------------------------- the whole

  /** What `urlparse` guarantees of a URL with a host. */
  predicate Parsed(u: Url, scheme: string) {
    u.hostname != "" && (u.port.Some? ==> u.port.value <= 65535) && ParsedPath(scheme, u.path, u.params)
  }

  /** Normalising the text of a normalised URL gives that text again exactly when its host
      and its path read back as they were written. */
  lemma NormalizeTwiceIff(u: Url, lower: string -> string, low: char -> bool)
    requires Lowering(lower, low) && Parsed(u, lower(u.scheme))
    ensures var scheme := lower(u.scheme);
      var w := Write(Normalize(u, lower));
      NormalizeText(w, lower) == Some(w)
      <==> HostSettles(scheme, lower(u.hostname), KeptPort(scheme, u.port)) && PathSettles(scheme, u.path, u.params)
  {
    var scheme := lower(u.scheme);
    var w := Write(Normalize(u, lower));
    HostIff(scheme, lower(u.hostname), KeptPort(scheme, u.port), lower, low);
    PathIff(scheme, u.path, u.params);
    QueryIdempotent(u.query);
    assert lower(scheme) == scheme;
    TextParts(w, lower);
  }

  /** A second run works on authority, rest and query one by one. */
  lemma TextParts(w: Written, lower: string -> string)
    requires lower(w.scheme) == w.scheme
    ensures NormalizeText(w, lower)
         == match RewrittenNetloc(w.scheme, w.netloc, lower)
            case None => None
            case Some(netloc) => Some(Written(w.scheme, netloc, RewrittenTail(w.scheme, w.tail), SortQuery(w.query)))
  {
  }

  // --------------------------------------------------- what a URL becomes

  /** The default port of its scheme. */
  predicate Redundant(scheme: string, port: nat) {
    (scheme == "http" && port == 80) || (scheme == "https" && port == 443)
  }

  /** The path without its trailing slashes, down to nothing; one slash alone stays, and
      stands for an empty path. */
  ghost predicate Trims(path: string, q: string) {
    if |path| <= 1 then q == (if path == "" then "/" else path)
    else |q| <= |path| && q == path[..|q|] && OnlySlashes(path[|q|..]) && (q != "" ==> q[|q| - 1] != '/')
  }

  lemma {:induction false} DroppedSlashes(path: string)
    ensures |DropSlashes(path)| <= |path| && OnlySlashes(path[|DropSlashes(path)|..])
  {
    if path != [] && path[|path| - 1] == '/' {
      var p := path[..|path| - 1];
      DroppedSlashes(p);
      var n := |DropSlashes(p)|;
      assert path[n..] == p[n..] + ['/'];
    }
  }

  lemma NormalPathTrims(path: string)
    ensures Trims(path, NormalPath(path))
  {
    DropSlashesIs(path);
    DroppedSlashes(path);
    assert path[|path|..] == "";
  }

  /** A normalised URL: scheme and host in lower case, no port that is the scheme's default
      and every other kept, the path trimmed, its parameters kept, the query's parameters in
      order and none of them lost. */
  lemma NormalizedParts(u: Url, lower: string -> string)
    ensures var w := Write(Normalize(u, lower));
      && w.scheme == lower(u.scheme)
      && w.netloc == (if u.port.None? || Redundant(w.scheme, u.port.value) then lower(u.hostname)
                      else lower(u.hostname) + (":" + Decimal(u.port.value)))
      && multiset(Split(w.query, '&')) == multiset(Split(u.query, '&')) && Sorted(Split(w.query, '&'), AtMost)
      && exists q :: Trims(u.path, q) &&
           var t := if u.params == "" then q else q + (";" + u.params);
           w.tail == if t != "" && t[0] != '/' then "/" + t else t
  {
    NormalPathTrims(u.path);
    SplitSorted(u.query);
    AtMostPreorder();
    SortMultiset(Split(u.query, '&'), AtMost);
    SortSorted(Split(u.query, '&'), AtMost);
  }

  // ------------------------------------------------------- where it fails

  /** An authority with a second colon, such as an IPv6 address without its brackets, has no
      valid port: the second run raises. */
  lemma SecondColonRefused(w: Written, lower: string -> string)
    requires ':' in Partition(w.netloc, ':').1
    ensures NormalizeText(w, lower) == None
  {
    var text := Partition(w.netloc, ':').1;
    var k :| 0 <= k < |text| && text[k] == ':';
    assert !AllDigits(text);
  }

  /** `http://[::1]/` is written without its brackets, and is refused the second time. */
  lemma Ipv6Refused(lower: string -> string, low: char -> bool)
    requires Lowering(lower, low) && forall c :: c in "http://::1" ==> low(c)
    ensures var w := Write(Normalize(Url("http", "::1", None, "/", "", ""), lower));
      w.netloc == "::1" && NormalizeText(w, lower) == None
  {
    var h := "::1";
    assert forall k :: 0 <= k < |h| ==> h[k] in "http://::1";
    PartitionIs("", ":1", ':');
    assert "" + (":" + ":1") == h;
    assert ":1"[0] == ':';
    SecondColonRefused(Write(Normalize(Url("http", h, None, "/", "", ""), lower)), lower);
  }

  /** `http://h/a;/` becomes `http://h/a;` and then `http://h/a`, and so with https. */
  lemma EmptyParameters(scheme: string)
    requires scheme == "http" || scheme == "https"
    ensures TailText(NormalPath("/a;/"), "") == "/a;" && RewrittenTail(scheme, "/a;") == "/a"
  {
    var p := "/a;/";
    assert p[..3] == "/a;";
    assert DropSlashes("/a;") == "/a;";
    ReadsEmpty(scheme);
    assert NormalPath("/a") == "/a";
  }

  lemma ReadsEmpty(scheme: string)
    requires scheme == "http" || scheme == "https"
    ensures ReadPath(scheme, "/a;") == ("/a", "")
  {
    SplitIs("/", "a", "");
    assert "/" + ("a" + (";" + "")) == "/a;" && "/" + "a" == "/a";
  }

  /** `http://h/a/;b/` becomes `http://h/a/;b` and then `http://h/a;b`, and so with https. */
  lemma ParametersAfterSlash(scheme: string)
    requires scheme == "http" || scheme == "https"
    ensures TailText(NormalPath("/a/;b/"), "") == "/a/;b" && RewrittenTail(scheme, "/a/;b") == "/a;b"
  {
    var p := "/a/;b/";
    assert p[..5] == "/a/;b";
    SplitIs("/a/", "", "b");
    assert "/a/" + ("" + (";" + "b")) == p[..5] && "/a/" + "" == "/a/";
    assert "/a/"[..2] == "/a";
    assert DropSlashes("/a/") == "/a";
    assert "/a" + (";" + "b") == "/a;b";
  }
}
