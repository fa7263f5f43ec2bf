/** What the operations of the interactive browser service achieve, and that nothing undoes
    it later (app/browser/service.py). */
module SessionEffects {
  import opened Sequences
  import opened SessionModel
  import opened SessionSafety
  import opened SessionCap

  // ------------------------------------------------------------- what one does

  /** A session that was just made is found by its owner until it expires, by nobody else,
      and has no tabs. */
  lemma CreatedIsFound(cfg: Config, evaluate: bool, s: State, k: nat, op: Op, answer: Answer, newId: string,
                       other: string, later: int)
    requires op.CreateCall? && answer.Accepted? && other != op.owner
    ensures var (t, reply) := ResumeCreate(cfg, evaluate, s, k, op, answer, newId);
      && reply == Done(newId)
      && (Lookup(cfg, t, op.owner, newId, later).None? <==> later < op.now + cfg.ttl)
      && Lookup(cfg, t, other, newId, later) == Some(NotFound)
      && newId in t.sessions && t.sessions[newId].tabs == map[]
  {
  }

  /** A tab that was just opened is found, the others are as before, and the session lives
      on from the time of the request. */
  lemma OpenedIsFound(cfg: Config, s: State, k: nat, op: Op, answer: Answer, newId: string, later: int)
    requires op.TabCall? && op.id in s.sessions && op.id in s.live && answer.Accepted?
    ensures var (t, reply) := ResumeTab(cfg, s, k, op, answer, newId);
      var owner := s.sessions[op.id].profile;
      && reply == Done(newId)
      && (LookupTab(cfg, t, owner, op.id, newId, later).None? <==> later < op.now + cfg.ttl)
      && t.sessions[op.id].tabs - {newId} == s.sessions[op.id].tabs - {newId}
  {
  }

  /** The scan finds exactly the registered sessions that are expired. */
  lemma {:induction false} ScanFinds(cfg: Config, s: State, now: int, order: seq<string>, id: string)
    ensures id in ExpiredOnes(cfg, s, now, order)
       <==> id in order && id in s.live && id in s.sessions && ExpiredAt(cfg, s.sessions[id], now)
  {
    if order != [] {
      ScanFinds(cfg, s, now, order[1..], id);
    }
  }

  // ---------------------------------------------------------- nothing undoes it

  /** The session was released: it exists as a record only. */
  predicate Released(s: State, id: string) { id in s.sessions && id !in s.live }

  /** The tab is not in its session. */
  predicate Closed(s: State, id: string, tab: string) { id in s.sessions && tab !in s.sessions[id].tabs }

  /** The last stretch of a release takes the session out of the registry. */
  lemma ReleaseReleases(s: State, k: nat, op: Op)
    requires op.ReleasePop? && op.id in s.sessions
    ensures Released(ResumeRelease(s, k, op).0, op.id)
  {
  }

  /** The last stretch of closing a tab removes it. */
  lemma CloseCloses(s: State, k: nat, op: Op, answer: Answer, now: int)
    requires op.CloseWait? && op.id in s.sessions
    ensures Closed(ResumeClose(s, k, op, answer, now).0, op.id, op.tab)
  {
  }

  lemma StepReleased(cfg: Config, evaluate: bool, s: State, e: Event, id: string)
    requires Known(s) && Enabled(s, e) && Released(s, id)
    ensures Released(Step(cfg, evaluate, s, e).0, id)
  {
    match e
    case Start(k, profile, request, now) => BeginKeeps(cfg, s, k, profile, request, now);
    case Sweep(_, _) =>
    case Scan(_, _) =>
    case Resume(k, answer, now, newId) => ResumeReleased(cfg, evaluate, s, k, answer, now, newId, id);
  }

  lemma BeginKeeps(cfg: Config, s: State, k: nat, owner: string, request: Request, now: int)
    ensures var t := Begin(cfg, s, k, owner, request, now).0; t.sessions == s.sessions && t.live == s.live
  {
  }

  lemma ResumeReleased(cfg: Config, evaluate: bool, s: State, k: nat, answer: Answer, now: int, newId: string, id: string)
    requires Known(s) && Enabled(s, Resume(k, answer, now, newId)) && Released(s, id)
    ensures Released(Step(cfg, evaluate, s, Resume(k, answer, now, newId)).0, id)
  {
    var op := s.ops[k];
    if !op.CreateWait? && !op.CreateCall? {
      assert Uses(op, op.id);
    }
  }

  lemma StepClosed(cfg: Config, evaluate: bool, s: State, e: Event, id: string, tab: string)
    requires Known(s) && Enabled(s, e) && Closed(s, id, tab)
    requires e.Resume? ==> e.newId != tab
    ensures Closed(Step(cfg, evaluate, s, e).0, id, tab)
  {
    match e
    case Start(k, profile, request, now) => BeginKeeps(cfg, s, k, profile, request, now);
    case Sweep(_, _) =>
    case Scan(_, _) =>
    case Resume(k, answer, now, newId) => ResumeClosed(cfg, evaluate, s, k, answer, now, newId, id, tab);
  }

  lemma ResumeClosed(cfg: Config, evaluate: bool, s: State, k: nat, answer: Answer, now: int, newId: string,
                     id: string, tab: string)
    requires Known(s) && Enabled(s, Resume(k, answer, now, newId)) && Closed(s, id, tab) && newId != tab
    ensures Closed(Step(cfg, evaluate, s, Resume(k, answer, now, newId)).0, id, tab)
  {
    var op := s.ops[k];
    if !op.CreateWait? && !op.CreateCall? {
      assert Uses(op, op.id);
    }
  }

  lemma {:induction false} StaysReleased(
    cfg: Config, evaluate: bool, s: State, es: seq<Event>, id: string, owner: string, now: int)
    requires Runs(cfg, evaluate, s, es) && Released(s, id)
    ensures Lookup(cfg, After(cfg, evaluate, s, es), owner, id, now) == Some(NotFound)
    ensures Released(After(cfg, evaluate, s, es), id)
    decreases |es|
  {
    if es != [] {
      StepReleased(cfg, evaluate, s, es[0], id);
      StaysReleased(cfg, evaluate, Step(cfg, evaluate, s, es[0]).0, es[1..], id, owner, now);
    }
  }

  /** From the last stretch of a release on, whatever operations are suspended on the session
      and whatever follows, every profile gets the answer of an unknown session. */
  lemma GoneForever(cfg: Config, evaluate: bool, s: State, e: Event, es: seq<Event>, owner: string, now: int)
    requires Runs(cfg, evaluate, s, [e] + es) && e.Resume? && s.ops[e.op].ReleasePop?
    ensures Lookup(cfg, After(cfg, evaluate, s, [e] + es), owner, s.ops[e.op].id, now) == Some(NotFound)
  {
    var op := s.ops[e.op];
    assert Uses(op, op.id);
    ReleaseReleases(s, e.op, op);
    assert ([e] + es)[1..] == es;
    StaysReleased(cfg, evaluate, Step(cfg, evaluate, s, e).0, es, op.id, owner, now);
  }

  lemma {:induction false} StaysClosed(cfg: Config, evaluate: bool, s: State, es: seq<Event>, id: string, tab: string)
    requires Runs(cfg, evaluate, s, es) && Closed(s, id, tab)
    requires forall i :: 0 <= i < |es| && es[i].Resume? ==> es[i].newId != tab
    ensures Closed(After(cfg, evaluate, s, es), id, tab)
    decreases |es|
  {
    if es != [] {
      StepClosed(cfg, evaluate, s, es[0], id, tab);
      StaysClosed(cfg, evaluate, Step(cfg, evaluate, s, es[0]).0, es[1..], id, tab);
    }
  }

  /** From the last stretch that closes a tab on, the tab never comes back unless its random
      identifier is drawn again: a page action that was suspended on it updates nothing. */
  lemma ClosedForever(cfg: Config, evaluate: bool, s: State, e: Event, es: seq<Event>, owner: string, now: int)
    requires Runs(cfg, evaluate, s, [e] + es) && e.Resume? && s.ops[e.op].CloseWait?
    requires forall i :: 0 <= i < |es| && es[i].Resume? ==> es[i].newId != s.ops[e.op].tab
    ensures var t := After(cfg, evaluate, s, [e] + es);
      var op := s.ops[e.op];
      Closed(t, op.id, op.tab) && LookupTab(cfg, t, owner, op.id, op.tab, now).Some?
  {
    var op := s.ops[e.op];
    assert Uses(op, op.id);
    CloseCloses(s, e.op, op, e.answer, e.now);
    assert ([e] + es)[1..] == es;
    StaysClosed(cfg, evaluate, Step(cfg, evaluate, s, e).0, es, op.id, op.tab);
  }

  // --------------------------------------------------------- nothing loses it

  /** The last stretch of a release of the session. */
  predicate Releases(s: State, e: Event, id: string) {
    e.Resume? && e.op in s.ops && s.ops[e.op].ReleasePop? && s.ops[e.op].id == id
  }

  /** The last stretch that closes the tab. */
  predicate Closes(s: State, e: Event, id: string, tab: string) {
    e.Resume? && e.op in s.ops && s.ops[e.op].CloseWait? && s.ops[e.op].id == id && s.ops[e.op].tab == tab
  }

  /** The run does not release the session. */
  ghost predicate Spares(cfg: Config, evaluate: bool, s: State, es: seq<Event>, id: string)
    requires Runs(cfg, evaluate, s, es)
    decreases |es|
  {
    es == [] || (!Releases(s, es[0], id) && Spares(cfg, evaluate, Step(cfg, evaluate, s, es[0]).0, es[1..], id))
  }

  ghost predicate SparesTab(cfg: Config, evaluate: bool, s: State, es: seq<Event>, id: string, tab: string)
    requires Runs(cfg, evaluate, s, es)
    decreases |es|
  {
    es == [] ||
      (!Closes(s, es[0], id, tab) && SparesTab(cfg, evaluate, Step(cfg, evaluate, s, es[0]).0, es[1..], id, tab))
  }

  predicate Registered(s: State, id: string, owner: string) {
    id in s.live && id in s.sessions && s.sessions[id].profile == owner
  }

  predicate Open(s: State, id: string, tab: string) { id in s.sessions && tab in s.sessions[id].tabs }

  lemma ResumeRegistered(cfg: Config, evaluate: bool, s: State, e: Event, id: string, owner: string)
    requires e.Resume? && Known(s) && Enabled(s, e) && Registered(s, id, owner) && !Releases(s, e, id)
    ensures Registered(Step(cfg, evaluate, s, e).0, id, owner)
  {
    var op := s.ops[e.op];
    if !op.CreateWait? && !op.CreateCall? {
      assert Uses(op, op.id);
    }
  }

  lemma StepRegistered(cfg: Config, evaluate: bool, s: State, e: Event, id: string, owner: string)
    requires Known(s) && Enabled(s, e) && Registered(s, id, owner) && !Releases(s, e, id)
    ensures Registered(Step(cfg, evaluate, s, e).0, id, owner)
  {
    match e
    case Start(k, profile, request, now) => BeginKeeps(cfg, s, k, profile, request, now);
    case Sweep(_, _) =>
    case Scan(_, _) =>
    case Resume(_, _, _, _) => ResumeRegistered(cfg, evaluate, s, e, id, owner);
  }

  lemma {:induction false} StaysRegistered(
    cfg: Config, evaluate: bool, s: State, es: seq<Event>, id: string, owner: string)
    requires Runs(cfg, evaluate, s, es) && Registered(s, id, owner) && Spares(cfg, evaluate, s, es, id)
    ensures Registered(After(cfg, evaluate, s, es), id, owner)
    decreases |es|
  {
    if es != [] {
      StepRegistered(cfg, evaluate, s, es[0], id, owner);
      StaysRegistered(cfg, evaluate, Step(cfg, evaluate, s, es[0]).0, es[1..], id, owner);
    }
  }

  /** From the stretch that makes a session on, over any run that does not release it, its
      owner finds it exactly until it expires after its last activity, and nobody else ever
      does. */
  lemma FoundUntilReleased(
    cfg: Config, evaluate: bool, s: State, e: Event, es: seq<Event>, other: string, later: int)
    requires Runs(cfg, evaluate, s, [e] + es) && e.Resume? && s.ops[e.op].CreateCall? && e.answer.Accepted?
    requires Spares(cfg, evaluate, Step(cfg, evaluate, s, e).0, es, e.newId) && other != s.ops[e.op].owner
    ensures var t := After(cfg, evaluate, s, [e] + es);
      && e.newId in t.sessions
      && (Lookup(cfg, t, s.ops[e.op].owner, e.newId, later).None? <==> later < t.sessions[e.newId].lastActivity + cfg.ttl)
      && Lookup(cfg, t, other, e.newId, later) == Some(NotFound)
  {
    var op := s.ops[e.op];
    CreatedIsFound(cfg, evaluate, s, e.op, op, e.answer, e.newId, other, later);
    CreatedIsFound(cfg, evaluate, s, e.op, op, e.answer, e.newId, other, op.now + cfg.ttl - 1);
    assert ([e] + es)[1..] == es;
    StaysRegistered(cfg, evaluate, Step(cfg, evaluate, s, e).0, es, e.newId, op.owner);
  }

  lemma ResumeOpen(cfg: Config, evaluate: bool, s: State, e: Event, id: string, tab: string)
    requires e.Resume? && Known(s) && Enabled(s, e) && Open(s, id, tab) && !Closes(s, e, id, tab)
    ensures Open(Step(cfg, evaluate, s, e).0, id, tab)
  {
    var op := s.ops[e.op];
    if !op.CreateWait? && !op.CreateCall? {
      assert Uses(op, op.id);
    }
  }

  lemma StepOpen(cfg: Config, evaluate: bool, s: State, e: Event, id: string, tab: string)
    requires Known(s) && Enabled(s, e) && Open(s, id, tab) && !Closes(s, e, id, tab)
    ensures Open(Step(cfg, evaluate, s, e).0, id, tab)
  {
    match e
    case Start(k, profile, request, now) => BeginKeeps(cfg, s, k, profile, request, now);
    case Sweep(_, _) =>
    case Scan(_, _) =>
    case Resume(_, _, _, _) => ResumeOpen(cfg, evaluate, s, e, id, tab);
  }

  lemma {:induction false} StaysOpen(cfg: Config, evaluate: bool, s: State, es: seq<Event>, id: string, tab: string)
    requires Runs(cfg, evaluate, s, es) && Open(s, id, tab) && SparesTab(cfg, evaluate, s, es, id, tab)
    ensures Open(After(cfg, evaluate, s, es), id, tab)
    decreases |es|
  {
    if es != [] {
      StepOpen(cfg, evaluate, s, es[0], id, tab);
      StaysOpen(cfg, evaluate, Step(cfg, evaluate, s, es[0]).0, es[1..], id, tab);
    }
  }

  /** From the stretch that opens a tab in a registered session on, over any run that neither
      closes the tab nor releases the session, the owner finds the tab exactly until the
      session expires after its last activity. */
  lemma FoundUntilClosed(cfg: Config, evaluate: bool, s: State, e: Event, es: seq<Event>, owner: string, later: int)
    requires Runs(cfg, evaluate, s, [e] + es) && e.Resume? && s.ops[e.op].TabCall? && e.answer.Accepted?
    requires Registered(s, s.ops[e.op].id, owner)
    requires Spares(cfg, evaluate, Step(cfg, evaluate, s, e).0, es, s.ops[e.op].id)
    requires SparesTab(cfg, evaluate, Step(cfg, evaluate, s, e).0, es, s.ops[e.op].id, e.newId)
    ensures var t := After(cfg, evaluate, s, [e] + es);
      var id := s.ops[e.op].id;
      && id in t.sessions
      && (LookupTab(cfg, t, owner, id, e.newId, later).None? <==> later < t.sessions[id].lastActivity + cfg.ttl)
  {
    var op := s.ops[e.op];
    OpenedIsFound(cfg, s, e.op, op, e.answer, e.newId, op.now + cfg.ttl - 1);
    assert ([e] + es)[1..] == es;
    StaysRegistered(cfg, evaluate, Step(cfg, evaluate, s, e).0, es, op.id, owner);
    StaysOpen(cfg, evaluate, Step(cfg, evaluate, s, e).0, es, op.id, e.newId);
  }

  // ----------------------------------------------------------- last activity

  /** The time at which the request of an operation on a session came, if it is kept. */
  predicate StartedBefore(op: Op, id: string, since: int) {
    match op
    case TabWait(i, _, now) => i == id && now < since
    case TabCall(i, _, now) => i == id && now < since
    case ActCall(i, _, _, now) => i == id && now < since
    case _ => false
  }

  /** Neither the session nor an operation on it remembers an earlier time. */
  ghost predicate Since(s: State, id: string, since: int) {
    && id in s.sessions && s.sessions[id].lastActivity >= since
    && forall k :: k in s.ops ==> !StartedBefore(s.ops[k], id, since)
  }

  lemma BeginSince(cfg: Config, s: State, k: nat, owner: string, request: Request, now: int, id: string, since: int)
    requires Since(s, id, since) && since <= now && k !in s.ops
    ensures Since(Begin(cfg, s, k, owner, request, now).0, id, since)
  {
  }

  lemma ResumeSince(cfg: Config, evaluate: bool, s: State, e: Event, id: string, since: int)
    requires e.Resume? && Known(s) && Enabled(s, e) && Since(s, id, since) && since <= e.now
    ensures Since(Step(cfg, evaluate, s, e).0, id, since)
  {
    var op := s.ops[e.op];
    if !op.CreateWait? && !op.CreateCall? {
      assert Uses(op, op.id);
    }
  }

  lemma {:induction false} StaysSince(
    cfg: Config, evaluate: bool, s: State, clock: int, es: seq<Event>, id: string, since: int)
    requires ClockRun(cfg, evaluate, s, clock, es) && Since(s, id, since) && since <= clock
    ensures Since(EndState(cfg, evaluate, s, clock, es), id, since)
    decreases |es|
  {
    if es != [] {
      match es[0] {
        case Start(k, profile, request, now) => BeginSince(cfg, s, k, profile, request, now, id, since);
        case Sweep(_, _) =>
        case Scan(_, _) =>
        case Resume(_, _, _, _) => ResumeSince(cfg, evaluate, s, es[0], id, since);
      }
      StaysSince(cfg, evaluate, Step(cfg, evaluate, s, es[0]).0, TimeOf(es[0], clock), es[1..], id, since);
    }
  }

  /** Along a clock that does not go back the last activity of a session is never before the
      request that made it, although an operation may take it back to the time of its own
      request: a session lives for its full time at least. */
  lemma LivesItsTime(cfg: Config, evaluate: bool, s: State, clock: int, e: Event, es: seq<Event>)
    requires ClockRun(cfg, evaluate, s, clock, [e] + es)
    requires e.Resume? && s.ops[e.op].CreateCall? && e.answer.Accepted? && s.ops[e.op].now <= e.now
    ensures var t := EndState(cfg, evaluate, s, clock, [e] + es);
      e.newId in t.sessions && t.sessions[e.newId].lastActivity >= s.ops[e.op].now
  {
    var t := Step(cfg, evaluate, s, e).0;
    forall k | k in t.ops
      ensures !StartedBefore(t.ops[k], e.newId, s.ops[e.op].now)
    {
      assert !Uses(s.ops[k], e.newId);
    }
    assert ([e] + es)[1..] == es;
    StaysSince(cfg, evaluate, t, e.now, es, e.newId, s.ops[e.op].now);
  }
}
