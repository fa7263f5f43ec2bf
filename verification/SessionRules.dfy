/** What the interactive browser service admits and what it answers (app/browser/service.py):
    each request in terms of the records it meets, and each answer of the provider in terms
    of the record it leaves. */
module SessionRules {
  import opened Sequences
  import opened SessionModel
  import opened SessionSafety
  import SessionEffects

  // ------------------------------------------------------------- admission

  /** The owner's registered session. */
  predicate Owns(s: State, owner: string, id: string) {
    id in s.live && id in s.sessions && s.sessions[id].profile == owner
  }

  /** ... within its time to live after the last activity. */
  predicate Alive(cfg: Config, s: State, owner: string, id: string, now: int) {
    Owns(s, owner, id) && now < s.sessions[id].lastActivity + cfg.ttl
  }

  /** Nothing but the reply. */
  predicate Refuses(s: State, t: State, reply: Reply, error: Error) { t == s && reply == Failed(error) }

  /** The operation is now suspended as `op`, and nothing else has changed. */
  predicate Waits(s: State, t: State, k: nat, reply: Reply, op: Op) {
    reply == Suspended && t == s.(ops := s.ops[k := op])
  }

  lemma SessionCreation(cfg: Config, evaluate: bool, s: State, k: nat, owner: string, now: int)
    requires Known(s) && k !in s.ops
    ensures var (t, reply) := Step(cfg, evaluate, s, Start(k, owner, CreateSession, now));
      if cfg.enabled then Waits(s, t, k, reply, CreateWait(owner, now)) else Refuses(s, t, reply, Disabled)
  {
  }

  /** A request for a session that is not the owner's own is refused as unknown, and one for
      a session past its time as expired. */
  lemma SessionNeeded(cfg: Config, evaluate: bool, s: State, k: nat, owner: string, request: Request, now: int)
    requires Known(s) && k !in s.ops && !request.CreateSession? && !Alive(cfg, s, owner, request.id, now)
    ensures var (t, reply) := Step(cfg, evaluate, s, Start(k, owner, request, now));
      Refuses(s, t, reply, if Owns(s, owner, request.id) then Expired else NotFound)
  {
  }

  lemma SessionRead(cfg: Config, evaluate: bool, s: State, k: nat, owner: string, id: string, now: int)
    requires Known(s) && k !in s.ops && Alive(cfg, s, owner, id, now)
    ensures Step(cfg, evaluate, s, Start(k, owner, GetSession(id), now)) == (s, Done(id))
    ensures var (t, reply) := Step(cfg, evaluate, s, Start(k, owner, DeleteSession(id), now));
      Waits(s, t, k, reply, ReleaseWait(id, []))
  {
  }

  /** A tab with a URL that the rules reject is never begun. */
  lemma TabAdmitted(cfg: Config, evaluate: bool, s: State, k: nat, owner: string, id: string, url: Option<string>,
                    urlAllowed: bool, now: int)
    requires Known(s) && k !in s.ops && Alive(cfg, s, owner, id, now)
    ensures var (t, reply) := Step(cfg, evaluate, s, Start(k, owner, CreateTab(id, url, urlAllowed), now));
      if url.Some? && !urlAllowed then Refuses(s, t, reply, UrlRejected)
      else Waits(s, t, k, reply, TabWait(id, url, now))
  {
  }

  lemma TabNeeded(cfg: Config, evaluate: bool, s: State, k: nat, owner: string, id: string, tab: string, now: int)
    requires Known(s) && k !in s.ops && Alive(cfg, s, owner, id, now)
    ensures var (t, reply) := Step(cfg, evaluate, s, Start(k, owner, DeleteTab(id, tab), now));
      if tab in s.sessions[id].tabs then Waits(s, t, k, reply, CloseCall(id, tab)) else Refuses(s, t, reply, TabNotFound)
  {
  }

  /** What an action needs besides its tab. */
  predicate Permitted(session: Session, action: Action, urlAllowed: bool, complete: bool, canEvaluate: bool) {
    && (action == Navigate ==> urlAllowed)
    && (action == Click ==> complete)
    && (action == Evaluate ==> session.allowEvaluate && canEvaluate)
  }

  /** On a session and tab that are found, an action goes to the provider exactly when it is
      permitted; otherwise it is refused for its own reason. */
  lemma ActionAdmitted(cfg: Config, evaluate: bool, s: State, k: nat, owner: string, id: string, tab: string,
                       action: Action, urlAllowed: bool, complete: bool, canEvaluate: bool, now: int)
    requires Known(s) && k !in s.ops && Alive(cfg, s, owner, id, now)
    ensures var (t, reply) :=
        Step(cfg, evaluate, s, Start(k, owner, Act(id, tab, action, urlAllowed, complete, canEvaluate), now));
      if tab !in s.sessions[id].tabs then Refuses(s, t, reply, TabNotFound)
      else if Permitted(s.sessions[id], action, urlAllowed, complete, canEvaluate)
      then Waits(s, t, k, reply, ActCall(id, tab, action, now))
      else Refuses(s, t, reply,
                   if action == Navigate then UrlRejected else if action == Click then BadArguments else EvaluateDisabled)
  {
  }

  // ------------------------------------------------------------- evaluation

  /** Every session has the evaluation policy of the service, and without it no evaluation
      is under way. */
  ghost predicate Policed(s: State, evaluate: bool) {
    && (forall id :: id in s.sessions ==> s.sessions[id].allowEvaluate == evaluate)
    && (!evaluate ==> forall k :: k in s.ops && s.ops[k].ActCall? ==> s.ops[k].action != Evaluate)
  }

  lemma BeginPoliced(cfg: Config, s: State, k: nat, owner: string, request: Request, now: int, evaluate: bool)
    requires Policed(s, evaluate) && k !in s.ops
    ensures Policed(Begin(cfg, s, k, owner, request, now).0, evaluate)
  {
  }

  lemma ResumePolicy(cfg: Config, evaluate: bool, s: State, e: Event)
    requires e.Resume? && Known(s) && Enabled(s, e) && Policed(s, evaluate)
    ensures forall id :: id in Step(cfg, evaluate, s, e).0.sessions ==>
      Step(cfg, evaluate, s, e).0.sessions[id].allowEvaluate == evaluate
  {
    var op := s.ops[e.op];
    if !op.CreateWait? && !op.CreateCall? {
      assert Uses(op, op.id);
    }
  }

  lemma ResumeActs(cfg: Config, evaluate: bool, s: State, e: Event)
    requires e.Resume? && Known(s) && Enabled(s, e)
    ensures var t := Step(cfg, evaluate, s, e).0;
      forall k :: k in t.ops && t.ops[k].ActCall? ==> k in s.ops && s.ops[k] == t.ops[k]
  {
    var op := s.ops[e.op];
    if !op.CreateWait? && !op.CreateCall? {
      assert Uses(op, op.id);
    }
  }

  lemma ResumePoliced(cfg: Config, evaluate: bool, s: State, e: Event)
    requires e.Resume? && Known(s) && Enabled(s, e) && Policed(s, evaluate)
    ensures Policed(Step(cfg, evaluate, s, e).0, evaluate)
  {
    ResumePolicy(cfg, evaluate, s, e);
    ResumeActs(cfg, evaluate, s, e);
  }

  lemma {:induction false} RunPoliced(cfg: Config, evaluate: bool, s: State, es: seq<Event>)
    requires Runs(cfg, evaluate, s, es) && Policed(s, evaluate)
    ensures Policed(After(cfg, evaluate, s, es), evaluate)
    decreases |es|
  {
    if es != [] {
      match es[0] {
        case Start(k, profile, request, now) => BeginPoliced(cfg, s, k, profile, request, now, evaluate);
        case Sweep(_, _) =>
        case Scan(_, _) =>
        case Resume(_, _, _, _) => ResumePoliced(cfg, evaluate, s, es[0]);
      }
      RunPoliced(cfg, evaluate, Step(cfg, evaluate, s, es[0]).0, es[1..]);
    }
  }

  /** A service whose policy forbids it never sends a script to a page, over any run. */
  lemma NeverEvaluates(cfg: Config, es: seq<Event>, k: nat)
    requires Runs(cfg, false, Init(), es) && k in After(cfg, false, Init(), es).ops
    ensures var op := After(cfg, false, Init(), es).ops[k]; op.ActCall? ==> op.action != Evaluate
  {
    RunPoliced(cfg, false, Init(), es);
  }

  // ----------------------------------------------------- what answers leave

  /** The operation is over, and of the sessions only `id` may have changed. */
  predicate Ends(s: State, t: State, k: nat, id: string) {
    && t.ops == s.ops - {k} && t.live == s.live && t.locked == s.locked
    && t.sessions.Keys == s.sessions.Keys && forall x :: x in s.sessions && x != id ==> t.sessions[x] == s.sessions[x]
  }

  /** The lock and the identity of a session. */
  predicate SameOrigin(a: Session, b: Session) {
    && a.profile == b.profile && a.providerSession == b.providerSession && a.allowEvaluate == b.allowEvaluate
    && a.createdAt == b.createdAt
  }

  /** A session is made with the handle that the provider gives, the owner and time of the
      request, the policy of the service and no tabs; on a refusal nothing is left. */
  lemma SessionMade(cfg: Config, evaluate: bool, s: State, e: Event)
    requires e.Resume? && Known(s) && Enabled(s, e) && s.ops[e.op].CreateCall?
    ensures var op := s.ops[e.op];
      var (t, reply) := Step(cfg, evaluate, s, e);
      && t.ops == s.ops - {e.op} && !t.locked
      && match e.answer
         case Refused(status) => reply == Failed(ProviderFailed(status)) && t.sessions == s.sessions && t.live == s.live
         case Accepted(handle, _, _) =>
           && reply == Done(e.newId) && t.live == s.live + {e.newId}
           && t.sessions == s.sessions[e.newId := Session(op.owner, handle, evaluate, map[], op.now, op.now, false)]
  {
  }

  /** The service lock is granted, and the cap checked, as of the time of the request. */
  lemma CreationGranted(cfg: Config, evaluate: bool, s: State, e: Event)
    requires e.Resume? && Known(s) && Enabled(s, e) && s.ops[e.op].CreateWait?
    ensures var op := s.ops[e.op];
      var (t, reply) := Step(cfg, evaluate, s, e);
      var alive := set id | id in s.live && Alive(cfg, s, op.owner, id, op.now);
      && t.sessions == s.sessions && t.live == s.live
      && if |alive| >= cfg.maxSessions
         then reply == Failed(SessionLimit) && t.ops == s.ops - {e.op} && t.locked == s.locked
         else reply == Suspended && t.ops == s.ops[e.op := CreateCall(op.owner, op.now)] && t.locked
  {
    var op := s.ops[e.op];
    assert Active(cfg, s, op.owner, op.now) == set id | id in s.live && Alive(cfg, s, op.owner, id, op.now);
  }

  /** A tab is opened where there is room, under the session's lock. */
  lemma TabGranted(cfg: Config, evaluate: bool, s: State, e: Event)
    requires e.Resume? && Known(s) && Enabled(s, e) && s.ops[e.op].TabWait?
    ensures var op := s.ops[e.op];
      var (t, reply) := Step(cfg, evaluate, s, e);
      && op.id in s.sessions
      && if |s.sessions[op.id].tabs| >= cfg.maxTabs
         then reply == Failed(TabLimit) && t == s.(ops := s.ops - {e.op})
         else reply == Suspended
              && t == s.(sessions := s.sessions[op.id := s.sessions[op.id].(locked := true)],
                         ops := s.ops[e.op := TabCall(op.id, op.url, op.now)])
  {
  }

  /** The new tab has the provider's handle, its address or else the requested one, its title
      and the time of the request, which counts as activity; the other tabs stay.  On a
      refusal the session is as it was.  Either way its lock is free again. */
  lemma TabOpened(cfg: Config, evaluate: bool, s: State, e: Event)
    requires e.Resume? && Known(s) && Enabled(s, e) && s.ops[e.op].TabCall?
    ensures var op := s.ops[e.op];
      var (t, reply) := Step(cfg, evaluate, s, e);
      && op.id in s.sessions && op.id in t.sessions && Ends(s, t, e.op, op.id)
      && SameOrigin(t.sessions[op.id], s.sessions[op.id]) && !t.sessions[op.id].locked
      && match e.answer
         case Refused(status) =>
           && reply == Failed(ProviderFailed(status)) && t.sessions[op.id].tabs == s.sessions[op.id].tabs
           && t.sessions[op.id].lastActivity == s.sessions[op.id].lastActivity
         case Accepted(handle, url, title) =>
           && reply == Done(e.newId) && t.sessions[op.id].lastActivity == op.now
           && t.sessions[op.id].tabs
              == s.sessions[op.id].tabs[e.newId := Tab(handle, if url.Some? then url else op.url, title, op.now)]
  {
    assert Uses(s.ops[e.op], s.ops[e.op].id);
  }

  /** A tab is closed when the provider has closed it or no longer knows it; any other refusal
      ends the request and leaves the tab. */
  lemma TabClosed(cfg: Config, evaluate: bool, s: State, e: Event)
    requires e.Resume? && Known(s) && Enabled(s, e) && (s.ops[e.op].CloseCall? || s.ops[e.op].CloseWait?)
    ensures var op := s.ops[e.op];
      var (t, reply) := Step(cfg, evaluate, s, e);
      && op.id in s.sessions && op.id in t.sessions
      && (op.CloseCall? ==>
            if e.answer.Accepted? || e.answer.status == 404
            then reply == Suspended && t == s.(ops := s.ops[e.op := CloseWait(op.id, op.tab)])
            else reply == Failed(ProviderFailed(e.answer.status)) && t == s.(ops := s.ops - {e.op}))
      && (op.CloseWait? ==>
            && reply == Done(op.tab) && Ends(s, t, e.op, op.id)
            && SameOrigin(t.sessions[op.id], s.sessions[op.id])
            && t.sessions[op.id].locked == s.sessions[op.id].locked
            && t.sessions[op.id].tabs == s.sessions[op.id].tabs - {op.tab} && t.sessions[op.id].lastActivity == e.now)
  {
    assert Uses(s.ops[e.op], s.ops[e.op].id);
  }

  /** A tab that takes over what a page action reports: the address if there is one, and of a
      snapshot or navigation the title. */
  predicate TakesOver(after: Tab, before: Tab, action: Action, url: Option<string>, title: Option<string>) {
    && after.providerTab == before.providerTab && after.createdAt == before.createdAt
    && after.url == (if url.Some? && action != Evaluate then url else before.url)
    && after.title == (if title.Some? && action in {Snapshot, Navigate} then title else before.title)
  }

  /** A page action that succeeds updates the record of its tab only, if that is still there,
      and counts as activity: a snapshot at the time of its request, any other action now.
      One that is refused leaves everything as it was. */
  lemma ActionDone(cfg: Config, evaluate: bool, s: State, e: Event)
    requires e.Resume? && Known(s) && Enabled(s, e) && s.ops[e.op].ActCall?
    ensures var op := s.ops[e.op];
      var (t, reply) := Step(cfg, evaluate, s, e);
      && op.id in s.sessions && op.id in t.sessions
      && match e.answer
         case Refused(status) => reply == Failed(ProviderFailed(status)) && t == s.(ops := s.ops - {e.op})
         case Accepted(_, url, title) =>
           var before, after := s.sessions[op.id], t.sessions[op.id];
           && reply == Done(op.tab) && Ends(s, t, e.op, op.id)
           && SameOrigin(after, before) && after.locked == before.locked
           && after.lastActivity == (if op.action == Snapshot then op.now else e.now)
           && after.tabs.Keys == before.tabs.Keys
           && (forall x :: x in before.tabs && x != op.tab ==> after.tabs[x] == before.tabs[x])
           && (op.tab in before.tabs ==> TakesOver(after.tabs[op.tab], before.tabs[op.tab], op.action, url, title))
  {
    assert Uses(s.ops[e.op], s.ops[e.op].id);
  }

  /** A release takes the session's lock, gives it back after the provider calls whatever they
      answered, and then takes the session out of the registry; a sweep goes on with the next. */
  lemma ReleaseStages(cfg: Config, evaluate: bool, s: State, e: Event)
    requires e.Resume? && Known(s) && Enabled(s, e)
    requires s.ops[e.op].ReleaseWait? || s.ops[e.op].ReleaseCall? || s.ops[e.op].ReleasePop?
    ensures var op := s.ops[e.op];
      var (t, reply) := Step(cfg, evaluate, s, e);
      && op.id in s.sessions && t.locked == s.locked
      && (op.ReleaseWait? ==>
            && reply == Suspended && t.ops == s.ops[e.op := ReleaseCall(op.id, op.rest)] && t.live == s.live
            && t.sessions == s.sessions[op.id := s.sessions[op.id].(locked := true)])
      && (op.ReleaseCall? ==>
            && reply == Suspended && t.ops == s.ops[e.op := ReleasePop(op.id, op.rest)] && t.live == s.live
            && t.sessions == s.sessions[op.id := s.sessions[op.id].(locked := false)])
      && (op.ReleasePop? ==>
            && t.sessions == s.sessions && t.live == s.live - {op.id}
            && if op.rest == [] then reply == Done(op.id) && t.ops == s.ops - {e.op}
               else reply == Suspended && t.ops == s.ops[e.op := ReleaseWait(op.rest[0], op.rest[1..])])
  {
    assert Uses(s.ops[e.op], s.ops[e.op].id);
  }

  /** Registered and past its time at the beginning of the sweep. */
  predicate Overdue(cfg: Config, s: State, id: string, now: int) {
    id in s.live && id in s.sessions && s.sessions[id].lastActivity + cfg.ttl <= now
  }

  /** A sweep begins at any time, and under the service lock goes on to release the sessions
      that are overdue as of its beginning, all of them and no other; with none it is over. */
  lemma SweepScans(cfg: Config, evaluate: bool, s: State, k: nat, order: seq<string>, now: int)
    requires Known(s)
    ensures k !in s.ops ==> Step(cfg, evaluate, s, Sweep(k, now)).0 == s.(ops := s.ops[k := SweepWait(now)])
    ensures Enabled(s, Scan(k, order)) ==>
      var (t, reply) := Step(cfg, evaluate, s, Scan(k, order));
      var since := s.ops[k].now;
      if forall id :: id in order ==> !Overdue(cfg, s, id, since)
      then reply == Done("0") && t == s.(ops := s.ops - {k})
      else reply == Suspended && k in t.ops && t.ops[k].ReleaseWait? && t == s.(ops := s.ops[k := t.ops[k]])
           && forall id :: id == t.ops[k].id || id in t.ops[k].rest <==> id in order && Overdue(cfg, s, id, since)
  {
    if Enabled(s, Scan(k, order)) {
      var list := ExpiredOnes(cfg, s, s.ops[k].now, order);
      forall id
        ensures id in list <==> id in order && Overdue(cfg, s, id, s.ops[k].now)
      {
        SessionEffects.ScanFinds(cfg, s, s.ops[k].now, order, id);
      }
      assert list != [] ==> list[0] in list && list == [list[0]] + list[1..];
    }
  }
}
