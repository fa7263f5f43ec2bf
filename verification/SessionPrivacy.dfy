/** Profiles of the interactive browser service do not see or disturb each other
    (app/browser/service.py). */
module SessionPrivacy {
  import opened Sequences
  import opened SessionModel

  predicate Owned(s: State, p: string, id: string) { id in s.sessions && s.sessions[id].profile == p }

  /** The two states hold the same sessions of profile `p`, registered alike. */
  ghost predicate Agree(s: State, t: State, p: string) {
    forall id :: AgreeOn(s, t, p, id)
  }

  predicate AgreeOn(s: State, t: State, p: string, id: string) {
    && (Owned(s, p, id) <==> Owned(t, p, id))
    && (Owned(s, p, id) ==> s.sessions[id] == t.sessions[id] && (id in s.live <==> id in t.live))
  }

  /** The event is a stretch of an operation of profile `p`. */
  predicate By(s: State, e: Event, p: string) {
    match e
    case Start(_, profile, _, _) => profile == p
    case Sweep(_, _) => false
    case Scan(_, _) => false
    case Resume(k, _, _, _) =>
      && k in s.ops
      && match s.ops[k]
         case CreateWait(owner, _) => owner == p
         case CreateCall(owner, _) => owner == p
         case SweepWait(_) => false
         case op => Owned(s, p, op.id)
  }

  /** Whatever else the two states hold, the operation is at the same stage in both. */
  predicate SameStage(s: State, t: State, k: nat) {
    (k in s.ops <==> k in t.ops) && (k in s.ops ==> s.ops[k] == t.ops[k])
  }

  function OpOf(e: Event): nat {
    match e
    case Start(k, _, _, _) => k
    case Sweep(k, _) => k
    case Scan(k, _) => k
    case Resume(k, _, _, _) => k
  }

  /** Only sessions of profile `p` differ. */
  ghost predicate OnlyTouches(s: State, t: State, p: string) {
    forall q :: q != p ==> Agree(s, t, q)
  }

  /** A foreign identifier gets the answer of an unknown one. */
  lemma ForeignIsUnknown(cfg: Config, s: State, k: nat, p: string, request: Request, now: int)
    requires !request.CreateSession? && !Owned(s, p, request.id)
    ensures Begin(cfg, s, k, p, request, now) == (s, Failed(NotFound))
  {
  }

  lemma BeginAgrees(cfg: Config, s: State, t: State, k: nat, p: string, request: Request, now: int)
    requires Agree(s, t, p) && SameStage(s, t, k)
    ensures var (u, x) := Begin(cfg, s, k, p, request, now);
      var (v, y) := Begin(cfg, t, k, p, request, now);
      && x == y && SameStage(u, v, k)
      && u.sessions == s.sessions && u.live == s.live && v.sessions == t.sessions && v.live == t.live
  {
    if !request.CreateSession? {
      assert AgreeOn(s, t, p, request.id);
      if !Owned(s, p, request.id) {
        ForeignIsUnknown(cfg, s, k, p, request, now);
        ForeignIsUnknown(cfg, t, k, p, request, now);
      }
    }
  }

  lemma ActiveAgrees(cfg: Config, s: State, t: State, p: string, now: int)
    requires Agree(s, t, p)
    ensures Active(cfg, s, p, now) == Active(cfg, t, p, now)
  {
    forall id
      ensures id in Active(cfg, s, p, now) <==> id in Active(cfg, t, p, now)
    {
      assert AgreeOn(s, t, p, id);
    }
  }

  /** The same change to one session of `p` on both sides. */
  lemma PutAgrees(s: State, t: State, p: string, id: string, session: Session, live: bool)
    requires Agree(s, t, p) && session.profile == p
    requires (Owned(s, p, id) && !live) || (id !in s.sessions && id !in t.sessions && id !in s.live && id !in t.live)
    ensures var u := Put(s, id, session).(live := if live then s.live + {id} else s.live);
      var v := Put(t, id, session).(live := if live then t.live + {id} else t.live);
      Agree(u, v, p) && OnlyTouches(s, u, p)
  {
    var u := Put(s, id, session).(live := if live then s.live + {id} else s.live);
    var v := Put(t, id, session).(live := if live then t.live + {id} else t.live);
    assert AgreeOn(s, t, p, id);
    forall x
      ensures AgreeOn(u, v, p, x)
    {
      assert AgreeOn(s, t, p, x);
    }
    forall q, x | q != p
      ensures AgreeOn(s, u, q, x)
    {
    }
  }

  /** Anything but `ops` and the service lock is as before. */
  lemma SameSessions(s: State, u: State, t: State, v: State, p: string)
    requires Agree(s, t, p)
    requires u.sessions == s.sessions && u.live == s.live && v.sessions == t.sessions && v.live == t.live
    ensures Agree(u, v, p) && OnlyTouches(s, u, p)
  {
    forall x
      ensures AgreeOn(u, v, p, x)
    {
      assert AgreeOn(s, t, p, x);
    }
  }

  /** The two results are the same for profile `p`, and only its sessions changed. */
  ghost predicate Private(s: State, t: State, p: string, k: nat, a: (State, Reply), b: (State, Reply)) {
    a.1 == b.1 && Agree(a.0, b.0, p) && OnlyTouches(s, a.0, p) && SameStage(a.0, b.0, k)
  }

  lemma PrivateMoved(s: State, t: State, p: string, k: nat, a: (State, Reply), b: (State, Reply), c: State, d: State)
    requires a.1 == b.1 && SameStage(a.0, b.0, k)
    requires Agree(c, d, p) && OnlyTouches(s, c, p)
    requires a.0.sessions == c.sessions && a.0.live == c.live && b.0.sessions == d.sessions && b.0.live == d.live
    ensures Private(s, t, p, k, a, b)
  {
    SameSessions(c, a.0, d, b.0, p);
    forall q, x | q != p
      ensures AgreeOn(s, a.0, q, x)
    {
      assert Agree(s, c, q);
      assert AgreeOn(s, c, q, x);
    }
  }

  lemma BeginPrivate(cfg: Config, s: State, t: State, k: nat, p: string, request: Request, now: int)
    requires Agree(s, t, p) && SameStage(s, t, k)
    ensures Private(s, t, p, k, Begin(cfg, s, k, p, request, now), Begin(cfg, t, k, p, request, now))
  {
    BeginAgrees(cfg, s, t, k, p, request, now);
    SameSessions(s, Begin(cfg, s, k, p, request, now).0, t, Begin(cfg, t, k, p, request, now).0, p);
  }

  lemma CreatePrivate(cfg: Config, evaluate: bool, s: State, t: State, k: nat, op: Op, answer: Answer, newId: string)
    requires op.CreateWait? || op.CreateCall?
    requires Known(s) && Known(t) && Agree(s, t, op.owner) && Fresh(s, newId) && Fresh(t, newId)
    ensures Private(s, t, op.owner, k, ResumeCreate(cfg, evaluate, s, k, op, answer, newId),
                    ResumeCreate(cfg, evaluate, t, k, op, answer, newId))
  {
    var a, b := ResumeCreate(cfg, evaluate, s, k, op, answer, newId), ResumeCreate(cfg, evaluate, t, k, op, answer, newId);
    ActiveAgrees(cfg, s, t, op.owner, op.now);
    if op.CreateCall? && answer.Accepted? {
      var session := NewSession(cfg, op.owner, answer.handle, evaluate, op.now);
      PutAgrees(s, t, op.owner, newId, session, true);
      PrivateMoved(s, t, op.owner, k, a, b, Put(s, newId, session).(live := s.live + {newId}),
                   Put(t, newId, session).(live := t.live + {newId}));
    } else {
      SameSessions(s, s, t, t, op.owner);
      PrivateMoved(s, t, op.owner, k, a, b, s, t);
    }
  }

  /** A later stretch that at most replaces the session it works on. */
  lemma ReplacePrivate(s: State, t: State, p: string, k: nat, id: string, session: Session,
                       a: (State, Reply), b: (State, Reply))
    requires Agree(s, t, p) && Owned(s, p, id) && session.profile == p
    requires a.1 == b.1 && SameStage(a.0, b.0, k)
    requires a.0.sessions == s.sessions[id := session] && b.0.sessions == t.sessions[id := session]
    requires a.0.live == s.live && b.0.live == t.live
    ensures Private(s, t, p, k, a, b)
  {
    PutAgrees(s, t, p, id, session, false);
    PrivateMoved(s, t, p, k, a, b, Put(s, id, session), Put(t, id, session));
  }

  lemma KeepPrivate(s: State, t: State, p: string, k: nat, a: (State, Reply), b: (State, Reply))
    requires Agree(s, t, p) && a.1 == b.1 && SameStage(a.0, b.0, k)
    requires a.0.sessions == s.sessions && b.0.sessions == t.sessions && a.0.live == s.live && b.0.live == t.live
    ensures Private(s, t, p, k, a, b)
  {
    SameSessions(s, s, t, t, p);
    PrivateMoved(s, t, p, k, a, b, s, t);
  }

  lemma TabPrivate(cfg: Config, s: State, t: State, p: string, k: nat, op: Op, answer: Answer, newId: string)
    requires (op.TabWait? || op.TabCall?) && Agree(s, t, p) && Owned(s, p, op.id)
    ensures op.id in t.sessions
    ensures Private(s, t, p, k, ResumeTab(cfg, s, k, op, answer, newId), ResumeTab(cfg, t, k, op, answer, newId))
  {
    assert AgreeOn(s, t, p, op.id);
    var a, b := ResumeTab(cfg, s, k, op, answer, newId), ResumeTab(cfg, t, k, op, answer, newId);
    if a.0.sessions == s.sessions && op.TabWait? && |s.sessions[op.id].tabs| >= cfg.maxTabs {
      KeepPrivate(s, t, p, k, a, b);
    } else {
      ReplacePrivate(s, t, p, k, op.id, a.0.sessions[op.id], a, b);
    }
  }

  lemma ClosePrivate(s: State, t: State, p: string, k: nat, op: Op, answer: Answer, now: int)
    requires (op.CloseCall? || op.CloseWait?) && Agree(s, t, p) && Owned(s, p, op.id)
    ensures op.id in t.sessions
    ensures Private(s, t, p, k, ResumeClose(s, k, op, answer, now), ResumeClose(t, k, op, answer, now))
  {
    assert AgreeOn(s, t, p, op.id);
    var a, b := ResumeClose(s, k, op, answer, now), ResumeClose(t, k, op, answer, now);
    if op.CloseCall? {
      KeepPrivate(s, t, p, k, a, b);
    } else {
      ReplacePrivate(s, t, p, k, op.id, a.0.sessions[op.id], a, b);
    }
  }

  lemma ActPrivate(s: State, t: State, p: string, k: nat, op: Op, answer: Answer, now: int)
    requires op.ActCall? && Agree(s, t, p) && Owned(s, p, op.id)
    ensures op.id in t.sessions
    ensures Private(s, t, p, k, ResumeAct(s, k, op, answer, now), ResumeAct(t, k, op, answer, now))
  {
    assert AgreeOn(s, t, p, op.id);
    var a, b := ResumeAct(s, k, op, answer, now), ResumeAct(t, k, op, answer, now);
    if answer.Refused? {
      KeepPrivate(s, t, p, k, a, b);
    } else {
      ReplacePrivate(s, t, p, k, op.id, a.0.sessions[op.id], a, b);
    }
  }

  lemma PopPrivate(s: State, t: State, p: string, id: string)
    requires Agree(s, t, p) && Owned(s, p, id)
    ensures Agree(s.(live := s.live - {id}), t.(live := t.live - {id}), p)
    ensures OnlyTouches(s, s.(live := s.live - {id}), p)
  {
    var u, v := s.(live := s.live - {id}), t.(live := t.live - {id});
    forall x
      ensures AgreeOn(u, v, p, x)
    {
      assert AgreeOn(s, t, p, x);
    }
  }

  lemma ReleasePrivate(s: State, t: State, p: string, k: nat, op: Op)
    requires (op.ReleaseWait? || op.ReleaseCall? || op.ReleasePop?) && Agree(s, t, p) && Owned(s, p, op.id)
    ensures op.id in t.sessions
    ensures Private(s, t, p, k, ResumeRelease(s, k, op), ResumeRelease(t, k, op))
  {
    assert AgreeOn(s, t, p, op.id);
    var a, b := ResumeRelease(s, k, op), ResumeRelease(t, k, op);
    if op.ReleasePop? {
      PopPrivate(s, t, p, op.id);
      PrivateMoved(s, t, p, k, a, b, s.(live := s.live - {op.id}), t.(live := t.live - {op.id}));
    } else {
      ReplacePrivate(s, t, p, k, op.id, a.0.sessions[op.id], a, b);
    }
  }

  /** A stretch of an operation of profile `p` depends on nothing but the sessions of `p`
      and its own stage: from two states that agree on these it gives the same reply and
      leaves states that agree again.  And it changes no session of another profile, and a
      request for one gets the answer of an unknown session. */
  lemma NonInterference(cfg: Config, evaluate: bool, s: State, t: State, e: Event, p: string)
    requires Known(s) && Known(t) && Enabled(s, e) && Enabled(t, e)
    requires By(s, e, p) && Agree(s, t, p) && SameStage(s, t, OpOf(e))
    ensures Private(s, t, p, OpOf(e), Step(cfg, evaluate, s, e), Step(cfg, evaluate, t, e))
    ensures e.Start? && !e.request.CreateSession? && !Owned(s, p, e.request.id) ==>
      Step(cfg, evaluate, s, e) == (s, Failed(NotFound))
  {
    match e
    case Start(k, profile, request, now) =>
      BeginPrivate(cfg, s, t, k, p, request, now);
      if !request.CreateSession? && !Owned(s, p, request.id) {
        ForeignIsUnknown(cfg, s, k, p, request, now);
      }
    case Sweep(k, now) =>
    case Scan(k, order) =>
    case Resume(k, answer, now, newId) =>
      var op := s.ops[k];
      if op.CreateWait? || op.CreateCall? {
        CreatePrivate(cfg, evaluate, s, t, k, op, answer, newId);
      } else if op.TabWait? || op.TabCall? {
        TabPrivate(cfg, s, t, p, k, op, answer, newId);
      } else if op.CloseCall? || op.CloseWait? {
        ClosePrivate(s, t, p, k, op, answer, now);
      } else if op.ActCall? {
        ActPrivate(s, t, p, k, op, answer, now);
      } else {
        ReleasePrivate(s, t, p, k, op);
      }
  }
}
