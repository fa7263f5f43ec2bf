/** Whole runs of the interactive browser service as one profile sees them: leaving out
    every operation of the other profiles changes none of its replies
    (app/browser/service.py). */
module SessionPurge {
  import opened Sequences
  import opened SessionModel
  import opened SessionSafety

  // -------------------------------------------------------------- the view

  function Own(s: State, p: string): set<string> { set id | id in s.sessions && s.sessions[id].profile == p }

  function OwnOnly(own: set<string>, ids: seq<string>): (r: seq<string>)
    ensures forall id :: id in r <==> id in ids && id in own
  {
    if ids == [] then []
    else (if ids[0] in own then [ids[0]] else []) + OwnOnly(own, ids[1..])
  }

  /** A release list from its first own session on. */
  function Waiting(ids: seq<string>): Option<Op> {
    if ids == [] then None else Some(ReleaseWait(ids[0], ids[1..]))
  }

  /** An operation as the profile sees it: a sweep works on its own sessions only. */
  function Shown(own: set<string>, p: string, op: Op): Option<Op> {
    match op
    case CreateWait(owner, _) => if owner == p then Some(op) else None
    case CreateCall(owner, _) => if owner == p then Some(op) else None
    case SweepWait(_) => Some(op)
    case ReleaseWait(id, rest) => Waiting(OwnOnly(own, [id] + rest))
    case ReleaseCall(id, rest) =>
      if id in own then Some(ReleaseCall(id, OwnOnly(own, rest))) else Waiting(OwnOnly(own, rest))
    case ReleasePop(id, rest) =>
      if id in own then Some(ReleasePop(id, OwnOnly(own, rest))) else Waiting(OwnOnly(own, rest))
    case _ => if op.id in own then Some(op) else None
  }

  function ShownOps(own: set<string>, p: string, ops: map<nat, Op>): map<nat, Op> {
    map k | k in ops && Shown(own, p, ops[k]).Some? :: Shown(own, p, ops[k]).value
  }

  function OwnSessions(s: State, p: string): map<string, Session> {
    map id | id in s.sessions && s.sessions[id].profile == p :: s.sessions[id]
  }

  predicate MakesFor(op: Op, p: string) { op.CreateCall? && op.owner == p }

  ghost predicate Makes(ops: map<nat, Op>, p: string) { exists k :: k in ops && MakesFor(ops[k], p) }

  /** The state with the sessions and operations of one profile only. */
  ghost function View(s: State, p: string): State {
    State(OwnSessions(s, p), s.live * Own(s, p), Makes(s.ops, p), ShownOps(Own(s, p), p, s.ops))
  }

  /** The service lock is held by the one operation that is making a session. */
  ghost predicate Creators(s: State) {
    && (forall k :: k in s.ops && s.ops[k].CreateCall? ==> s.locked)
    && (forall j, k :: j in s.ops && k in s.ops && s.ops[j].CreateCall? && s.ops[k].CreateCall? ==> j == k)
  }

  // ----------------------------------------------------- one operation moves

  lemma {:induction false} OwnOnlySame(own: set<string>, own': set<string>, ids: seq<string>)
    requires forall id :: id in ids ==> (id in own <==> id in own')
    ensures OwnOnly(own, ids) == OwnOnly(own', ids)
  {
    if ids != [] {
      assert ids[0] in ids;
      OwnOnlySame(own, own', ids[1..]);
    }
  }

  /** New sessions do not show in operations that do not refer to them. */
  lemma ShownSame(own: set<string>, own': set<string>, p: string, op: Op)
    requires forall id :: Uses(op, id) ==> (id in own <==> id in own')
    ensures Shown(own, p, op) == Shown(own', p, op)
  {
    if op.ReleaseWait? {
      assert Uses(op, op.id) && forall id :: id in [op.id] + op.rest ==> Uses(op, id);
      OwnOnlySame(own, own', [op.id] + op.rest);
    } else if op.ReleaseCall? || op.ReleasePop? {
      assert Uses(op, op.id) && forall id :: id in op.rest ==> Uses(op, id);
      OwnOnlySame(own, own', op.rest);
    } else if !op.CreateWait? && !op.CreateCall? && !op.SweepWait? {
      assert Uses(op, op.id);
    }
  }

  function With(ops: map<nat, Op>, k: nat, op: Option<Op>): map<nat, Op> {
    if op.Some? then ops[k := op.value] else ops - {k}
  }

  lemma ShownPut(own: set<string>, p: string, ops: map<nat, Op>, k: nat, op: Op)
    ensures ShownOps(own, p, ops[k := op]) == With(ShownOps(own, p, ops), k, Shown(own, p, op))
  {
  }

  lemma ShownEnd(own: set<string>, p: string, ops: map<nat, Op>, k: nat)
    ensures ShownOps(own, p, ops - {k}) == ShownOps(own, p, ops) - {k}
  {
  }

  lemma ShownAll(own: set<string>, own': set<string>, p: string, ops: map<nat, Op>)
    requires forall k, id :: k in ops && Uses(ops[k], id) ==> (id in own <==> id in own')
    ensures ShownOps(own, p, ops) == ShownOps(own', p, ops)
  {
    forall k | k in ops
      ensures Shown(own, p, ops[k]) == Shown(own', p, ops[k])
    {
      ShownSame(own, own', p, ops[k]);
    }
  }

  /** Operations other than `k` are the same in both. */
  predicate SameBut(ops: map<nat, Op>, ops': map<nat, Op>, k: nat) { ops - {k} == ops' - {k} }

  lemma MakesSame(ops: map<nat, Op>, ops': map<nat, Op>, k: nat, p: string)
    requires SameBut(ops, ops', k)
    requires k in ops ==> !MakesFor(ops[k], p)
    requires k in ops' ==> !MakesFor(ops'[k], p)
    ensures Makes(ops, p) <==> Makes(ops', p)
  {
    assert forall j :: j != k ==> (j in ops <==> j in ops - {k});
    assert forall j :: j != k ==> (j in ops' <==> j in ops' - {k});
    if Makes(ops, p) {
      var j :| j in ops && MakesFor(ops[j], p);
      assert (ops' - {k})[j] == (ops - {k})[j];
      assert j in ops' && MakesFor(ops'[j], p);
    }
    if Makes(ops', p) {
      var j :| j in ops' && MakesFor(ops'[j], p);
      assert (ops' - {k})[j] == (ops - {k})[j];
      assert j in ops && MakesFor(ops[j], p);
    }
  }

  function ShownOpt(own: set<string>, p: string, op: Option<Op>): Option<Op> {
    if op.Some? then Shown(own, p, op.value) else None
  }

  predicate NotMaking(op: Option<Op>) { op.Some? ==> !op.value.CreateCall? }

  /** Operation `k` goes on or ends, outside of making a session. */
  lemma MoveView(s: State, t: State, p: string, k: nat, op: Option<Op>)
    requires t.sessions == s.sessions && t.ops == With(s.ops, k, op)
    requires NotMaking(op) && (k in s.ops ==> !s.ops[k].CreateCall?)
    ensures View(t, p).sessions == View(s, p).sessions && View(t, p).locked == View(s, p).locked
    ensures View(t, p).ops == With(View(s, p).ops, k, ShownOpt(Own(s, p), p, op))
    ensures View(t, p).live == t.live * Own(s, p)
  {
    assert Own(t, p) == Own(s, p);
    MakesSame(s.ops, t.ops, k, p);
    if op.Some? {
      ShownPut(Own(s, p), p, s.ops, k, op.value);
    } else {
      ShownEnd(Own(s, p), p, s.ops, k);
    }
  }

  /** ... and replaces a session of its profile. */
  lemma PutView(s: State, t: State, p: string, k: nat, op: Option<Op>, id: string, session: Session)
    requires id in s.sessions && session.profile == s.sessions[id].profile
    requires t.sessions == s.sessions[id := session] && t.ops == With(s.ops, k, op) && t.live == s.live
    requires NotMaking(op) && (k in s.ops ==> !s.ops[k].CreateCall?)
    ensures View(t, p).sessions
         == if session.profile == p then View(s, p).sessions[id := session] else View(s, p).sessions
    ensures View(t, p).locked == View(s, p).locked && View(t, p).live == View(s, p).live
    ensures View(t, p).ops == With(View(s, p).ops, k, ShownOpt(Own(s, p), p, op))
  {
    var u := s.(ops := t.ops);
    MoveView(s, u, p, k, op);
    assert Own(t, p) == Own(s, p);
  }

  // -------------------------------------------------------- own operations

  /** The stretch does to the view what it does to the state, with the same reply. */
  ghost predicate Seen(p: string, a: (State, Reply), b: (State, Reply)) {
    b == (View(a.0, p), a.1)
  }

  lemma BeginView(cfg: Config, s: State, k: nat, p: string, request: Request, now: int)
    requires k !in s.ops
    ensures Seen(p, Begin(cfg, s, k, p, request, now), Begin(cfg, View(s, p), k, p, request, now))
  {
    var (t, r) := Begin(cfg, s, k, p, request, now);
    var v := View(s, p);
    forall id
      ensures Lookup(cfg, v, p, id, now) == Lookup(cfg, s, p, id, now)
    {
    }
    if t != s {
      var op := t.ops[k];
      MoveView(s, t, p, k, Some(op));
      ShownStart(Own(s, p), p, op);
    }
  }

  /** An operation that a request begins is seen by its profile as it is. */
  lemma ShownStart(own: set<string>, p: string, op: Op)
    requires !op.CreateCall? && (op.CreateWait? ==> op.owner == p)
    requires !op.CreateWait? && !op.SweepWait? ==> op.id in own
    requires op.ReleaseWait? || op.ReleaseCall? || op.ReleasePop? ==> op.rest == []
    ensures Shown(own, p, op) == Some(op)
  {
    if op.ReleaseWait? {
      assert OwnOnly(own, []) == [];
      assert [op.id] + op.rest == [op.id] && [op.id][1..] == [];
    }
  }

  lemma TabView(cfg: Config, s: State, k: nat, p: string, answer: Answer, newId: string)
    requires k in s.ops && (s.ops[k].TabWait? || s.ops[k].TabCall?) && s.ops[k].id in Own(s, p)
    ensures s.ops[k].id in View(s, p).sessions
    ensures Seen(p, ResumeTab(cfg, s, k, s.ops[k], answer, newId), ResumeTab(cfg, View(s, p), k, s.ops[k], answer, newId))
  {
    var op := s.ops[k];
    var t := ResumeTab(cfg, s, k, op, answer, newId).0;
    var next := if k in t.ops then Some(t.ops[k]) else None;
    if op.TabWait? && next.None? {
      MoveView(s, t, p, k, next);
    } else {
      PutView(s, t, p, k, next, op.id, t.sessions[op.id]);
    }
  }

  lemma CloseView(s: State, k: nat, p: string, answer: Answer, now: int)
    requires k in s.ops && (s.ops[k].CloseCall? || s.ops[k].CloseWait?) && s.ops[k].id in Own(s, p)
    ensures s.ops[k].id in View(s, p).sessions
    ensures Seen(p, ResumeClose(s, k, s.ops[k], answer, now), ResumeClose(View(s, p), k, s.ops[k], answer, now))
  {
    var op := s.ops[k];
    var t := ResumeClose(s, k, op, answer, now).0;
    var next := if k in t.ops then Some(t.ops[k]) else None;
    if op.CloseCall? {
      MoveView(s, t, p, k, next);
    } else {
      PutView(s, t, p, k, next, op.id, t.sessions[op.id]);
    }
  }

  lemma ActView(s: State, k: nat, p: string, answer: Answer, now: int)
    requires k in s.ops && s.ops[k].ActCall? && s.ops[k].id in Own(s, p)
    ensures s.ops[k].id in View(s, p).sessions
    ensures Seen(p, ResumeAct(s, k, s.ops[k], answer, now), ResumeAct(View(s, p), k, s.ops[k], answer, now))
  {
    var op := s.ops[k];
    var t := ResumeAct(s, k, op, answer, now).0;
    if answer.Refused? {
      MoveView(s, t, p, k, None);
    } else {
      PutView(s, t, p, k, None, op.id, t.sessions[op.id]);
    }
  }

  lemma ActiveView(cfg: Config, s: State, p: string, now: int)
    ensures Active(cfg, View(s, p), p, now) == Active(cfg, s, p, now)
  {
  }

  lemma CreateWaitView(cfg: Config, evaluate: bool, s: State, k: nat, p: string, answer: Answer, newId: string)
    requires k in s.ops && s.ops[k].CreateWait? && s.ops[k].owner == p
    ensures Seen(p, ResumeCreate(cfg, evaluate, s, k, s.ops[k], answer, newId),
                 ResumeCreate(cfg, evaluate, View(s, p), k, s.ops[k], answer, newId))
  {
    var op := s.ops[k];
    var t := ResumeCreate(cfg, evaluate, s, k, op, answer, newId).0;
    ActiveView(cfg, s, p, op.now);
    if |Active(cfg, s, p, op.now)| >= cfg.maxSessions {
      MoveView(s, t, p, k, None);
    } else {
      assert Own(t, p) == Own(s, p);
      ShownPut(Own(s, p), p, s.ops, k, CreateCall(op.owner, op.now));
      assert k in t.ops && MakesFor(t.ops[k], p);
    }
  }

  /** With its creator gone, nobody makes a session. */
  lemma NobodyMakes(s: State, k: nat, p: string)
    requires Creators(s) && k in s.ops && s.ops[k].CreateCall?
    ensures !Makes(s.ops - {k}, p)
  {
  }

  lemma AddedView(s: State, p: string, id: string, session: Session)
    requires Known(s) && id !in s.sessions && !Makes(s.ops, p)
    ensures var t := Put(s, id, session).(live := s.live + {id}, locked := false);
      View(t, p) == if session.profile == p
                    then Put(View(s, p), id, session).(live := View(s, p).live + {id}) else View(s, p)
  {
    var t := Put(s, id, session).(live := s.live + {id}, locked := false);
    assert Own(t, p) == Own(s, p) + if session.profile == p then {id} else {};
    ShownAll(Own(s, p), Own(t, p), p, s.ops);
    assert id !in s.live;
  }

  lemma CreateCallView(cfg: Config, evaluate: bool, s: State, k: nat, p: string, answer: Answer, newId: string)
    requires Creators(s) && Known(s) && newId !in s.sessions
    requires k in s.ops && s.ops[k].CreateCall? && s.ops[k].owner == p
    ensures Seen(p, ResumeCreate(cfg, evaluate, s, k, s.ops[k], answer, newId),
                 ResumeCreate(cfg, evaluate, View(s, p), k, s.ops[k], answer, newId))
  {
    var op := s.ops[k];
    var u := End(s, k).(locked := false);
    NobodyMakes(s, k, p);
    ShownEnd(Own(s, p), p, s.ops, k);
    assert Own(u, p) == Own(s, p);
    assert View(u, p) == End(View(s, p), k).(locked := false);
    EndKnown(s, k);
    if answer.Accepted? {
      AddedView(u, p, newId, NewSession(cfg, op.owner, answer.handle, evaluate, op.now));
    }
  }

  lemma EndKnown(s: State, k: nat)
    requires Known(s)
    ensures Known(End(s, k).(locked := false))
  {
    var u := End(s, k).(locked := false);
    forall j, id | j in u.ops && Uses(u.ops[j], id)
      ensures id in u.sessions
    {
      assert Uses(s.ops[j], id);
    }
  }

  lemma OwnOnlyHead(own: set<string>, id: string, rest: seq<string>)
    ensures OwnOnly(own, [id] + rest) == (if id in own then [id] else []) + OwnOnly(own, rest)
  {
    assert ([id] + rest)[1..] == rest;
  }

  /** A release of an own session, with what is left of its list. */
  lemma ShownRelease(own: set<string>, p: string, id: string, rest: seq<string>)
    ensures Shown(own, p, ReleaseWait(id, rest))
         == if id in own then Some(ReleaseWait(id, OwnOnly(own, rest))) else Waiting(OwnOnly(own, rest))
  {
    OwnOnlyHead(own, id, rest);
    var r := OwnOnly(own, rest);
    assert ([id] + r)[1..] == r && [] + r == r;
  }

  /** The next of a list. */
  lemma ShownNext(own: set<string>, p: string, rest: seq<string>)
    ensures ShownOpt(own, p, Waiting(rest)) == Waiting(OwnOnly(own, rest))
  {
    if rest != [] {
      assert [rest[0]] + rest[1..] == rest;
    }
  }

  predicate IsRelease(op: Op) { op.ReleaseWait? || op.ReleaseCall? || op.ReleasePop? }

  /** Where a stretch of a release leaves its operation. */
  function Released(op: Op): Option<Op>
    requires IsRelease(op)
  {
    if op.ReleaseWait? then Some(ReleaseCall(op.id, op.rest))
    else if op.ReleaseCall? then Some(ReleasePop(op.id, op.rest))
    else Waiting(op.rest)
  }

  /** What a stretch of a release does to the sessions and to the registry. */
  function ReleasedSessions(sessions: map<string, Session>, op: Op): map<string, Session>
    requires IsRelease(op) && op.id in sessions
  {
    if op.ReleasePop? then sessions else sessions[op.id := sessions[op.id].(locked := op.ReleaseWait?)]
  }

  function ReleasedLive(live: set<string>, op: Op): set<string>
    requires IsRelease(op)
  {
    if op.ReleasePop? then live - {op.id} else live
  }

  lemma ReleaseIs(s: State, k: nat, op: Op)
    requires IsRelease(op) && op.id in s.sessions
    ensures ResumeRelease(s, k, op).0
         == State(ReleasedSessions(s.sessions, op), ReleasedLive(s.live, op), s.locked, With(s.ops, k, Released(op)))
  {
  }

  lemma ReleasedView(s: State, k: nat, p: string)
    requires k in s.ops && IsRelease(s.ops[k]) && s.ops[k].id in s.sessions
    ensures var op := s.ops[k];
      var own := op.id in Own(s, p);
      View(ResumeRelease(s, k, op).0, p)
      == State(if own then ReleasedSessions(View(s, p).sessions, op) else View(s, p).sessions,
               if own then ReleasedLive(View(s, p).live, op) else View(s, p).live,
               View(s, p).locked, With(View(s, p).ops, k, ShownOpt(Own(s, p), p, Released(op))))
  {
    var op := s.ops[k];
    var t := ResumeRelease(s, k, op).0;
    ReleaseIs(s, k, op);
    if op.ReleasePop? {
      MoveView(s, t, p, k, Released(op));
    } else {
      PutView(s, t, p, k, Released(op), op.id, t.sessions[op.id]);
    }
  }

  /** The release with the own sessions of its list. */
  function OwnPart(own: set<string>, op: Op): (r: Op)
    requires IsRelease(op)
    ensures IsRelease(r) && r.id == op.id && r.ReleasePop? == op.ReleasePop? && r.ReleaseWait? == op.ReleaseWait?
  {
    op.(rest := OwnOnly(own, op.rest))
  }

  lemma ShownOwn(own: set<string>, p: string, op: Op)
    requires IsRelease(op) && op.id in own
    ensures Shown(own, p, op) == Some(OwnPart(own, op))
  {
    ShownRelease(own, p, op.id, op.rest);
  }

  /** The view of where the operation goes is where its view goes. */
  lemma ShownReleased(own: set<string>, p: string, op: Op)
    requires IsRelease(op) && op.id in own
    ensures ShownOpt(own, p, Released(op)) == Released(OwnPart(own, op))
  {
    if op.ReleaseWait? {
      ShownOwn(own, p, ReleaseCall(op.id, op.rest));
    } else if op.ReleaseCall? {
      ShownOwn(own, p, ReleasePop(op.id, op.rest));
    } else {
      ShownNext(own, p, op.rest);
    }
  }

  lemma ShownForeign(own: set<string>, p: string, op: Op)
    requires IsRelease(op) && op.id !in own
    ensures ShownOpt(own, p, Released(op)) == Shown(own, p, op)
  {
    ShownRelease(own, p, op.id, op.rest);
    ShownNext(own, p, op.rest);
  }

  /** Releasing an own session; a sweep goes on with the next own one. */
  lemma ReleaseView(s: State, k: nat, p: string)
    requires k in s.ops && IsRelease(s.ops[k]) && s.ops[k].id in Own(s, p)
    ensures k in View(s, p).ops && IsRelease(View(s, p).ops[k]) && View(s, p).ops[k].id == s.ops[k].id
    ensures s.ops[k].id in View(s, p).sessions
    ensures ResumeRelease(View(s, p), k, View(s, p).ops[k]).0 == View(ResumeRelease(s, k, s.ops[k]).0, p)
    ensures s.ops[k].rest == [] ==> View(s, p).ops[k] == s.ops[k]
  {
    ShownOwn(Own(s, p), p, s.ops[k]);
    ShownReleased(Own(s, p), p, s.ops[k]);
    ReleasedView(s, k, p);
    ReleaseIs(View(s, p), k, View(s, p).ops[k]);
  }

  lemma WithSame(ops: map<nat, Op>, k: nat)
    ensures With(ops, k, if k in ops then Some(ops[k]) else None) == ops
  {
  }

  /** Releasing a foreign session does not show. */
  lemma ReleaseHidden(s: State, k: nat, p: string)
    requires k in s.ops && IsRelease(s.ops[k]) && s.ops[k].id in s.sessions && s.ops[k].id !in Own(s, p)
    ensures View(ResumeRelease(s, k, s.ops[k]).0, p) == View(s, p)
  {
    ShownForeign(Own(s, p), p, s.ops[k]);
    ReleasedView(s, k, p);
    WithSame(View(s, p).ops, k);
  }

  // ----------------------------------------------------------------- sweeps

  lemma {:induction false} ExpiredView(cfg: Config, s: State, p: string, now: int, order: seq<string>)
    ensures ExpiredOnes(cfg, View(s, p), now, order) == OwnOnly(Own(s, p), ExpiredOnes(cfg, s, now, order))
  {
    if order != [] {
      ExpiredView(cfg, s, p, now, order[1..]);
      var rest := ExpiredOnes(cfg, s, now, order[1..]);
      if order[0] in s.live && order[0] in s.sessions && ExpiredAt(cfg, s.sessions[order[0]], now) {
        OwnOnlyHead(Own(s, p), order[0], rest);
      } else {
        assert [] + rest == rest;
      }
    }
  }

  lemma ScanView(cfg: Config, s: State, k: nat, p: string, order: seq<string>)
    requires k in s.ops && s.ops[k].SweepWait?
    ensures ResumeSweep(cfg, View(s, p), k, s.ops[k], order).0 == View(ResumeSweep(cfg, s, k, s.ops[k], order).0, p)
  {
    var expired := ExpiredOnes(cfg, s, s.ops[k].now, order);
    ExpiredView(cfg, s, p, s.ops[k].now, order);
    ShownNext(Own(s, p), p, expired);
    MoveView(s, ResumeSweep(cfg, s, k, s.ops[k], order).0, p, k, Waiting(expired));
  }

  // ---------------------------------------------------- foreign operations

  lemma BeginHidden(cfg: Config, s: State, k: nat, owner: string, p: string, request: Request, now: int)
    requires k !in s.ops && owner != p
    ensures View(Begin(cfg, s, k, owner, request, now).0, p) == View(s, p)
  {
    var t := Begin(cfg, s, k, owner, request, now).0;
    if t != s {
      var op := t.ops[k];
      MoveView(s, t, p, k, Some(op));
      if op.ReleaseWait? {
        ShownRelease(Own(s, p), p, op.id, op.rest);
      }
    }
  }

  /** A foreign operation that replaces its session does not show. */
  lemma PutHidden(s: State, t: State, p: string, k: nat, op: Option<Op>, id: string, session: Session)
    requires id in s.sessions && session.profile == s.sessions[id].profile && id !in Own(s, p)
    requires t.sessions == s.sessions[id := session] && t.ops == With(s.ops, k, op) && t.live == s.live
    requires NotMaking(op) && (k in s.ops ==> !s.ops[k].CreateCall? && Shown(Own(s, p), p, s.ops[k]).None?)
    requires ShownOpt(Own(s, p), p, op).None?
    ensures View(t, p) == View(s, p)
  {
    PutView(s, t, p, k, op, id, session);
    WithSame(View(s, p).ops, k);
  }

  lemma TabWaitHidden(cfg: Config, s: State, k: nat, p: string, answer: Answer, newId: string)
    requires k in s.ops && s.ops[k].TabWait? && s.ops[k].id in s.sessions && s.ops[k].id !in Own(s, p)
    ensures View(ResumeTab(cfg, s, k, s.ops[k], answer, newId).0, p) == View(s, p)
  {
    var op := s.ops[k];
    var session := s.sessions[op.id];
    if |session.tabs| >= cfg.maxTabs {
      MoveView(s, End(s, k), p, k, None);
      WithSame(View(s, p).ops, k);
    } else {
      var next := TabCall(op.id, op.url, op.now);
      var t := Suspend(Put(s, op.id, session.(locked := true)), k, next).0;
      PutHidden(s, t, p, k, Some(next), op.id, session.(locked := true));
    }
  }

  lemma TabCallHidden(cfg: Config, s: State, k: nat, p: string, answer: Answer, newId: string)
    requires k in s.ops && s.ops[k].TabCall? && s.ops[k].id in s.sessions && s.ops[k].id !in Own(s, p)
    ensures View(ResumeTab(cfg, s, k, s.ops[k], answer, newId).0, p) == View(s, p)
  {
    var op := s.ops[k];
    var t := ResumeTab(cfg, s, k, op, answer, newId).0;
    PutHidden(s, t, p, k, None, op.id, t.sessions[op.id]);
  }

  lemma TabHidden(cfg: Config, s: State, k: nat, p: string, answer: Answer, newId: string)
    requires k in s.ops && (s.ops[k].TabWait? || s.ops[k].TabCall?) && s.ops[k].id in s.sessions
    requires s.ops[k].id !in Own(s, p)
    ensures View(ResumeTab(cfg, s, k, s.ops[k], answer, newId).0, p) == View(s, p)
  {
    if s.ops[k].TabWait? {
      TabWaitHidden(cfg, s, k, p, answer, newId);
    } else {
      TabCallHidden(cfg, s, k, p, answer, newId);
    }
  }

  lemma CloseHidden(s: State, k: nat, p: string, answer: Answer, now: int)
    requires k in s.ops && (s.ops[k].CloseCall? || s.ops[k].CloseWait?) && s.ops[k].id in s.sessions
    requires s.ops[k].id !in Own(s, p)
    ensures View(ResumeClose(s, k, s.ops[k], answer, now).0, p) == View(s, p)
  {
    var op := s.ops[k];
    var t := ResumeClose(s, k, op, answer, now).0;
    var next := if k in t.ops then Some(t.ops[k]) else None;
    if op.CloseCall? {
      MoveView(s, t, p, k, next);
    } else {
      PutView(s, t, p, k, next, op.id, t.sessions[op.id]);
    }
  }

  lemma ActHidden(s: State, k: nat, p: string, answer: Answer, now: int)
    requires k in s.ops && s.ops[k].ActCall? && s.ops[k].id in s.sessions && s.ops[k].id !in Own(s, p)
    ensures View(ResumeAct(s, k, s.ops[k], answer, now).0, p) == View(s, p)
  {
    var op := s.ops[k];
    var t := ResumeAct(s, k, op, answer, now).0;
    if answer.Refused? {
      MoveView(s, t, p, k, None);
    } else {
      PutView(s, t, p, k, None, op.id, t.sessions[op.id]);
    }
  }

  lemma CreateHidden(cfg: Config, evaluate: bool, s: State, k: nat, p: string, answer: Answer, newId: string)
    requires Creators(s) && Known(s) && newId !in s.sessions
    requires k in s.ops && (s.ops[k].CreateWait? || s.ops[k].CreateCall?) && s.ops[k].owner != p
    requires s.ops[k].CreateWait? ==> !s.locked
    ensures View(ResumeCreate(cfg, evaluate, s, k, s.ops[k], answer, newId).0, p) == View(s, p)
  {
    var op := s.ops[k];
    var t := ResumeCreate(cfg, evaluate, s, k, op, answer, newId).0;
    var u := End(s, k).(locked := false);
    MakesSame(s.ops, t.ops, k, p);
    ShownEnd(Own(s, p), p, s.ops, k);
    assert Own(u, p) == Own(s, p);
    if op.CreateWait? {
      ShownPut(Own(s, p), p, s.ops, k, CreateCall(op.owner, op.now));
      assert Own(t, p) == Own(s, p);
    } else {
      NobodyMakes(s, k, p);
      EndKnown(s, k);
      if answer.Accepted? {
        AddedView(u, p, newId, NewSession(cfg, op.owner, answer.handle, evaluate, op.now));
      }
    }
  }

  // -------------------------------------------------------------- each event

  /** The operation works for the profile, on a session of its own. */
  predicate For(s: State, p: string, op: Op) {
    match op
    case CreateWait(owner, _) => owner == p
    case CreateCall(owner, _) => owner == p
    case SweepWait(_) => false
    case _ => op.id in Own(s, p)
  }

  /** The profile's own stretches, and those of the sweeper. */
  predicate Shows(s: State, e: Event, p: string) {
    match e
    case Start(_, profile, _, _) => profile == p
    case Sweep(_, _) => true
    case Scan(_, _) => true
    case Resume(k, _, _, _) => k in s.ops && For(s, p, s.ops[k])
  }

  /** Every stretch but a sweep's gives its reply to the profile. */
  predicate Replies(s: State, e: Event) {
    e.Start? || (e.Resume? && e.op in s.ops && (IsRelease(s.ops[e.op]) ==> s.ops[e.op].rest == []))
  }

  lemma KnownView(s: State, p: string)
    requires Known(s)
    ensures Known(View(s, p))
  {
    forall k, id | k in View(s, p).ops && Uses(View(s, p).ops[k], id)
      ensures id in View(s, p).sessions
    {
      ShownUses(Own(s, p), p, s.ops[k], id);
    }
  }

  lemma ShownUses(own: set<string>, p: string, op: Op, id: string)
    requires Shown(own, p, op).Some? && Uses(Shown(own, p, op).value, id)
    ensures id in own
  {
    if op.ReleaseWait? {
      ShownRelease(own, p, op.id, op.rest);
    }
    if IsRelease(op) {
      var r := OwnOnly(own, op.rest);
      assert r != [] ==> r[0] in r && forall x :: x in r[1..] ==> x in r;
    }
  }

  lemma ShownFor(s: State, p: string, op: Op)
    requires For(s, p, op) && !IsRelease(op)
    ensures Shown(Own(s, p), p, op) == Some(op)
  {
  }

  /** Where an own stretch can go on, it can in the view. */
  lemma EnabledView(s: State, e: Event, p: string)
    requires Known(s) && Creators(s) && Enabled(s, e) && Shows(s, e, p)
    ensures Enabled(View(s, p), e)
  {
    if e.Resume? {
      var op := s.ops[e.op];
      if IsRelease(op) {
        ShownOwn(Own(s, p), p, op);
      } else {
        ShownFor(s, p, op);
      }
    }
  }

  lemma ShowsStep(cfg: Config, evaluate: bool, s: State, e: Event, p: string)
    requires Known(s) && Creators(s) && Enabled(s, e) && Shows(s, e, p)
    ensures Known(View(s, p)) && Enabled(View(s, p), e)
    ensures Step(cfg, evaluate, View(s, p), e).0 == View(Step(cfg, evaluate, s, e).0, p)
    ensures Replies(s, e) ==> Step(cfg, evaluate, View(s, p), e).1 == Step(cfg, evaluate, s, e).1
  {
    KnownView(s, p);
    EnabledView(s, e, p);
    match e
    case Start(k, profile, request, now) => BeginView(cfg, s, k, p, request, now);
    case Sweep(k, now) => MoveView(s, s.(ops := s.ops[k := SweepWait(now)]), p, k, Some(SweepWait(now)));
    case Scan(k, order) => ScanView(cfg, s, k, p, order);
    case Resume(k, answer, now, newId) => ResumeShows(cfg, evaluate, s, e, p);
  }

  lemma ResumeShows(cfg: Config, evaluate: bool, s: State, e: Event, p: string)
    requires e.Resume? && Known(s) && Creators(s) && Enabled(s, e) && Shows(s, e, p)
    requires Known(View(s, p)) && Enabled(View(s, p), e)
    ensures Step(cfg, evaluate, View(s, p), e).0 == View(Step(cfg, evaluate, s, e).0, p)
    ensures Replies(s, e) ==> Step(cfg, evaluate, View(s, p), e).1 == Step(cfg, evaluate, s, e).1
  {
    var op := s.ops[e.op];
    if IsRelease(op) {
      ReleaseView(s, e.op, p);
    } else {
      ShownFor(s, p, op);
      if op.CreateWait? {
        CreateWaitView(cfg, evaluate, s, e.op, p, e.answer, e.newId);
      } else if op.CreateCall? {
        CreateCallView(cfg, evaluate, s, e.op, p, e.answer, e.newId);
      } else if op.TabWait? || op.TabCall? {
        TabView(cfg, s, e.op, p, e.answer, e.newId);
      } else if op.CloseCall? || op.CloseWait? {
        CloseView(s, e.op, p, e.answer, e.now);
      } else {
        ActView(s, e.op, p, e.answer, e.now);
      }
    }
  }

  lemma HiddenStep(cfg: Config, evaluate: bool, s: State, e: Event, p: string)
    requires Known(s) && Creators(s) && Enabled(s, e) && !Shows(s, e, p)
    ensures View(Step(cfg, evaluate, s, e).0, p) == View(s, p)
  {
    if e.Start? {
      BeginHidden(cfg, s, e.op, e.profile, p, e.request, e.now);
    } else {
      var op := s.ops[e.op];
      if op.CreateWait? || op.CreateCall? {
        CreateHidden(cfg, evaluate, s, e.op, p, e.answer, e.newId);
      } else {
        assert Uses(op, op.id);
        if op.TabWait? || op.TabCall? {
          TabHidden(cfg, s, e.op, p, e.answer, e.newId);
        } else if op.CloseCall? || op.CloseWait? {
          CloseHidden(s, e.op, p, e.answer, e.now);
        } else if op.ActCall? {
          ActHidden(s, e.op, p, e.answer, e.now);
        } else {
          ReleaseHidden(s, e.op, p);
        }
      }
    }
  }

  /** One operation moves, and no session changes its profile. */
  ghost predicate Frame(s: State, t: State, k: nat) {
    && (forall j :: j != k ==> (j in t.ops <==> j in s.ops) && (j in s.ops ==> t.ops[j] == s.ops[j]))
    && (forall id :: id in s.sessions ==> id in t.sessions && t.sessions[id].profile == s.sessions[id].profile)
  }

  lemma ResumeFrame(cfg: Config, evaluate: bool, s: State, e: Event)
    requires e.Resume? && Known(s) && Enabled(s, e) && !s.ops[e.op].CreateWait? && !s.ops[e.op].CreateCall?
    ensures var t := Step(cfg, evaluate, s, e).0;
      Frame(s, t, e.op) && t.locked == s.locked && (e.op in t.ops ==> !t.ops[e.op].CreateCall?)
  {
    var op := s.ops[e.op];
    assert Uses(op, op.id);
    if IsRelease(op) {
      ReleaseIs(s, e.op, op);
    }
  }

  lemma CreateFrame(cfg: Config, evaluate: bool, s: State, k: nat, op: Op, answer: Answer, newId: string)
    requires (op.CreateWait? || op.CreateCall?) && newId !in s.sessions
    ensures var t := ResumeCreate(cfg, evaluate, s, k, op, answer, newId).0;
      Frame(s, t, k) && (k in t.ops && t.ops[k].CreateCall? ==> op.CreateWait?)
  {
  }

  lemma BeginFrame(cfg: Config, s: State, k: nat, owner: string, request: Request, now: int)
    requires k !in s.ops
    ensures var t := Begin(cfg, s, k, owner, request, now).0;
      Frame(s, t, k) && t.locked == s.locked && (k in t.ops ==> !t.ops[k].CreateCall?)
  {
  }

  lemma StepFrame(cfg: Config, evaluate: bool, s: State, e: Event)
    requires Known(s) && Enabled(s, e)
    ensures var t := Step(cfg, evaluate, s, e).0;
      && Frame(s, t, e.op)
      && (e.op in t.ops && t.ops[e.op].CreateCall? ==> e.Resume? && s.ops[e.op].CreateWait?)
      && (t.locked == s.locked || (e.Resume? && (s.ops[e.op].CreateWait? || s.ops[e.op].CreateCall?)))
  {
    match e
    case Start(k, profile, request, now) => BeginFrame(cfg, s, k, profile, request, now);
    case Sweep(_, _) =>
    case Scan(_, _) =>
    case Resume(k, answer, _, newId) =>
      if s.ops[k].CreateWait? || s.ops[k].CreateCall? {
        CreateFrame(cfg, evaluate, s, k, s.ops[k], answer, newId);
      } else {
        ResumeFrame(cfg, evaluate, s, e);
      }
  }

  lemma StepCreators(cfg: Config, evaluate: bool, s: State, e: Event)
    requires Known(s) && Enabled(s, e) && Creators(s)
    ensures Creators(Step(cfg, evaluate, s, e).0)
  {
    StepFrame(cfg, evaluate, s, e);
  }

  // -------------------------------------------------------------------- runs

  /** The run without the operations of other profiles. */
  ghost function Purged(cfg: Config, evaluate: bool, s: State, es: seq<Event>, p: string): (r: seq<Event>)
    requires Runs(cfg, evaluate, s, es)
    ensures forall e :: e in r ==> e in es && (e.Start? ==> e.profile == p)
    decreases |es|
  {
    if es == [] then []
    else (if Shows(s, es[0], p) then [es[0]] else [])
         + Purged(cfg, evaluate, Step(cfg, evaluate, s, es[0]).0, es[1..], p)
  }

  /** The stretch belongs to a request of the profile, of which `mine` are under way. */
  predicate Asks(e: Event, p: string, mine: set<nat>) {
    (e.Start? && e.profile == p) || (e.Resume? && e.op in mine)
  }

  function Pending(e: Event, r: Reply, mine: set<nat>): set<nat> {
    if r.Suspended? then mine + {e.op} else mine - {e.op}
  }

  /** What the profile is told, stretch by stretch. */
  ghost function Heard(cfg: Config, evaluate: bool, s: State, es: seq<Event>, p: string, mine: set<nat>): seq<Reply>
    requires Runs(cfg, evaluate, s, es)
    decreases |es|
  {
    if es == [] then []
    else
      var (t, r) := Step(cfg, evaluate, s, es[0]);
      if Asks(es[0], p, mine) then [r] + Heard(cfg, evaluate, t, es[1..], p, Pending(es[0], r, mine))
      else Heard(cfg, evaluate, t, es[1..], p, mine)
  }

  /** The operations under way for the profile's requests. */
  ghost predicate Requests(s: State, p: string, mine: set<nat>) {
    forall k :: k in mine ==> k in s.ops && Requested(s, p, s.ops[k])
  }

  predicate Requested(s: State, p: string, op: Op) { For(s, p, op) && (IsRelease(op) ==> op.rest == []) }

  lemma StillRequested(s: State, t: State, p: string, op: Op)
    requires Requested(s, p, op)
    requires forall id :: id in s.sessions ==> id in t.sessions && t.sessions[id].profile == s.sessions[id].profile
    ensures Requested(t, p, op)
  {
  }

  lemma AskedResume(cfg: Config, evaluate: bool, s: State, e: Event, p: string)
    requires e.Resume? && Known(s) && Enabled(s, e) && Requested(s, p, s.ops[e.op])
    ensures var (t, r) := Step(cfg, evaluate, s, e); r.Suspended? ==> e.op in t.ops && Requested(t, p, t.ops[e.op])
  {
    var op := s.ops[e.op];
    if !op.CreateWait? && !op.CreateCall? {
      assert Uses(op, op.id);
      ResumeFrame(cfg, evaluate, s, e);
    }
  }

  lemma AskedStep(cfg: Config, evaluate: bool, s: State, e: Event, p: string)
    requires Known(s) && Enabled(s, e)
    requires (e.Start? && e.profile == p) || (e.Resume? && Requested(s, p, s.ops[e.op]))
    ensures Shows(s, e, p) && Replies(s, e)
    ensures var (t, r) := Step(cfg, evaluate, s, e); r.Suspended? ==> e.op in t.ops && Requested(t, p, t.ops[e.op])
  {
    if e.Resume? {
      AskedResume(cfg, evaluate, s, e, p);
    }
  }

  lemma StepRequests(cfg: Config, evaluate: bool, s: State, e: Event, p: string, mine: set<nat>)
    requires Known(s) && Enabled(s, e) && Requests(s, p, mine)
    ensures var (t, r) := Step(cfg, evaluate, s, e);
      Requests(t, p, if Asks(e, p, mine) then Pending(e, r, mine) else mine)
    ensures Asks(e, p, mine) ==> Shows(s, e, p) && Replies(s, e)
  {
    var (t, r) := Step(cfg, evaluate, s, e);
    StepFrame(cfg, evaluate, s, e);
    if Asks(e, p, mine) {
      AskedStep(cfg, evaluate, s, e, p);
    } else {
      assert e.op !in mine;
    }
    forall k | k in mine && k != e.op
      ensures k in t.ops && Requested(t, p, t.ops[k])
    {
      StillRequested(s, t, p, s.ops[k]);
    }
  }

  lemma {:induction false} PurgedRun(cfg: Config, evaluate: bool, s: State, es: seq<Event>, p: string, mine: set<nat>)
    requires Runs(cfg, evaluate, s, es) && Creators(s) && Requests(s, p, mine)
    ensures var fewer := Purged(cfg, evaluate, s, es, p);
      && Runs(cfg, evaluate, View(s, p), fewer)
      && After(cfg, evaluate, View(s, p), fewer) == View(After(cfg, evaluate, s, es), p)
      && Heard(cfg, evaluate, View(s, p), fewer, p, mine) == Heard(cfg, evaluate, s, es, p, mine)
    decreases |es|
  {
    if es != [] {
      var e := es[0];
      var (t, r) := Step(cfg, evaluate, s, e);
      var next := if Asks(e, p, mine) then Pending(e, r, mine) else mine;
      StepRequests(cfg, evaluate, s, e, p, mine);
      StepCreators(cfg, evaluate, s, e);
      PurgedRun(cfg, evaluate, t, es[1..], p, next);
      var rest := Purged(cfg, evaluate, t, es[1..], p);
      if Shows(s, e, p) {
        ShowsStep(cfg, evaluate, s, e, p);
        assert ([e] + rest)[1..] == rest;
      } else {
        HiddenStep(cfg, evaluate, s, e, p);
        assert [] + rest == rest;
      }
    }
  }

  /** Over any run from the start, a profile is told the same when every operation of every
      other profile is left out: the run without them is a run, gives it the same replies
      in the same order, and ends with the same sessions and operations of its own. */
  lemma OthersDoNotShow(cfg: Config, evaluate: bool, es: seq<Event>, p: string)
    requires Runs(cfg, evaluate, Init(), es)
    ensures var fewer := Purged(cfg, evaluate, Init(), es, p);
      && (forall e :: e in fewer && e.Start? ==> e.profile == p)
      && Runs(cfg, evaluate, Init(), fewer)
      && Heard(cfg, evaluate, Init(), fewer, p, {}) == Heard(cfg, evaluate, Init(), es, p, {})
      && After(cfg, evaluate, Init(), fewer) == View(After(cfg, evaluate, Init(), es), p)
  {
    assert View(Init(), p) == Init();
    PurgedRun(cfg, evaluate, Init(), es, p, {});
  }
}
