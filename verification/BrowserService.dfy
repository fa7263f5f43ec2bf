/** The interactive browser service over mutable session records (app/browser/service.py).
    Each method is one atomic stretch of an operation, between two awaits; the suspended
    coroutine's reference to its session is a parameter of the stretch that goes on.  Each
    is proved to be the step of `SessionModel` for that stretch. */
module BrowserService {
  import opened Sequences
  import opened SessionModel
  import SessionSafety

  class TrackedSession {
    const id: string
    const profile: string
    const providerSession: string
    const allowEvaluate: bool
    const createdAt: int
    var tabs: map<string, Tab>
    var lastActivity: int
    var locked: bool

    constructor (id: string, profile: string, providerSession: string, allowEvaluate: bool, now: int)
      ensures this.id == id && View() == Session(profile, providerSession, allowEvaluate, map[], now, now, false)
    {
      this.id, this.profile, this.providerSession, this.allowEvaluate := id, profile, providerSession, allowEvaluate;
      createdAt, lastActivity, tabs, locked := now, now, map[], false;
    }

    function View(): Session
      reads this
    {
      Session(profile, providerSession, allowEvaluate, tabs, createdAt, lastActivity, locked)
    }
  }

  class AgentBrowserService {
    const cfg: Config
    const evaluate: bool
    var sessions: map<string, TrackedSession>
    var locked: bool

    /** Every session record ever made, and the abstract state. */
    ghost var all: map<string, TrackedSession>
    ghost var model: State

    ghost predicate Represents()
      reads this, all.Values
    {
      && all.Keys == model.sessions.Keys
      && (forall id :: id in all ==> all[id].id == id && all[id].View() == model.sessions[id])
      && sessions.Keys == model.live
      && (forall id :: id in sessions ==> id in all && sessions[id] == all[id])
      && locked == model.locked
    }

    ghost predicate Valid()
      reads this, all.Values
    {
      Represents() && SessionSafety.Inv(cfg, model)
    }

    constructor (cfg: Config, evaluate: bool)
      ensures this.cfg == cfg && this.evaluate == evaluate && model == Init() && Valid()
    {
      this.cfg, this.evaluate, sessions, locked := cfg, evaluate, map[], false;
      all, model := map[], Init();
    }

    /** `_get_session`. */
    method Find(owner: string, id: string, now: int) returns (session: Option<TrackedSession>, error: Error)
      requires Represents()
      ensures match Lookup(cfg, model, owner, id, now)
        case None => id in all && session == Some(all[id])
        case Some(e) => session.None? && error == e
    {
      session, error := None, NotFound;
      if id !in sessions || sessions[id].profile != owner {
        return;
      }
      assert sessions[id].View() == model.sessions[id];
      if now >= sessions[id].lastActivity + cfg.ttl {
        return None, Expired;
      }
      session := Some(sessions[id]);
    }

    /** The first stretch of any request: checks, and the suspension with its locals. */
    method Start(k: nat, owner: string, request: Request, now: int) returns (reply: Reply)
      requires Valid() && k !in model.ops
      modifies this`model
      ensures Valid()
      ensures (model, reply) == Step(cfg, evaluate, old(model), Event.Start(k, owner, request, now))
    {
      SessionSafety.StepInv(cfg, evaluate, model, Event.Start(k, owner, request, now));
      reply := StartBody(k, owner, request, now);
    }

    method StartBody(k: nat, owner: string, request: Request, now: int) returns (reply: Reply)
      requires Represents()
      modifies this`model
      ensures Represents()
      ensures (model, reply) == Begin(cfg, old(model), k, owner, request, now)
    {
      reply := StartReply(owner, request, now);
      BeginIs(cfg, model, k, owner, request, now);
      model := Begin(cfg, model, k, owner, request, now).0;
    }

    method StartReply(owner: string, request: Request, now: int) returns (reply: Reply)
      requires Represents()
      ensures reply == FirstReply(cfg, model, owner, request, now)
    {
      if request.CreateSession? {
        return if cfg.enabled then Suspended else Failed(Disabled);
      }
      var session, error := Find(owner, request.id, now);
      if session.None? {
        return Failed(error);
      }
      reply := Checked(session.value, request);
    }

    /** The checks after the session was found. */
    method Checked(session: TrackedSession, request: Request) returns (reply: Reply)
      requires !request.CreateSession?
      ensures reply == CheckedReply(session.View(), request)
    {
      match request
      case GetSession(id) => return Done(id);
      case DeleteSession(_) => return Suspended;
      case CreateTab(_, url, urlAllowed) =>
        if url.Some? && !urlAllowed {
          return Failed(UrlRejected);
        }
        return Suspended;
      case DeleteTab(_, tab) =>
        return if tab in session.tabs then Suspended else Failed(TabNotFound);
      case Act(_, tab, _, _, _, _) =>
        if tab !in session.tabs {
          return Failed(TabNotFound);
        }
        var refused := ActionCheck(session.View(), request);
        return if refused.Some? then Failed(refused.value) else Suspended;
    }

    // ------------------------------------------------------- later stretches

    /** `create_session` once it has the service lock. */
    method GrantCreate(k: nat, op: Op) returns (reply: Reply)
      requires Represents() && op.CreateWait?
      modifies this`locked, this`model
      ensures Represents()
      ensures (model, reply) == ResumeCreate(cfg, evaluate, old(model), k, op, Refused(0), "")
    {
      var active := set id | id in sessions && sessions[id].profile == op.owner
                             && op.now < sessions[id].lastActivity + cfg.ttl;
      assert active == Active(cfg, model, op.owner, op.now) by {
        forall id | id in sessions
          ensures sessions[id].View() == model.sessions[id]
        {
        }
      }
      if |active| >= cfg.maxSessions {
        model := SessionModel.End(model, k);
        return Failed(SessionLimit);
      }
      locked := true;
      model := Suspend(model.(locked := true), k, CreateCall(op.owner, op.now)).0;
      return Suspended;
    }

    /** `create_session` when the provider has answered. */
    method FinishCreate(k: nat, op: Op, answer: Answer, newId: string) returns (reply: Reply)
      requires Represents() && op.CreateCall? && newId !in model.sessions
      modifies this
      ensures Represents()
      ensures (model, reply) == ResumeCreate(cfg, evaluate, old(model), k, op, answer, newId)
      ensures fresh(all.Values - old(all.Values))
    {
      ghost var before := model;
      locked := false;
      match answer
      case Refused(status) =>
        model := ResumeCreate(cfg, evaluate, before, k, op, answer, newId).0;
        return Failed(ProviderFailed(status));
      case Accepted(handle, _, _) =>
        model := SessionModel.End(before, k).(locked := false);
        Register(newId, op.owner, handle, op.now);
        return Done(newId);
    }

    /** A new record enters the registry. */
    method Register(id: string, owner: string, handle: string, now: int)
      requires Represents() && id !in model.sessions
      modifies this`sessions, this`all, this`model
      ensures Represents()
      ensures model == Put(old(model), id, NewSession(cfg, owner, handle, evaluate, now)).(live := old(model).live + {id})
      ensures fresh(all.Values - old(all.Values))
    {
      var session := new TrackedSession(id, owner, handle, evaluate, now);
      sessions := sessions[id := session];
      all := all[id := session];
      model := Put(model, id, NewSession(cfg, owner, handle, evaluate, now)).(live := model.live + {id});
    }

    /** The record that a suspended operation holds on to. */
    ghost predicate Tracks(session: TrackedSession, id: string)
      reads this
    {
      id in all && all[id] == session
    }

    /** `create_tab` once it has the session's lock. */
    method GrantTab(k: nat, op: Op, session: TrackedSession) returns (reply: Reply)
      requires Represents() && op.TabWait? && Tracks(session, op.id)
      modifies this`model, session`locked
      ensures Represents()
      ensures (model, reply) == ResumeTab(cfg, old(model), k, op, Refused(0), "")
    {
      ghost var before := model;
      assert session.View() == before.sessions[op.id];
      model := ResumeTab(cfg, before, k, op, Refused(0), "").0;
      if |session.tabs| >= cfg.maxTabs {
        return Failed(TabLimit);
      }
      session.locked := true;
      return Suspended;
    }

    /** `create_tab` when the provider has answered. */
    method FinishTab(k: nat, op: Op, session: TrackedSession, answer: Answer, newId: string) returns (reply: Reply)
      requires Represents() && op.TabCall? && Tracks(session, op.id)
      modifies this`model, session
      ensures Represents()
      ensures (model, reply) == ResumeTab(cfg, old(model), k, op, answer, newId)
    {
      ghost var before := model;
      assert session.View() == before.sessions[op.id];
      model := ResumeTab(cfg, before, k, op, answer, newId).0;
      session.locked := false;
      match answer
      case Refused(status) =>
        return Failed(ProviderFailed(status));
      case Accepted(handle, url, title) =>
        session.tabs := session.tabs[newId := Tab(handle, OrElse(url, op.url), title, op.now)];
        session.lastActivity := op.now;
        return Done(newId);
    }

    /** `delete_tab` after the provider call, and then under the session's lock. */
    method FinishClose(k: nat, op: Op, session: TrackedSession, answer: Answer, now: int) returns (reply: Reply)
      requires Represents() && (op.CloseCall? || op.CloseWait?) && Tracks(session, op.id)
      modifies this`model, session
      ensures Represents()
      ensures (model, reply) == ResumeClose(old(model), k, op, answer, now)
    {
      ghost var before := model;
      assert session.View() == before.sessions[op.id];
      model := ResumeClose(before, k, op, answer, now).0;
      if op.CloseCall? {
        if answer.Refused? && answer.status != 404 {
          return Failed(ProviderFailed(answer.status));
        }
        return Suspended;
      }
      session.tabs := session.tabs - {op.tab};
      session.lastActivity := now;
      return Done(op.tab);
    }

    /** The tab record takes over the address and title the provider reports. */
    method UpdateTab(session: TrackedSession, op: Op, answer: Answer)
      requires op.ActCall? && answer.Accepted?
      modifies session`tabs
      ensures session.tabs == Updated(old(session.View()), op, answer)
    {
      if op.tab !in session.tabs || op.action.Evaluate? {
        return;
      }
      var tab := session.tabs[op.tab];
      if answer.url.Some? {
        tab := tab.(url := answer.url);
      }
      if answer.title.Some? && (op.action.Snapshot? || op.action.Navigate?) {
        tab := tab.(title := answer.title);
      }
      session.tabs := session.tabs[op.tab := tab];
    }

    /** A page action when the provider has answered. */
    method FinishAct(k: nat, op: Op, session: TrackedSession, answer: Answer, now: int) returns (reply: Reply)
      requires Represents() && op.ActCall? && Tracks(session, op.id)
      modifies this`model, session
      ensures Represents()
      ensures (model, reply) == ResumeAct(old(model), k, op, answer, now)
    {
      ghost var before := model;
      assert session.View() == before.sessions[op.id];
      model := ResumeAct(before, k, op, answer, now).0;
      if answer.Refused? {
        return Failed(ProviderFailed(answer.status));
      }
      UpdateTab(session, op, answer);
      session.lastActivity := if op.action.Snapshot? then op.now else now;
      return Done(op.tab);
    }

    /** `_release_session`: the session's lock is taken and given back around the provider
        calls, and then the session leaves the registry under the service lock. */
    method Release(k: nat, op: Op, session: TrackedSession) returns (reply: Reply)
      requires Represents() && (op.ReleaseWait? || op.ReleaseCall? || op.ReleasePop?) && Tracks(session, op.id)
      modifies this, session`locked
      ensures Represents() && all == old(all)
      ensures (model, reply) == ResumeRelease(old(model), k, op)
    {
      ghost var before := model;
      assert session.View() == before.sessions[op.id];
      model := ResumeRelease(before, k, op).0;
      if op.ReleaseWait? {
        session.locked := true;
        return Suspended;
      }
      if op.ReleaseCall? {
        session.locked := false;
        return Suspended;
      }
      sessions := sessions - {op.id};
      return if op.rest == [] then Done(op.id) else Suspended;
    }

    /** `sweep_expired` under the service lock: the expired sessions, in the order in which
        the registry lists them. */
    method Scan(now: int, order: seq<string>) returns (expired: seq<string>)
      requires Represents()
      ensures expired == ExpiredOnes(cfg, model, now, order)
    {
      expired := [];
      for i := 0 to |order|
        invariant expired + ExpiredOnes(cfg, model, now, order[i..]) == ExpiredOnes(cfg, model, now, order)
      {
        var id := order[i];
        if id in sessions {
          assert sessions[id].View() == model.sessions[id];
          if now >= sessions[id].lastActivity + cfg.ttl {
            expired := expired + [id];
          }
        }
      }
    }

    /** Whichever stretch the operation goes on with, the service makes that step and keeps
        its invariant; `session` is the record the operation holds, if any. */
    method Resume(k: nat, op: Op, session: Option<TrackedSession>, answer: Answer, now: int, newId: string)
      returns (reply: Reply)
      requires Valid() && k in model.ops && model.ops[k] == op
      requires Enabled(model, Event.Resume(k, answer, now, newId))
      requires !op.CreateWait? && !op.CreateCall? ==> session.Some? && Tracks(session.value, op.id)
      modifies this, if session.Some? then {session.value} else {}
      ensures Valid()
      ensures (model, reply) == Step(cfg, evaluate, old(model), Event.Resume(k, answer, now, newId))
    {
      SessionSafety.StepInv(cfg, evaluate, model, Event.Resume(k, answer, now, newId));
      reply := ResumeBody(k, op, session, answer, now, newId);
    }

    method ResumeBody(k: nat, op: Op, session: Option<TrackedSession>, answer: Answer, now: int, newId: string)
      returns (reply: Reply)
      requires Represents() && Known(model) && k in model.ops && model.ops[k] == op
      requires Enabled(model, Event.Resume(k, answer, now, newId))
      requires !op.CreateWait? && !op.CreateCall? ==> session.Some? && Tracks(session.value, op.id)
      modifies this, if session.Some? then {session.value} else {}
      ensures Represents()
      ensures (model, reply) == Step(cfg, evaluate, old(model), Event.Resume(k, answer, now, newId))
    {
      if op.CreateWait? {
        reply := GrantCreate(k, op);
      } else if op.CreateCall? {
        reply := FinishCreate(k, op, answer, newId);
      } else if op.TabWait? {
        reply := GrantTab(k, op, session.value);
      } else if op.TabCall? {
        reply := FinishTab(k, op, session.value, answer, newId);
      } else if op.CloseCall? || op.CloseWait? {
        reply := FinishClose(k, op, session.value, answer, now);
      } else if op.ActCall? {
        reply := FinishAct(k, op, session.value, answer, now);
      } else {
        reply := Release(k, op, session.value);
      }
    }
  }

  function FirstReply(cfg: Config, s: State, owner: string, request: Request, now: int): Reply {
    if request.CreateSession? then if cfg.enabled then Suspended else Failed(Disabled)
    else match Lookup(cfg, s, owner, request.id, now)
      case Some(e) => Failed(e)
      case None => if request.id in s.sessions then CheckedReply(s.sessions[request.id], request) else Failed(NotFound)
  }

  lemma BeginIs(cfg: Config, s: State, k: nat, owner: string, request: Request, now: int)
    ensures var (t, reply) := Begin(cfg, s, k, owner, request, now);
      && reply == FirstReply(cfg, s, owner, request, now)
      && t.sessions == s.sessions && t.live == s.live && t.locked == s.locked
  {
  }

  function CheckedReply(session: Session, request: Request): Reply
    requires !request.CreateSession?
  {
    match request
    case GetSession(id) => Done(id)
    case DeleteSession(_) => Suspended
    case CreateTab(_, url, urlAllowed) => if url.Some? && !urlAllowed then Failed(UrlRejected) else Suspended
    case DeleteTab(_, tab) => if tab in session.tabs then Suspended else Failed(TabNotFound)
    case Act(_, tab, _, _, _, _) =>
      if tab !in session.tabs then Failed(TabNotFound)
      else match ActionCheck(session, request) case Some(e) => Failed(e) case None => Suspended
  }
}
