/** The interactive browser service as a transition system (app/browser/service.py).  An
    operation is a sequence of atomic stretches; between two of them it is suspended at a
    provider call or at a lock, and other operations run.  Waiting for a lock is a stage of
    its own, left once the lock is free. */
module SessionModel {
  import opened Sequences

  datatype Config = Config(enabled: bool, maxSessions: int, maxTabs: int, ttl: int)

  datatype Tab = Tab(providerTab: string, url: Option<string>, title: Option<string>, createdAt: int)

  datatype Session = Session(
    profile: string, providerSession: string, allowEvaluate: bool, tabs: map<string, Tab>, createdAt: int,
    lastActivity: int, locked: bool)

  /** Where an operation is suspended, with its local variables. */
  datatype Op =
    | CreateWait(owner: string, now: int)
    | CreateCall(owner: string, now: int)
    | TabWait(id: string, url: Option<string>, now: int)
    | TabCall(id: string, url: Option<string>, now: int)
    | CloseCall(id: string, tab: string)
    | CloseWait(id: string, tab: string)
    | ActCall(id: string, tab: string, action: Action, now: int)
    | ReleaseWait(id: string, rest: seq<string>)
    | ReleaseCall(id: string, rest: seq<string>)
    | ReleasePop(id: string, rest: seq<string>)
    | SweepWait(now: int)

  datatype Action = Snapshot | Navigate | Click | TypeText | Evaluate

  /** `sessions` holds every session object ever made, `live` the registered ones. */
  datatype State = State(sessions: map<string, Session>, live: set<string>, locked: bool, ops: map<nat, Op>)

  function Init(): State { State(map[], {}, false, map[]) }

  datatype Error =
    | Disabled | NotFound | Expired | TabNotFound | SessionLimit | TabLimit | UrlRejected | BadArguments
    | EvaluateDisabled | ProviderFailed(status: int)

  datatype Reply = Suspended | Done(text: string) | Failed(error: Error)

  // ---------------------------------------------------------------- requests

  /** `urlAllowed`, `complete` and `canEvaluate` are the verdicts of the URL rules, of the
      argument check and of the provider's evaluation flag. */
  datatype Request =
    | CreateSession
    | GetSession(id: string)
    | DeleteSession(id: string)
    | CreateTab(id: string, url: Option<string>, urlAllowed: bool)
    | DeleteTab(id: string, tab: string)
    | Act(id: string, tab: string, action: Action, urlAllowed: bool, complete: bool, canEvaluate: bool)

  /** What the provider answers to a suspended call. */
  datatype Answer =
    | Accepted(handle: string, url: Option<string>, title: Option<string>)
    | Refused(status: int)

  datatype Event =
    | Start(op: nat, profile: string, request: Request, now: int)
    | Sweep(op: nat, now: int)
    | Scan(op: nat, order: seq<string>)
    | Resume(op: nat, answer: Answer, now: int, newId: string)

  // ------------------------------------------------------------------ lookup

  predicate ExpiredAt(cfg: Config, session: Session, now: int) { now >= session.lastActivity + cfg.ttl }

  /** `_get_session`: unknown and foreign identifiers get the same answer. */
  function Lookup(cfg: Config, s: State, owner: string, id: string, now: int): Option<Error> {
    if id !in s.live || id !in s.sessions || s.sessions[id].profile != owner then Some(NotFound)
    else if ExpiredAt(cfg, s.sessions[id], now) then Some(Expired)
    else None
  }

  function LookupTab(cfg: Config, s: State, owner: string, id: string, tab: string, now: int): Option<Error> {
    var found := Lookup(cfg, s, owner, id, now);
    if found.Some? then found
    else if id in s.sessions && tab in s.sessions[id].tabs then None
    else Some(TabNotFound)
  }

  /** The registered sessions of a profile that are not expired. */
  function Active(cfg: Config, s: State, owner: string, now: int): set<string> {
    set id | id in s.live && id in s.sessions && s.sessions[id].profile == owner && !ExpiredAt(cfg, s.sessions[id], now)
  }

  // --------------------------------------------------------- first stretches

  function Suspend(s: State, k: nat, op: Op): (State, Reply) { (s.(ops := s.ops[k := op]), Suspended) }

  /** The checks of a page action, in the order of the code. */
  function ActionCheck(session: Session, request: Request): Option<Error>
    requires request.Act?
  {
    match request.action
    case Snapshot => None
    case Navigate => if request.urlAllowed then None else Some(UrlRejected)
    case Click => if request.complete then None else Some(BadArguments)
    case TypeText => None
    case Evaluate => if session.allowEvaluate && request.canEvaluate then None else Some(EvaluateDisabled)
  }

  function Begin(cfg: Config, s: State, k: nat, owner: string, request: Request, now: int): (State, Reply) {
    match request
    case CreateSession =>
      if !cfg.enabled then (s, Failed(Disabled)) else Suspend(s, k, CreateWait(owner, now))
    case GetSession(id) =>
      (match Lookup(cfg, s, owner, id, now)
       case Some(e) => (s, Failed(e))
       case None => (s, Done(id)))
    case DeleteSession(id) =>
      (match Lookup(cfg, s, owner, id, now)
       case Some(e) => (s, Failed(e))
       case None => Suspend(s, k, ReleaseWait(id, [])))
    case CreateTab(id, url, urlAllowed) =>
      (match Lookup(cfg, s, owner, id, now)
       case Some(e) => (s, Failed(e))
       case None =>
         if url.Some? && !urlAllowed then (s, Failed(UrlRejected)) else Suspend(s, k, TabWait(id, url, now)))
    case DeleteTab(id, tab) =>
      (match LookupTab(cfg, s, owner, id, tab, now)
       case Some(e) => (s, Failed(e))
       case None => Suspend(s, k, CloseCall(id, tab)))
    case Act(id, tab, action, _, _, _) =>
      (match LookupTab(cfg, s, owner, id, tab, now)
       case Some(e) => (s, Failed(e))
       case None =>
         match ActionCheck(s.sessions[id], request)
         case Some(e) => (s, Failed(e))
         case None => Suspend(s, k, ActCall(id, tab, action, now)))
  }

  // --------------------------------------------------------- later stretches

  function End(s: State, k: nat): State { s.(ops := s.ops - {k}) }

  function Put(s: State, id: string, session: Session): State { s.(sessions := s.sessions[id := session]) }

  function NewSession(cfg: Config, owner: string, handle: string, evaluate: bool, now: int): Session {
    Session(owner, handle, evaluate, map[], now, now, false)
  }

  /** The service lock is held while the provider makes a session. */
  function ResumeCreate(cfg: Config, evaluate: bool, s: State, k: nat, op: Op, answer: Answer, newId: string): (State, Reply)
    requires op.CreateWait? || op.CreateCall?
  {
    if op.CreateWait? then
      if |Active(cfg, s, op.owner, op.now)| >= cfg.maxSessions then (End(s, k), Failed(SessionLimit))
      else Suspend(s.(locked := true), k, CreateCall(op.owner, op.now))
    else
      var t := End(s, k).(locked := false);
      match answer
      case Refused(status) => (t, Failed(ProviderFailed(status)))
      case Accepted(handle, _, _) =>
        (Put(t, newId, NewSession(cfg, op.owner, handle, evaluate, op.now)).(live := t.live + {newId}), Done(newId))
  }

  function OrElse(x: Option<string>, y: Option<string>): Option<string> { if x.Some? then x else y }

  /** The session's lock is held while the provider opens a tab. */
  function ResumeTab(cfg: Config, s: State, k: nat, op: Op, answer: Answer, newId: string): (State, Reply)
    requires (op.TabWait? || op.TabCall?) && op.id in s.sessions
  {
    var session := s.sessions[op.id];
    if op.TabWait? then
      if |session.tabs| >= cfg.maxTabs then (End(s, k), Failed(TabLimit))
      else Suspend(Put(s, op.id, session.(locked := true)), k, TabCall(op.id, op.url, op.now))
    else
      match answer
      case Refused(status) => (End(Put(s, op.id, session.(locked := false)), k), Failed(ProviderFailed(status)))
      case Accepted(handle, url, title) =>
        var tab := Tab(handle, OrElse(url, op.url), title, op.now);
        (End(Put(s, op.id, session.(tabs := session.tabs[newId := tab], lastActivity := op.now, locked := false)), k),
         Done(newId))
  }

  /** A tab that is already gone upstream is closed all the same. */
  function ResumeClose(s: State, k: nat, op: Op, answer: Answer, now: int): (State, Reply)
    requires (op.CloseCall? || op.CloseWait?) && op.id in s.sessions
  {
    if op.CloseCall? then
      if answer.Refused? && answer.status != 404 then (End(s, k), Failed(ProviderFailed(answer.status)))
      else Suspend(s, k, CloseWait(op.id, op.tab))
    else
      var session := s.sessions[op.id];
      (End(Put(s, op.id, session.(tabs := session.tabs - {op.tab}, lastActivity := now)), k), Done(op.tab))
  }

  /** The tab record takes over what the provider reports; a tab deleted in the meantime is
      no longer listed. */
  function Updated(session: Session, op: Op, answer: Answer): map<string, Tab>
    requires op.ActCall? && answer.Accepted?
  {
    if op.tab !in session.tabs || op.action.Evaluate? then session.tabs
    else
      var tab := session.tabs[op.tab];
      var titled := if op.action.Click? || op.action.TypeText? then tab else tab.(title := OrElse(answer.title, tab.title));
      session.tabs[op.tab := titled.(url := OrElse(answer.url, tab.url))]
  }

  /** A snapshot counts as activity at the time it began, the other actions at their end. */
  function ResumeAct(s: State, k: nat, op: Op, answer: Answer, now: int): (State, Reply)
    requires op.ActCall? && op.id in s.sessions
  {
    match answer
    case Refused(status) => (End(s, k), Failed(ProviderFailed(status)))
    case Accepted(_, _, _) =>
      var session := s.sessions[op.id];
      var touched := if op.action.Snapshot? then op.now else now;
      (End(Put(s, op.id, session.(tabs := Updated(session, op, answer), lastActivity := touched)), k), Done(op.tab))
  }

  /** Upstream refusals are ignored; afterwards the session leaves the registry and the
      next one of the list is released. */
  function ResumeRelease(s: State, k: nat, op: Op): (State, Reply)
    requires (op.ReleaseWait? || op.ReleaseCall? || op.ReleasePop?) && op.id in s.sessions
  {
    var session := s.sessions[op.id];
    if op.ReleaseWait? then Suspend(Put(s, op.id, session.(locked := true)), k, ReleaseCall(op.id, op.rest))
    else if op.ReleaseCall? then Suspend(Put(s, op.id, session.(locked := false)), k, ReleasePop(op.id, op.rest))
    else
      var t := s.(live := s.live - {op.id});
      if op.rest == [] then (End(t, k), Done(op.id))
      else Suspend(t, k, ReleaseWait(op.rest[0], op.rest[1..]))
  }

  /** Those of the listed sessions that are registered and expired. */
  function ExpiredOnes(cfg: Config, s: State, now: int, order: seq<string>): (r: seq<string>)
    ensures forall id :: id in r ==> id in s.sessions
  {
    if order == [] then []
    else (if order[0] in s.live && order[0] in s.sessions && ExpiredAt(cfg, s.sessions[order[0]], now)
          then [order[0]] else [])
         + ExpiredOnes(cfg, s, now, order[1..])
  }

  function ResumeSweep(cfg: Config, s: State, k: nat, op: Op, order: seq<string>): (State, Reply)
    requires op.SweepWait?
  {
    var expired := ExpiredOnes(cfg, s, op.now, order);
    if expired == [] then (End(s, k), Done("0")) else Suspend(s, k, ReleaseWait(expired[0], expired[1..]))
  }

  // ------------------------------------------------------------------- steps

  predicate Uses(op: Op, id: string) {
    match op
    case CreateWait(_, _) => false
    case CreateCall(_, _) => false
    case SweepWait(_) => false
    case TabWait(i, _, _) => i == id
    case TabCall(i, _, _) => i == id
    case CloseCall(i, _) => i == id
    case CloseWait(i, _) => i == id
    case ActCall(i, _, _, _) => i == id
    case ReleaseWait(i, rest) => i == id || id in rest
    case ReleaseCall(i, rest) => i == id || id in rest
    case ReleasePop(i, rest) => i == id || id in rest
  }

  /** The session objects that registered identifiers and suspended operations refer to. */
  ghost predicate Known(s: State) {
    && (forall id :: id in s.live ==> id in s.sessions)
    && (forall k, id :: k in s.ops && Uses(s.ops[k], id) ==> id in s.sessions)
  }

  /** The lock that the operation waits for is free. */
  predicate Ready(s: State, op: Op) {
    match op
    case CreateWait(_, _) => !s.locked
    case ReleasePop(_, _) => !s.locked
    case TabWait(id, _, _) => id in s.sessions && !s.sessions[id].locked
    case CloseWait(id, _) => id in s.sessions && !s.sessions[id].locked
    case ReleaseWait(id, _) => id in s.sessions && !s.sessions[id].locked
    case SweepWait(_) => false
    case _ => true
  }

  /** Identifiers are random and taken to be new. */
  predicate Fresh(s: State, id: string) {
    id !in s.sessions && forall x :: x in s.sessions ==> id !in s.sessions[x].tabs
  }

  predicate Enabled(s: State, e: Event) {
    match e
    case Start(k, _, _, _) => k !in s.ops
    case Sweep(k, _) => k !in s.ops
    case Scan(k, order) => k in s.ops && s.ops[k].SweepWait? && !s.locked && forall id :: id in s.live ==> id in order
    case Resume(k, _, _, newId) => k in s.ops && Ready(s, s.ops[k]) && Fresh(s, newId)
  }

  /** `evaluate` is the evaluation policy that new sessions get. */
  function Step(cfg: Config, evaluate: bool, s: State, e: Event): (State, Reply)
    requires Known(s) && Enabled(s, e)
  {
    match e
    case Start(k, profile, request, now) => Begin(cfg, s, k, profile, request, now)
    case Sweep(k, now) => Suspend(s, k, SweepWait(now))
    case Scan(k, order) => ResumeSweep(cfg, s, k, s.ops[k], order)
    case Resume(k, answer, now, newId) =>
      var op := s.ops[k];
      if op.CreateWait? || op.CreateCall? then ResumeCreate(cfg, evaluate, s, k, op, answer, newId)
      else
        assert Uses(op, op.id);
        if op.TabWait? || op.TabCall? then ResumeTab(cfg, s, k, op, answer, newId)
        else if op.CloseCall? || op.CloseWait? then ResumeClose(s, k, op, answer, now)
        else if op.ActCall? then ResumeAct(s, k, op, answer, now)
        else ResumeRelease(s, k, op)
  }
}
