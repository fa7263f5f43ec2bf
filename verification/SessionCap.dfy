/** The cap on a profile's unexpired sessions (app/browser/service.py).  An operation that
    ends after its session has expired revives it, because ending counts as activity; a
    run stays within the cap exactly when that never happens to a profile that is full. */
module SessionCap {
  import opened Sequences
  import opened SessionModel
  import SessionSafety

  /** The time after an event that comes at or after `clock`. */
  function TimeOf(e: Event, clock: int): int {
    match e
    case Start(_, _, _, now) => now
    case Sweep(_, now) => now
    case Scan(_, _) => clock
    case Resume(_, _, now, _) => now
  }

  /** The time of activity that the stretch gives to its session, if it gives one. */
  function Touch(s: State, e: Event): Option<int> {
    if !e.Resume? || e.op !in s.ops then None
    else match s.ops[e.op]
      case TabCall(_, _, now) => if e.answer.Accepted? then Some(now) else None
      case CloseWait(_, _) => Some(e.now)
      case ActCall(_, _, action, now) =>
        if e.answer.Refused? then None else Some(if action.Snapshot? then now else e.now)
      case _ => None
  }

  /** A session is being made for the profile. */
  ghost predicate Creating(s: State, p: string) {
    exists k :: k in s.ops && s.ops[k].CreateCall? && s.ops[k].owner == p
  }

  /** The unexpired sessions of the profile, with the one being made, fill its cap. */
  ghost predicate Full(cfg: Config, s: State, p: string, now: int) {
    |Active(cfg, s, p, now)| + (if Creating(s, p) then 1 else 0) >= Max(0, cfg.maxSessions)
  }

  /** The stretch ends an operation on a registered session that has expired, makes it
      unexpired again, and its profile is full. */
  ghost predicate Overflows(cfg: Config, s: State, e: Event) {
    Touch(s, e).Some? &&
    var id := s.ops[e.op].id;
    && id in s.live && id in s.sessions && ExpiredAt(cfg, s.sessions[id], e.now)
    && e.now < Touch(s, e).value + cfg.ttl
    && Full(cfg, s, s.sessions[id].profile, e.now)
  }

  /** Times remembered by operations are past. */
  predicate Remembers(s: State, k: nat, clock: int)
    requires k in s.ops
  {
    match s.ops[k]
    case CreateWait(_, now) => now <= clock
    case CreateCall(_, now) => now <= clock && s.locked
    case _ => true
  }

  /** While the provider makes a session for a profile, the profile has room for it. */
  ghost predicate RoomKept(cfg: Config, s: State, clock: int) {
    forall k :: k in s.ops && s.ops[k].CreateCall? ==> |Active(cfg, s, s.ops[k].owner, clock)| < cfg.maxSessions
  }

  ghost predicate Capped(cfg: Config, s: State, clock: int) {
    forall p :: |Active(cfg, s, p, clock)| <= Max(0, cfg.maxSessions)
  }

  ghost predicate OneCreator(s: State) {
    forall j, k :: j in s.ops && k in s.ops && s.ops[j].CreateCall? && s.ops[k].CreateCall? ==> j == k
  }

  /** At most the allowed number of unexpired sessions, counting one that is being made. */
  ghost predicate Within(cfg: Config, s: State, clock: int) { RoomKept(cfg, s, clock) && Capped(cfg, s, clock) }

  ghost predicate Clocked(s: State, clock: int) {
    (forall k :: k in s.ops ==> Remembers(s, k, clock)) && OneCreator(s)
  }

  ghost predicate CapInv(cfg: Config, s: State, clock: int) { Clocked(s, clock) && Within(cfg, s, clock) }

  // ---------------------------------------------------------------- counting

  lemma SubsetSize<T>(a: set<T>, b: set<T>)
    requires a <= b
    ensures |a| <= |b|
  {
    assert b == a + (b - a);
  }

  /** Later, and without revival, no session becomes active. */
  ghost predicate NoneRevived(cfg: Config, s: State, clock: int, t: State, now: int) {
    forall p :: Active(cfg, t, p, now) <= Active(cfg, s, p, clock)
  }

  /** A stretch that revives none keeps the cap and the room. */
  lemma KeepsCap(cfg: Config, s: State, clock: int, t: State, now: int)
    requires CapInv(cfg, s, clock) && clock <= now && NoneRevived(cfg, s, clock, t, now)
    requires forall k :: k in t.ops && t.ops[k].CreateCall? ==> k in s.ops && s.ops[k] == t.ops[k]
    requires forall k :: k in t.ops ==> Remembers(t, k, now)
    ensures CapInv(cfg, t, now)
  {
    forall p
      ensures |Active(cfg, t, p, now)| <= Max(0, cfg.maxSessions)
      ensures |Active(cfg, t, p, now)| <= |Active(cfg, s, p, clock)|
    {
      SubsetSize(Active(cfg, t, p, now), Active(cfg, s, p, clock));
    }
  }

  lemma LaterIsFewer(cfg: Config, s: State, clock: int, t: State, now: int)
    requires clock <= now && t.sessions == s.sessions && t.live <= s.live
    ensures NoneRevived(cfg, s, clock, t, now)
  {
  }

  /** The stretch makes a registered session that has expired unexpired again. */
  predicate Revives(cfg: Config, s: State, e: Event) {
    Touch(s, e).Some? &&
    var id := s.ops[e.op].id;
    id in s.live && id in s.sessions && ExpiredAt(cfg, s.sessions[id], e.now) && e.now < Touch(s, e).value + cfg.ttl
  }

  /** Replacing a session revives none, unless it was registered and expired and no longer
      is. */
  lemma ReplacedNoneRevived(cfg: Config, s: State, clock: int, id: string, session: Session, t: State, now: int)
    requires clock <= now && id in s.sessions && session.profile == s.sessions[id].profile
    requires id !in s.live || !ExpiredAt(cfg, s.sessions[id], now) || ExpiredAt(cfg, session, now)
    requires t.sessions == s.sessions[id := session] && t.live == s.live
    ensures NoneRevived(cfg, s, clock, t, now)
  {
  }

  // -------------------------------------------------------------- each event

  lemma BeginCap(cfg: Config, s: State, clock: int, k: nat, owner: string, request: Request, now: int)
    requires CapInv(cfg, s, clock) && clock <= now && k !in s.ops
    ensures CapInv(cfg, Begin(cfg, s, k, owner, request, now).0, now)
  {
    var t := Begin(cfg, s, k, owner, request, now).0;
    LaterIsFewer(cfg, s, clock, t, now);
    forall j | j in t.ops
      ensures Remembers(t, j, now)
    {
      assert j != k ==> Remembers(s, j, clock);
    }
    KeepsCap(cfg, s, clock, t, now);
  }

  /** With the service lock free nobody is creating a session. */
  lemma NoCreator(cfg: Config, s: State, clock: int)
    requires CapInv(cfg, s, clock) && !s.locked
    ensures forall k :: k in s.ops ==> !s.ops[k].CreateCall?
  {
    forall k | k in s.ops
      ensures !s.ops[k].CreateCall?
    {
      assert Remembers(s, k, clock);
    }
  }

  lemma CreateWaitCap(cfg: Config, evaluate: bool, s: State, clock: int, k: nat, answer: Answer, now: int, newId: string)
    requires CapInv(cfg, s, clock) && clock <= now && k in s.ops && s.ops[k].CreateWait? && !s.locked
    ensures CapInv(cfg, ResumeCreate(cfg, evaluate, s, k, s.ops[k], answer, newId).0, now)
  {
    var op := s.ops[k];
    var t := ResumeCreate(cfg, evaluate, s, k, op, answer, newId).0;
    NoCreator(cfg, s, clock);
    LaterIsFewer(cfg, s, clock, s, now);
    assert Remembers(s, k, clock);
    LaterIsFewer(cfg, s, op.now, s, now);
    forall j | j in s.ops
      ensures Remembers(s, j, now)
    {
      assert Remembers(s, j, clock);
    }
    KeepsCap(cfg, s, clock, s, now);
    SubsetSize(Active(cfg, s, op.owner, now), Active(cfg, s, op.owner, op.now));
    assert forall p :: Active(cfg, t, p, now) == Active(cfg, s, p, now);
    forall j | j in t.ops
      ensures Remembers(t, j, now)
    {
      assert j != k ==> Remembers(s, j, now);
    }
  }

  lemma CreateCallCap(cfg: Config, evaluate: bool, s: State, clock: int, k: nat, answer: Answer, now: int, newId: string)
    requires CapInv(cfg, s, clock) && clock <= now && k in s.ops && s.ops[k].CreateCall? && Fresh(s, newId)
    ensures CapInv(cfg, ResumeCreate(cfg, evaluate, s, k, s.ops[k], answer, newId).0, now)
  {
    var op := s.ops[k];
    var t := ResumeCreate(cfg, evaluate, s, k, op, answer, newId).0;
    LaterIsFewer(cfg, s, clock, s, now);
    forall p
      ensures |Active(cfg, t, p, now)| <= Max(0, cfg.maxSessions)
    {
      SubsetSize(Active(cfg, s, p, now), Active(cfg, s, p, clock));
      var more := Active(cfg, s, p, now) + if p == op.owner then {newId} else {};
      assert Active(cfg, t, p, now) <= more;
      SubsetSize(Active(cfg, t, p, now), more);
    }
    forall j | j in t.ops
      ensures Remembers(t, j, now) && !t.ops[j].CreateCall?
    {
      assert Remembers(s, j, clock);
    }
  }

  /** A stretch of any other operation ends it or moves it on. */
  lemma OtherCap(cfg: Config, s: State, clock: int, k: nat, t: State, now: int)
    requires CapInv(cfg, s, clock) && clock <= now && k in s.ops && NoneRevived(cfg, s, clock, t, now)
    requires t.locked == s.locked && t.ops - {k} == s.ops - {k}
    requires k in t.ops ==> !t.ops[k].CreateCall? && !t.ops[k].CreateWait?
    ensures CapInv(cfg, t, now)
  {
    forall j | j in t.ops
      ensures Remembers(t, j, now)
      ensures t.ops[j].CreateCall? ==> j in s.ops && s.ops[j] == t.ops[j]
    {
      if j != k {
        assert j in t.ops - {k} && (t.ops - {k})[j] == (s.ops - {k})[j];
        assert Remembers(s, j, clock);
      }
    }
    KeepsCap(cfg, s, clock, t, now);
  }

  lemma OpenTabCap(cfg: Config, s: State, clock: int, k: nat, answer: Answer, now: int, newId: string)
    requires CapInv(cfg, s, clock) && clock <= now && k in s.ops && (s.ops[k].TabWait? || s.ops[k].TabCall?)
    requires s.ops[k].id in s.sessions && !Revives(cfg, s, Resume(k, answer, now, newId))
    ensures CapInv(cfg, ResumeTab(cfg, s, k, s.ops[k], answer, newId).0, now)
  {
    var op := s.ops[k];
    var t := ResumeTab(cfg, s, k, op, answer, newId).0;
    if t.sessions == s.sessions {
      LaterIsFewer(cfg, s, clock, t, now);
    } else {
      ReplacedNoneRevived(cfg, s, clock, op.id, t.sessions[op.id], t, now);
    }
    OtherCap(cfg, s, clock, k, t, now);
  }

  lemma CloseCap(cfg: Config, s: State, clock: int, k: nat, answer: Answer, now: int, newId: string)
    requires CapInv(cfg, s, clock) && clock <= now && k in s.ops && (s.ops[k].CloseCall? || s.ops[k].CloseWait?)
    requires s.ops[k].id in s.sessions && !Revives(cfg, s, Resume(k, answer, now, newId))
    ensures CapInv(cfg, ResumeClose(s, k, s.ops[k], answer, now).0, now)
  {
    var op := s.ops[k];
    var t := ResumeClose(s, k, op, answer, now).0;
    if op.CloseCall? {
      LaterIsFewer(cfg, s, clock, t, now);
    } else {
      ReplacedNoneRevived(cfg, s, clock, op.id, t.sessions[op.id], t, now);
    }
    OtherCap(cfg, s, clock, k, t, now);
  }

  lemma ActCap(cfg: Config, s: State, clock: int, k: nat, answer: Answer, now: int, newId: string)
    requires CapInv(cfg, s, clock) && clock <= now && k in s.ops && s.ops[k].ActCall?
    requires s.ops[k].id in s.sessions && !Revives(cfg, s, Resume(k, answer, now, newId))
    ensures CapInv(cfg, ResumeAct(s, k, s.ops[k], answer, now).0, now)
  {
    var op := s.ops[k];
    var t := ResumeAct(s, k, op, answer, now).0;
    if answer.Refused? {
      LaterIsFewer(cfg, s, clock, t, now);
    } else {
      ReplacedNoneRevived(cfg, s, clock, op.id, t.sessions[op.id], t, now);
    }
    OtherCap(cfg, s, clock, k, t, now);
  }

  lemma ReleaseCap(cfg: Config, s: State, clock: int, k: nat, now: int)
    requires CapInv(cfg, s, clock) && clock <= now && k in s.ops
    requires s.ops[k].ReleaseWait? || s.ops[k].ReleaseCall? || s.ops[k].ReleasePop?
    requires s.ops[k].id in s.sessions
    ensures CapInv(cfg, ResumeRelease(s, k, s.ops[k]).0, now)
  {
    var op := s.ops[k];
    var t := ResumeRelease(s, k, op).0;
    if op.ReleasePop? {
      LaterIsFewer(cfg, s, clock, t, now);
    } else {
      ReplacedNoneRevived(cfg, s, clock, op.id, t.sessions[op.id], t, now);
    }
    OtherCap(cfg, s, clock, k, t, now);
  }

  lemma SweepCap(cfg: Config, s: State, clock: int, e: Event)
    requires CapInv(cfg, s, clock) && Known(s) && Enabled(s, e) && (e.Sweep? || e.Scan?) && clock <= TimeOf(e, clock)
    ensures forall evaluate :: CapInv(cfg, Step(cfg, evaluate, s, e).0, TimeOf(e, clock))
  {
    forall evaluate: bool
      ensures CapInv(cfg, Step(cfg, evaluate, s, e).0, TimeOf(e, clock))
    {
      var t, now := Step(cfg, evaluate, s, e).0, TimeOf(e, clock);
      LaterIsFewer(cfg, s, clock, t, now);
      forall j | j in t.ops
        ensures Remembers(t, j, now)
      {
        assert j != e.op ==> Remembers(s, j, clock);
      }
      KeepsCap(cfg, s, clock, t, now);
    }
  }

  /** A stretch that revives no session keeps the cap. */
  lemma StepCap(cfg: Config, evaluate: bool, s: State, clock: int, e: Event)
    requires CapInv(cfg, s, clock) && Known(s) && Enabled(s, e)
    requires clock <= TimeOf(e, clock) && !Revives(cfg, s, e)
    ensures CapInv(cfg, Step(cfg, evaluate, s, e).0, TimeOf(e, clock))
  {
    match e
    case Start(k, profile, request, now) => BeginCap(cfg, s, clock, k, profile, request, now);
    case Sweep(_, _) => SweepCap(cfg, s, clock, e);
    case Scan(_, _) => SweepCap(cfg, s, clock, e);
    case Resume(k, answer, now, newId) =>
      var op := s.ops[k];
      if op.CreateWait? {
        CreateWaitCap(cfg, evaluate, s, clock, k, answer, now, newId);
      } else if op.CreateCall? {
        CreateCallCap(cfg, evaluate, s, clock, k, answer, now, newId);
      } else {
        assert Uses(op, op.id);
        if op.TabWait? || op.TabCall? {
          OpenTabCap(cfg, s, clock, k, answer, now, newId);
        } else if op.CloseCall? || op.CloseWait? {
          CloseCap(cfg, s, clock, k, answer, now, newId);
        } else if op.ActCall? {
          ActCap(cfg, s, clock, k, answer, now, newId);
        } else {
          ReleaseCap(cfg, s, clock, k, now);
        }
      }
  }

  // ----------------------------------------------------------------- revival

  /** What a touching stretch leaves: its session with the new activity, its operation
      gone. */
  lemma TouchIs(cfg: Config, evaluate: bool, s: State, e: Event)
    requires Known(s) && Enabled(s, e) && Touch(s, e).Some?
    ensures var id := s.ops[e.op].id;
      var t := Step(cfg, evaluate, s, e).0;
      && id in s.sessions && t.sessions.Keys == s.sessions.Keys
      && t.sessions[id].profile == s.sessions[id].profile && t.sessions[id].lastActivity == Touch(s, e).value
      && (forall x :: x in s.sessions && x != id ==> t.sessions[x] == s.sessions[x])
      && t.live == s.live && t.locked == s.locked && t.ops == s.ops - {e.op}
  {
    assert Uses(s.ops[e.op], s.ops[e.op].id);
  }

  /** A revival adds one unexpired session to its profile and to no other. */
  lemma RevivalAdds(cfg: Config, evaluate: bool, s: State, e: Event)
    requires Known(s) && Enabled(s, e) && Revives(cfg, s, e)
    ensures var id := s.ops[e.op].id;
      var t := Step(cfg, evaluate, s, e).0;
      && id !in Active(cfg, s, s.sessions[id].profile, e.now)
      && (forall p :: Active(cfg, t, p, e.now)
            == Active(cfg, s, p, e.now) + if p == s.sessions[id].profile then {id} else {})
  {
    TouchIs(cfg, evaluate, s, e);
  }

  /** Every operation but the one that ends goes on as it was. */
  lemma RevivalClocked(cfg: Config, evaluate: bool, s: State, clock: int, e: Event)
    requires Clocked(s, clock) && Known(s) && Enabled(s, e) && Touch(s, e).Some? && clock <= e.now
    ensures Clocked(Step(cfg, evaluate, s, e).0, e.now)
    ensures forall p :: Creating(Step(cfg, evaluate, s, e).0, p) <==> Creating(s, p)
  {
    TouchIs(cfg, evaluate, s, e);
    var t := Step(cfg, evaluate, s, e).0;
    forall k | k in t.ops
      ensures Remembers(t, k, e.now)
    {
      assert Remembers(s, k, clock);
    }
    forall p
      ensures Creating(t, p) <==> Creating(s, p)
    {
      if Creating(s, p) {
        var k :| k in s.ops && s.ops[k].CreateCall? && s.ops[k].owner == p;
        assert k in t.ops;
      }
    }
  }

  /** Nothing but time has passed. */
  lemma WithinLater(cfg: Config, s: State, clock: int, now: int)
    requires Within(cfg, s, clock) && clock <= now
    ensures Within(cfg, s, now)
  {
    forall p
      ensures |Active(cfg, s, p, now)| <= |Active(cfg, s, p, clock)|
    {
      SubsetSize(Active(cfg, s, p, now), Active(cfg, s, p, clock));
    }
  }

  /** The cap of one profile, with the session being made. */
  ghost predicate WithinFor(cfg: Config, s: State, p: string, now: int) {
    |Active(cfg, s, p, now)| + (if Creating(s, p) then 1 else 0) <= Max(0, cfg.maxSessions)
  }

  lemma WithinIsForAll(cfg: Config, s: State, now: int)
    ensures Within(cfg, s, now) <==> forall p :: WithinFor(cfg, s, p, now)
  {
    if Within(cfg, s, now) {
      forall p
        ensures WithinFor(cfg, s, p, now)
      {
        if Creating(s, p) {
          var k :| k in s.ops && s.ops[k].CreateCall? && s.ops[k].owner == p;
        }
      }
    }
    if forall p :: WithinFor(cfg, s, p, now) {
      forall p
        ensures |Active(cfg, s, p, now)| <= Max(0, cfg.maxSessions)
        ensures Creating(s, p) ==> |Active(cfg, s, p, now)| < cfg.maxSessions
      {
        assert WithinFor(cfg, s, p, now);
      }
      forall k | k in s.ops && s.ops[k].CreateCall?
        ensures |Active(cfg, s, s.ops[k].owner, now)| < cfg.maxSessions
      {
        assert Creating(s, s.ops[k].owner);
      }
    }
  }

  /** From a state within the cap, a revival leaves it exactly when the profile is full. */
  lemma RevivalIff(cfg: Config, evaluate: bool, s: State, clock: int, e: Event)
    requires CapInv(cfg, s, clock) && Known(s) && Enabled(s, e) && Revives(cfg, s, e) && clock <= e.now
    ensures Clocked(Step(cfg, evaluate, s, e).0, e.now)
    ensures Within(cfg, Step(cfg, evaluate, s, e).0, e.now) <==> !Overflows(cfg, s, e)
  {
    var t := Step(cfg, evaluate, s, e).0;
    var owner := s.sessions[s.ops[e.op].id].profile;
    WithinLater(cfg, s, clock, e.now);
    WithinIsForAll(cfg, s, e.now);
    WithinIsForAll(cfg, t, e.now);
    RevivalAdds(cfg, evaluate, s, e);
    RevivalClocked(cfg, evaluate, s, clock, e);
    assert WithinFor(cfg, s, owner, e.now);
    forall p | p != owner
      ensures WithinFor(cfg, t, p, e.now)
    {
      assert WithinFor(cfg, s, p, e.now);
    }
    assert |Active(cfg, t, owner, e.now)| == |Active(cfg, s, owner, e.now)| + 1;
  }

  /** From a state within the cap, a stretch leaves it exactly when it overflows. */
  lemma StepIff(cfg: Config, evaluate: bool, s: State, clock: int, e: Event)
    requires CapInv(cfg, s, clock) && Known(s) && Enabled(s, e) && clock <= TimeOf(e, clock)
    ensures var t := Step(cfg, evaluate, s, e).0;
      && Clocked(t, TimeOf(e, clock))
      && (Within(cfg, t, TimeOf(e, clock)) <==> !Overflows(cfg, s, e))
  {
    if Revives(cfg, s, e) {
      RevivalIff(cfg, evaluate, s, clock, e);
    } else {
      StepCap(cfg, evaluate, s, clock, e);
    }
  }

  // -------------------------------------------------------------------- runs

  /** A run along a clock that does not go back. */
  ghost predicate ClockRun(cfg: Config, evaluate: bool, s: State, clock: int, es: seq<Event>)
    decreases |es|
  {
    es == [] ||
      (Known(s) && Enabled(s, es[0]) && clock <= TimeOf(es[0], clock)
       && ClockRun(cfg, evaluate, Step(cfg, evaluate, s, es[0]).0, TimeOf(es[0], clock), es[1..]))
  }

  /** In every state of the run, every profile is within its cap. */
  ghost predicate AlwaysWithin(cfg: Config, evaluate: bool, s: State, clock: int, es: seq<Event>)
    requires ClockRun(cfg, evaluate, s, clock, es)
    decreases |es|
  {
    Within(cfg, s, clock) &&
      (es == [] || AlwaysWithin(cfg, evaluate, Step(cfg, evaluate, s, es[0]).0, TimeOf(es[0], clock), es[1..]))
  }

  ghost predicate NeverOverflows(cfg: Config, evaluate: bool, s: State, clock: int, es: seq<Event>)
    requires ClockRun(cfg, evaluate, s, clock, es)
    decreases |es|
  {
    es == [] ||
      (!Overflows(cfg, s, es[0])
       && NeverOverflows(cfg, evaluate, Step(cfg, evaluate, s, es[0]).0, TimeOf(es[0], clock), es[1..]))
  }

  lemma {:induction false} RunIff(cfg: Config, evaluate: bool, s: State, clock: int, es: seq<Event>)
    requires CapInv(cfg, s, clock) && ClockRun(cfg, evaluate, s, clock, es)
    ensures AlwaysWithin(cfg, evaluate, s, clock, es) <==> NeverOverflows(cfg, evaluate, s, clock, es)
    decreases |es|
  {
    if es != [] {
      var t, now := Step(cfg, evaluate, s, es[0]).0, TimeOf(es[0], clock);
      StepIff(cfg, evaluate, s, clock, es[0]);
      if Within(cfg, t, now) {
        RunIff(cfg, evaluate, t, now, es[1..]);
      } else {
        NotWithin(cfg, evaluate, t, now, es[1..]);
      }
    }
  }

  lemma NotWithin(cfg: Config, evaluate: bool, s: State, clock: int, es: seq<Event>)
    requires ClockRun(cfg, evaluate, s, clock, es) && !Within(cfg, s, clock)
    ensures !AlwaysWithin(cfg, evaluate, s, clock, es)
  {
  }

  lemma InitCap(cfg: Config, clock: int)
    ensures CapInv(cfg, Init(), clock)
  {
    forall q
      ensures Active(cfg, Init(), q, clock) == {}
    {
    }
  }

  /** Over any interleaving of operations from the start, every profile stays within its cap
      at all times, counting a session being made, exactly when no operation ends on an
      expired session of a full profile so as to revive it. */
  lemma SessionCapIff(cfg: Config, evaluate: bool, clock: int, es: seq<Event>)
    requires ClockRun(cfg, evaluate, Init(), clock, es)
    ensures AlwaysWithin(cfg, evaluate, Init(), clock, es) <==> NeverOverflows(cfg, evaluate, Init(), clock, es)
  {
    InitCap(cfg, clock);
    RunIff(cfg, evaluate, Init(), clock, es);
  }

  // ------------------------------------------------------- atomic operations

  /** An operation begins only when none is suspended, and goes on at once. */
  predicate AtOnce(s: State, clock: int, e: Event) {
    if s.ops == map[] then e.Start? || e.Sweep?
    else (e.Resume? || e.Scan?) && e.op in s.ops && TimeOf(e, clock) == clock
  }

  /** In the run every operation takes no time and is not interrupted. */
  ghost predicate Atomic(cfg: Config, evaluate: bool, s: State, clock: int, es: seq<Event>)
    requires ClockRun(cfg, evaluate, s, clock, es)
    decreases |es|
  {
    es == [] ||
      (AtOnce(s, clock, es[0])
       && Atomic(cfg, evaluate, Step(cfg, evaluate, s, es[0]).0, TimeOf(es[0], clock), es[1..]))
  }

  /** The session an operation will touch is registered and not expired. */
  predicate InTime(cfg: Config, s: State, clock: int, op: Op) {
    match op
    case CreateWait(_, _) => true
    case CreateCall(_, _) => true
    case SweepWait(_) => true
    case ReleaseWait(_, _) => true
    case ReleaseCall(_, _) => true
    case ReleasePop(_, _) => true
    case _ => op.id in s.live && op.id in s.sessions && !ExpiredAt(cfg, s.sessions[op.id], clock)
  }

  ghost predicate Alone(cfg: Config, s: State, clock: int) {
    && (forall j, k :: j in s.ops && k in s.ops ==> j == k)
    && (forall k :: k in s.ops ==> InTime(cfg, s, clock, s.ops[k]))
  }

  lemma OnlyOp(s: State, k: nat)
    requires k in s.ops && forall j, i :: j in s.ops && i in s.ops ==> j == i
    ensures s.ops - {k} == map[]
    ensures forall op: Op :: s.ops[k := op] == map[k := op]
  {
  }

  lemma BeginAlone(cfg: Config, s: State, k: nat, owner: string, request: Request, now: int)
    requires s.ops == map[]
    ensures Alone(cfg, Begin(cfg, s, k, owner, request, now).0, now)
  {
  }

  lemma ResumeAlone(cfg: Config, evaluate: bool, s: State, e: Event)
    requires e.Resume? && Known(s) && Enabled(s, e) && Alone(cfg, s, e.now)
    ensures Alone(cfg, Step(cfg, evaluate, s, e).0, e.now)
  {
    var op := s.ops[e.op];
    OnlyOp(s, e.op);
    if !op.CreateWait? && !op.CreateCall? {
      assert Uses(op, op.id);
      assert InTime(cfg, s, e.now, op);
    }
  }

  lemma StepAlone(cfg: Config, evaluate: bool, s: State, clock: int, e: Event)
    requires Known(s) && Enabled(s, e) && Alone(cfg, s, clock) && AtOnce(s, clock, e)
    ensures Alone(cfg, Step(cfg, evaluate, s, e).0, TimeOf(e, clock))
    ensures !Overflows(cfg, s, e)
  {
    match e
    case Start(k, profile, request, now) => BeginAlone(cfg, s, k, profile, request, now);
    case Sweep(_, _) =>
    case Scan(k, _) => OnlyOp(s, k);
    case Resume(k, _, _, _) =>
      assert InTime(cfg, s, clock, s.ops[k]);
      ResumeAlone(cfg, evaluate, s, e);
  }

  lemma {:induction false} AtomicNeverOverflows(cfg: Config, evaluate: bool, s: State, clock: int, es: seq<Event>)
    requires Alone(cfg, s, clock) && ClockRun(cfg, evaluate, s, clock, es) && Atomic(cfg, evaluate, s, clock, es)
    ensures NeverOverflows(cfg, evaluate, s, clock, es)
    decreases |es|
  {
    if es != [] {
      StepAlone(cfg, evaluate, s, clock, es[0]);
      AtomicNeverOverflows(cfg, evaluate, Step(cfg, evaluate, s, es[0]).0, TimeOf(es[0], clock), es[1..]);
    }
  }

  /** With operations taken as atomic no profile ever has more unexpired sessions than its
      cap, neither at an event nor at any later time before the next. */
  lemma AtomicCap(cfg: Config, evaluate: bool, clock: int, es: seq<Event>)
    requires ClockRun(cfg, evaluate, Init(), clock, es) && Atomic(cfg, evaluate, Init(), clock, es)
    ensures AlwaysWithin(cfg, evaluate, Init(), clock, es)
    ensures forall p, later :: EndClock(clock, es) <= later ==>
      |Active(cfg, EndState(cfg, evaluate, Init(), clock, es), p, later)| <= Max(0, cfg.maxSessions)
  {
    AtomicNeverOverflows(cfg, evaluate, Init(), clock, es);
    SessionCapIff(cfg, evaluate, clock, es);
    WithinAtEnd(cfg, evaluate, Init(), clock, es);
    forall p, later | EndClock(clock, es) <= later
      ensures |Active(cfg, EndState(cfg, evaluate, Init(), clock, es), p, later)| <= Max(0, cfg.maxSessions)
    {
      CapLasts(cfg, EndState(cfg, evaluate, Init(), clock, es), EndClock(clock, es), p, later);
    }
  }

  function EndClock(clock: int, es: seq<Event>): int
    decreases |es|
  {
    if es == [] then clock else EndClock(TimeOf(es[0], clock), es[1..])
  }

  ghost function EndState(cfg: Config, evaluate: bool, s: State, clock: int, es: seq<Event>): State
    requires ClockRun(cfg, evaluate, s, clock, es)
    decreases |es|
  {
    if es == [] then s else EndState(cfg, evaluate, Step(cfg, evaluate, s, es[0]).0, TimeOf(es[0], clock), es[1..])
  }

  lemma {:induction false} WithinAtEnd(cfg: Config, evaluate: bool, s: State, clock: int, es: seq<Event>)
    requires ClockRun(cfg, evaluate, s, clock, es) && AlwaysWithin(cfg, evaluate, s, clock, es)
    ensures Within(cfg, EndState(cfg, evaluate, s, clock, es), EndClock(clock, es))
    decreases |es|
  {
    if es != [] {
      WithinAtEnd(cfg, evaluate, Step(cfg, evaluate, s, es[0]).0, TimeOf(es[0], clock), es[1..]);
    }
  }

  // ------------------------------------------------------------ no waiting

  /** Locks are held by suspended operations only. */
  ghost predicate LocksHeld(s: State) {
    && (s.locked ==> exists k :: k in s.ops && s.ops[k].CreateCall?)
    && (forall id :: id in s.sessions && s.sessions[id].locked ==> HeldBy(s, id))
  }

  ghost predicate HeldBy(s: State, id: string) { exists k :: k in s.ops && SessionSafety.Holds(s.ops[k], id) }

  /** The lock that the operation needs next is free: it goes on without waiting. */
  lemma AloneIsReady(cfg: Config, s: State, clock: int, k: nat)
    requires Known(s) && Alone(cfg, s, clock) && LocksHeld(s) && k in s.ops
    ensures if s.ops[k].SweepWait? then !s.locked else Ready(s, s.ops[k])
  {
    var op := s.ops[k];
    if op.TabWait? || op.CloseWait? || op.ReleaseWait? {
      assert Uses(op, op.id);
      assert !HeldBy(s, op.id);
    }
  }

  lemma ResumeLocks(cfg: Config, evaluate: bool, s: State, e: Event)
    requires e.Resume? && Known(s) && Enabled(s, e) && Alone(cfg, s, e.now) && LocksHeld(s)
    ensures LocksHeld(Step(cfg, evaluate, s, e).0)
  {
    var op := s.ops[e.op];
    var t := Step(cfg, evaluate, s, e).0;
    OnlyOp(s, e.op);
    assert forall k :: k in s.ops ==> k == e.op;
    if !op.CreateWait? && !op.CreateCall? {
      assert Uses(op, op.id);
    }
    forall id | id in t.sessions && t.sessions[id].locked
      ensures HeldBy(t, id)
    {
      assert id in s.sessions && s.sessions[id].locked ==> HeldBy(s, id);
      assert e.op in t.ops && SessionSafety.Holds(t.ops[e.op], id);
    }
    assert t.locked ==> e.op in t.ops && t.ops[e.op].CreateCall?;
  }

  lemma StepLocks(cfg: Config, evaluate: bool, s: State, clock: int, e: Event)
    requires Known(s) && Enabled(s, e) && Alone(cfg, s, clock) && AtOnce(s, clock, e) && LocksHeld(s)
    ensures LocksHeld(Step(cfg, evaluate, s, e).0)
  {
    var t := Step(cfg, evaluate, s, e).0;
    if e.Resume? {
      ResumeLocks(cfg, evaluate, s, e);
    } else {
      assert s.locked ==> false;
      assert forall id :: id in s.sessions && s.sessions[id].locked ==> !HeldBy(s, id);
      assert t.sessions == s.sessions && t.locked == s.locked;
    }
  }

  lemma {:induction false} AloneNeverWaits(cfg: Config, evaluate: bool, s: State, clock: int, es: seq<Event>, k: nat)
    requires ClockRun(cfg, evaluate, s, clock, es) && Atomic(cfg, evaluate, s, clock, es)
    requires Known(s) && SessionSafety.Inv(cfg, s) && Alone(cfg, s, clock) && LocksHeld(s)
    requires k in EndState(cfg, evaluate, s, clock, es).ops
    ensures var t := EndState(cfg, evaluate, s, clock, es);
      if t.ops[k].SweepWait? then !t.locked else Ready(t, t.ops[k])
    decreases |es|
  {
    if es == [] {
      AloneIsReady(cfg, s, clock, k);
    } else {
      var t := Step(cfg, evaluate, s, es[0]).0;
      SessionSafety.StepInv(cfg, evaluate, s, es[0]);
      StepAlone(cfg, evaluate, s, clock, es[0]);
      StepLocks(cfg, evaluate, s, clock, es[0]);
      AloneNeverWaits(cfg, evaluate, t, TimeOf(es[0], clock), es[1..], k);
    }
  }

  /** In a run of atomic operations none ever waits for a lock. */
  lemma AtomicNeverWaits(cfg: Config, evaluate: bool, clock: int, es: seq<Event>, k: nat)
    requires ClockRun(cfg, evaluate, Init(), clock, es) && Atomic(cfg, evaluate, Init(), clock, es)
    requires k in EndState(cfg, evaluate, Init(), clock, es).ops
    ensures var t := EndState(cfg, evaluate, Init(), clock, es);
      if t.ops[k].SweepWait? then !t.locked else Ready(t, t.ops[k])
  {
    AloneNeverWaits(cfg, evaluate, Init(), clock, es, k);
  }

  /** Time alone keeps every profile within its cap. */
  lemma CapLasts(cfg: Config, s: State, clock: int, p: string, later: int)
    requires Within(cfg, s, clock) && clock <= later
    ensures |Active(cfg, s, p, later)| <= Max(0, cfg.maxSessions)
  {
    WithinLater(cfg, s, clock, later);
  }

  // ------------------------------------------------------ that it does happen

  const ONE := Config(true, 1, 1, 10)
  const OK := Accepted("x", None, None)

  /** A run from `s` that ends with more than one unexpired session of profile p. */
  ghost predicate BreaksCap(s: State, es: seq<Event>) {
    SessionSafety.Runs(ONE, false, s, es)
    && |Active(ONE, SessionSafety.After(ONE, false, s, es), "p", 10)| > ONE.maxSessions
  }

  lemma RunOne(s: State, e: Event, t: State, es: seq<Event>) returns (more: seq<Event>)
    requires Known(s) && Enabled(s, e) && Step(ONE, false, s, e).0 == t && BreaksCap(t, es)
    ensures BreaksCap(s, more)
  {
    more := [e] + es;
    assert more[1..] == es;
  }

  function Made(now: int): Session { NewSession(ONE, "p", "x", false, now) }

  /** The profile makes its only session... */
  function FirstSession(): State { State(map["a" := Made(0)], {"a"}, false, map[]) }

  lemma MakesFirst(es: seq<Event>) returns (more: seq<Event>)
    requires BreaksCap(FirstSession(), es)
    ensures BreaksCap(Init(), more)
  {
    var s1 := State(map[], {}, false, map[0 := CreateWait("p", 0)]);
    var s2 := State(map[], {}, true, map[0 := CreateCall("p", 0)]);
    assert Active(ONE, s1, "p", 0) == {};
    more := RunOne(s2, Resume(0, OK, 0, "a"), FirstSession(), es);
    more := RunOne(s1, Resume(0, OK, 0, "a"), s2, more);
    more := RunOne(Init(), Start(0, "p", CreateSession, 0), s1, more);
  }

  /** ... begins to open a tab just before the session expires... */
  function OpeningTab(): State {
    State(map["a" := Made(0).(locked := true)], {"a"}, false, map[0 := TabCall("a", None, 9)])
  }

  lemma OpensTab(es: seq<Event>) returns (more: seq<Event>)
    requires BreaksCap(OpeningTab(), es)
    ensures BreaksCap(FirstSession(), more)
  {
    var s1 := FirstSession().(ops := map[0 := TabWait("a", None, 9)]);
    more := RunOne(s1, Resume(0, OK, 9, "t"), OpeningTab(), es);
    more := RunOne(FirstSession(), Start(0, "p", CreateTab("a", None, true), 9), s1, more);
  }

  /** ... and makes another session after the expiry. */
  function SecondCall(): State {
    OpeningTab().(ops := map[0 := TabCall("a", None, 9), 1 := CreateCall("p", 10)], locked := true)
  }

  function SecondSession(): State {
    State(map["a" := Made(0).(locked := true), "b" := Made(10)], {"a", "b"}, false, map[0 := TabCall("a", None, 9)])
  }

  lemma CallsSecond(es: seq<Event>) returns (more: seq<Event>)
    requires BreaksCap(SecondCall(), es)
    ensures BreaksCap(OpeningTab(), more)
  {
    var s1 := OpeningTab().(ops := map[0 := TabCall("a", None, 9), 1 := CreateWait("p", 10)]);
    assert Active(ONE, s1, "p", 10) == {};
    more := RunOne(s1, Resume(1, OK, 10, "b"), SecondCall(), es);
    more := RunOne(OpeningTab(), Start(1, "p", CreateSession, 10), s1, more);
  }

  lemma MakesSecond(es: seq<Event>) returns (more: seq<Event>)
    requires BreaksCap(SecondSession(), es)
    ensures BreaksCap(SecondCall(), more)
  {
    more := RunOne(SecondCall(), Resume(1, OK, 10, "b"), SecondSession(), es);
  }

  /** When the tab opens at last, the expired session comes back. */
  lemma ComesBack() returns (more: seq<Event>)
    ensures BreaksCap(SecondSession(), more)
  {
    var last := Resume(0, OK, 10, "t");
    var t := Step(ONE, false, SecondSession(), last).0;
    assert {"a", "b"} <= Active(ONE, t, "p", 10);
    SubsetSize({"a", "b"}, Active(ONE, t, "p", 10));
    more := RunOne(SecondSession(), last, t, []);
  }

  /** Without the condition the cap fails: a profile with a cap of one session can end up
      with two that are not expired. */
  lemma RevivalBreaksCap()
    ensures exists es :: BreaksCap(Init(), es)
  {
    var es := ComesBack();
    es := MakesSecond(es);
    es := CallsSecond(es);
    es := OpensTab(es);
    es := MakesFirst(es);
  }
}
