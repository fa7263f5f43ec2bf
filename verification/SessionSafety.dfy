/** What the interactive browser service keeps in every reachable state: lock exclusion,
    known references and the tab cap (app/browser/service.py). */
module SessionSafety {
  import opened Sequences
  import opened SessionModel

  // ------------------------------------------------------------------- locks

  /** The operation holds the lock of session `id`. */
  predicate Holds(op: Op, id: string) {
    (op.TabCall? || op.ReleaseCall?) && op.id == id
  }

  ghost predicate Exclusive(s: State) {
    && (forall k, id :: k in s.ops && Holds(s.ops[k], id) && id in s.sessions ==> s.sessions[id].locked)
    && (forall j, k, id :: j in s.ops && k in s.ops && Holds(s.ops[j], id) && Holds(s.ops[k], id) ==> j == k)
  }

  /** A tab is being opened only where there is room for it. */
  predicate Room(cfg: Config, s: State, op: Op) {
    op.TabCall? && op.id in s.sessions ==> |s.sessions[op.id].tabs| < cfg.maxTabs
  }

  ghost predicate TabsCapped(cfg: Config, s: State) {
    && (forall id :: id in s.sessions ==> |s.sessions[id].tabs| <= Max(0, cfg.maxTabs))
    && (forall k :: k in s.ops ==> Room(cfg, s, s.ops[k]))
  }

  ghost predicate Inv(cfg: Config, s: State) { Known(s) && Exclusive(s) && TabsCapped(cfg, s) }

  // --------------------------------------------- how stretches change a state

  predicate Locking(op: Op) { op.TabCall? || op.ReleaseCall? }

  /** Operation `k` goes on to another stage, without a lock. */
  lemma SuspendInv(cfg: Config, s: State, k: nat, op: Op)
    requires Inv(cfg, s) && !Locking(op)
    requires forall id :: Uses(op, id) ==> id in s.sessions
    ensures Inv(cfg, s.(ops := s.ops[k := op]))
  {
    var t := s.(ops := s.ops[k := op]);
    forall j, id | j in t.ops && Uses(t.ops[j], id)
      ensures id in t.sessions
    {
      if j != k {
        assert Uses(s.ops[j], id);
      }
    }
    forall j | j in t.ops
      ensures Room(cfg, t, t.ops[j])
    {
      if j != k {
        assert Room(cfg, s, s.ops[j]);
      }
    }
  }

  lemma EndInv(cfg: Config, s: State, k: nat)
    requires Inv(cfg, s)
    ensures Inv(cfg, End(s, k))
  {
    var t := End(s, k);
    forall j, id | j in t.ops && Uses(t.ops[j], id)
      ensures id in t.sessions
    {
      assert Uses(s.ops[j], id);
    }
    forall j | j in t.ops
      ensures Room(cfg, t, t.ops[j])
    {
      assert Room(cfg, s, s.ops[j]);
    }
  }

  /** No operation but `k` holds the lock of session `id`. */
  ghost predicate OnlyHolder(s: State, k: nat, id: string) {
    forall j :: j in s.ops && j != k ==> !Holds(s.ops[j], id)
  }

  lemma PutKnown(s: State, k: nat, id: string, session: Session)
    requires Known(s)
    ensures Known(End(Put(s, id, session), k))
  {
    var t := End(Put(s, id, session), k);
    forall j, x | j in t.ops && Uses(t.ops[j], x)
      ensures x in t.sessions
    {
      assert Uses(s.ops[j], x);
    }
  }

  lemma PutExclusive(s: State, k: nat, id: string, session: Session)
    requires Exclusive(s) && id in s.sessions
    requires session.locked == s.sessions[id].locked || OnlyHolder(s, k, id)
    ensures Exclusive(End(Put(s, id, session), k))
  {
    var t := End(Put(s, id, session), k);
    forall j, x | j in t.ops && Holds(t.ops[j], x) && x in t.sessions
      ensures t.sessions[x].locked
    {
      assert Holds(s.ops[j], x);
    }
    forall i, j, x | i in t.ops && j in t.ops && Holds(t.ops[i], x) && Holds(t.ops[j], x)
      ensures i == j
    {
      assert Holds(s.ops[i], x) && Holds(s.ops[j], x);
    }
  }

  lemma PutCapped(cfg: Config, s: State, k: nat, id: string, session: Session)
    requires TabsCapped(cfg, s) && id in s.sessions
    requires |session.tabs| <= |s.sessions[id].tabs| || (|session.tabs| <= Max(0, cfg.maxTabs) && OnlyHolder(s, k, id))
    ensures TabsCapped(cfg, End(Put(s, id, session), k))
  {
    var t := End(Put(s, id, session), k);
    forall j | j in t.ops
      ensures Room(cfg, t, t.ops[j])
    {
      assert Room(cfg, s, s.ops[j]);
      if t.ops[j].TabCall? {
        assert Holds(s.ops[j], s.ops[j].id);
      }
    }
  }

  /** The last stretch of an operation: it changes one session, of which it may open the
      lock or add a tab only as its holder. */
  lemma PutInv(cfg: Config, s: State, k: nat, id: string, session: Session)
    requires Inv(cfg, s) && id in s.sessions
    requires session.locked == s.sessions[id].locked || OnlyHolder(s, k, id)
    requires |session.tabs| <= |s.sessions[id].tabs| || (|session.tabs| <= Max(0, cfg.maxTabs) && OnlyHolder(s, k, id))
    ensures Inv(cfg, End(Put(s, id, session), k))
  {
    PutKnown(s, k, id, session);
    PutExclusive(s, k, id, session);
    PutCapped(cfg, s, k, id, session);
  }

  lemma HolderIsOnly(s: State, k: nat, id: string)
    requires Exclusive(s) && k in s.ops && Holds(s.ops[k], id)
    ensures OnlyHolder(s, k, id)
  {
  }

  /** A free lock has no holder. */
  lemma FreeLock(s: State, k: nat, id: string)
    requires Exclusive(s) && id in s.sessions && !s.sessions[id].locked
    ensures OnlyHolder(s, k, id)
  {
  }

  /** Taking the free lock of a session; for a new tab only where there is room. */
  lemma AcquireInv(cfg: Config, s: State, k: nat, id: string, op: Op)
    requires Inv(cfg, s) && id in s.sessions && !s.sessions[id].locked
    requires Locking(op) && op.id == id && (forall x :: Uses(op, x) ==> x in s.sessions)
    requires op.TabCall? ==> |s.sessions[id].tabs| < cfg.maxTabs
    ensures var t := Put(s, id, s.sessions[id].(locked := true)); Inv(cfg, t.(ops := t.ops[k := op]))
  {
    FreeLock(s, k, id);
    var session := s.sessions[id].(locked := true);
    PutInv(cfg, s, k, id, session);
    HoldInv(cfg, End(Put(s, id, session), k), k, op);
    assert (s.ops - {k})[k := op] == s.ops[k := op];
  }

  lemma HoldInv(cfg: Config, s: State, k: nat, op: Op)
    requires Inv(cfg, s) && k !in s.ops && Locking(op) && OnlyHolder(s, k, op.id)
    requires (forall x :: Uses(op, x) ==> x in s.sessions) && Uses(op, op.id)
    requires s.sessions[op.id].locked && Room(cfg, s, op)
    ensures Inv(cfg, s.(ops := s.ops[k := op]))
  {
    var t := s.(ops := s.ops[k := op]);
    forall j, id | j in t.ops && Uses(t.ops[j], id)
      ensures id in t.sessions
    {
      if j != k {
        assert Uses(s.ops[j], id);
      }
    }
    forall j | j in t.ops
      ensures Room(cfg, t, t.ops[j])
    {
      if j != k {
        assert Room(cfg, s, s.ops[j]);
      }
    }
  }

  // -------------------------------------------------------------- each event

  lemma BeginInv(cfg: Config, s: State, k: nat, owner: string, request: Request, now: int)
    requires Inv(cfg, s) && k !in s.ops
    ensures Inv(cfg, Begin(cfg, s, k, owner, request, now).0)
  {
    var t := Begin(cfg, s, k, owner, request, now).0;
    if t != s {
      SuspendInv(cfg, s, k, t.ops[k]);
    }
  }

  lemma CreateInv(cfg: Config, evaluate: bool, s: State, k: nat, answer: Answer, newId: string)
    requires Inv(cfg, s) && k in s.ops && (s.ops[k].CreateWait? || s.ops[k].CreateCall?) && Fresh(s, newId)
    ensures Inv(cfg, ResumeCreate(cfg, evaluate, s, k, s.ops[k], answer, newId).0)
  {
    var op := s.ops[k];
    EndInv(cfg, s, k);
    SuspendInv(cfg, s, k, CreateCall(op.owner, op.now));
    assert Inv(cfg, End(s, k).(locked := false));
    if op.CreateCall? && answer.Accepted? {
      AddSession(cfg, End(s, k).(locked := false), newId, NewSession(cfg, op.owner, answer.handle, evaluate, op.now));
    }
  }

  lemma AddSession(cfg: Config, s: State, id: string, session: Session)
    requires Inv(cfg, s) && id !in s.sessions && session.tabs == map[]
    ensures Inv(cfg, Put(s, id, session).(live := s.live + {id}))
  {
    var t := Put(s, id, session).(live := s.live + {id});
    forall k | k in t.ops
      ensures Room(cfg, t, t.ops[k])
      ensures forall x :: Uses(t.ops[k], x) ==> x in s.sessions
    {
      assert Room(cfg, s, s.ops[k]);
      if t.ops[k].TabCall? {
        assert Uses(s.ops[k], s.ops[k].id);
      }
    }
    forall k, x | k in t.ops && Holds(t.ops[k], x) && x in t.sessions
      ensures t.sessions[x].locked
    {
      assert Uses(s.ops[k], x);
      assert Holds(s.ops[k], x);
    }
  }

  lemma TabInv(cfg: Config, s: State, k: nat, answer: Answer, newId: string)
    requires Inv(cfg, s) && k in s.ops && (s.ops[k].TabWait? || s.ops[k].TabCall?) && Ready(s, s.ops[k])
    ensures s.ops[k].id in s.sessions
    ensures Inv(cfg, ResumeTab(cfg, s, k, s.ops[k], answer, newId).0)
  {
    var op := s.ops[k];
    assert Uses(op, op.id);
    var session := s.sessions[op.id];
    if op.TabWait? {
      EndInv(cfg, s, k);
      if |session.tabs| < cfg.maxTabs {
        AcquireInv(cfg, s, k, op.id, TabCall(op.id, op.url, op.now));
      }
    } else {
      assert Holds(op, op.id) && Room(cfg, s, op);
      HolderIsOnly(s, k, op.id);
      if answer.Refused? {
        PutInv(cfg, s, k, op.id, session.(locked := false));
      } else {
        var tab := Tab(answer.handle, OrElse(answer.url, op.url), answer.title, op.now);
        MapGrows(session.tabs, newId, tab);
        PutInv(cfg, s, k, op.id, session.(tabs := session.tabs[newId := tab], lastActivity := op.now, locked := false));
      }
    }
  }

  lemma MapGrows<K, V>(m: map<K, V>, k: K, v: V)
    ensures |m[k := v]| <= |m| + 1
  {
    assert m[k := v].Keys == m.Keys + {k};
    assert |m.Keys + {k}| <= |m.Keys| + 1;
    assert |m[k := v].Keys| == |m[k := v]| && |m.Keys| == |m|;
  }

  lemma MapShrinks<K, V>(m: map<K, V>, k: K)
    ensures |m - {k}| <= |m|
  {
    assert (m - {k}).Keys == m.Keys - {k};
    assert |m.Keys - {k}| <= |m.Keys|;
    assert |(m - {k}).Keys| == |m - {k}| && |m.Keys| == |m|;
  }

  lemma CloseInv(cfg: Config, s: State, k: nat, answer: Answer, now: int)
    requires Inv(cfg, s) && k in s.ops && (s.ops[k].CloseCall? || s.ops[k].CloseWait?)
    ensures s.ops[k].id in s.sessions
    ensures Inv(cfg, ResumeClose(s, k, s.ops[k], answer, now).0)
  {
    var op := s.ops[k];
    assert Uses(op, op.id);
    EndInv(cfg, s, k);
    if op.CloseCall? {
      SuspendInv(cfg, s, k, CloseWait(op.id, op.tab));
    } else {
      var session := s.sessions[op.id];
      MapShrinks(session.tabs, op.tab);
      PutInv(cfg, s, k, op.id, session.(tabs := session.tabs - {op.tab}, lastActivity := now));
    }
  }

  lemma UpdatedSize(session: Session, op: Op, answer: Answer)
    requires op.ActCall? && answer.Accepted?
    ensures |Updated(session, op, answer)| == |session.tabs|
  {
    var tabs := Updated(session, op, answer);
    assert tabs.Keys == session.tabs.Keys;
    assert |tabs.Keys| == |tabs| && |session.tabs.Keys| == |session.tabs|;
  }

  lemma ActInv(cfg: Config, s: State, k: nat, answer: Answer, now: int)
    requires Inv(cfg, s) && k in s.ops && s.ops[k].ActCall?
    ensures s.ops[k].id in s.sessions
    ensures Inv(cfg, ResumeAct(s, k, s.ops[k], answer, now).0)
  {
    var op := s.ops[k];
    assert Uses(op, op.id);
    EndInv(cfg, s, k);
    if answer.Accepted? {
      var session := s.sessions[op.id];
      UpdatedSize(session, op, answer);
      var touched := if op.action.Snapshot? then op.now else now;
      PutInv(cfg, s, k, op.id, session.(tabs := Updated(session, op, answer), lastActivity := touched));
    }
  }

  lemma RemoveLive(cfg: Config, s: State, id: string)
    requires Inv(cfg, s)
    ensures Inv(cfg, s.(live := s.live - {id}))
  {
    var t := s.(live := s.live - {id});
    forall k | k in t.ops
      ensures Room(cfg, t, t.ops[k])
    {
      assert Room(cfg, s, s.ops[k]);
    }
  }

  lemma ReleaseInv(cfg: Config, s: State, k: nat)
    requires Inv(cfg, s) && k in s.ops && Ready(s, s.ops[k])
    requires s.ops[k].ReleaseWait? || s.ops[k].ReleaseCall? || s.ops[k].ReleasePop?
    ensures s.ops[k].id in s.sessions
    ensures Inv(cfg, ResumeRelease(s, k, s.ops[k]).0)
  {
    var op := s.ops[k];
    assert Uses(op, op.id);
    forall x | Uses(ReleaseWait(op.id, op.rest), x)
      ensures x in s.sessions
    {
      assert Uses(op, x);
    }
    var session := s.sessions[op.id];
    if op.ReleaseWait? {
      AcquireInv(cfg, s, k, op.id, ReleaseCall(op.id, op.rest));
    } else if op.ReleaseCall? {
      var t := Put(s, op.id, session.(locked := false));
      HolderIsOnly(s, k, op.id);
      PutInv(cfg, s, k, op.id, session.(locked := false));
      SuspendInv(cfg, End(t, k), k, ReleasePop(op.id, op.rest));
      assert (t.ops - {k})[k := ReleasePop(op.id, op.rest)] == t.ops[k := ReleasePop(op.id, op.rest)];
    } else {
      var t := s.(live := s.live - {op.id});
      RemoveLive(cfg, s, op.id);
      if op.rest == [] {
        EndInv(cfg, t, k);
      } else {
        forall x | Uses(ReleaseWait(op.rest[0], op.rest[1..]), x)
          ensures x in s.sessions
        {
          assert x in op.rest;
          assert Uses(op, x);
        }
        SuspendInv(cfg, t, k, ReleaseWait(op.rest[0], op.rest[1..]));
      }
    }
  }

  lemma SweepInv(cfg: Config, s: State, k: nat, order: seq<string>)
    requires Inv(cfg, s) && k in s.ops && s.ops[k].SweepWait?
    ensures Inv(cfg, ResumeSweep(cfg, s, k, s.ops[k], order).0)
  {
    EndInv(cfg, s, k);
    var expired := ExpiredOnes(cfg, s, s.ops[k].now, order);
    if expired != [] {
      forall x | Uses(ReleaseWait(expired[0], expired[1..]), x)
        ensures x in s.sessions
      {
        assert x in expired;
      }
      SuspendInv(cfg, s, k, ReleaseWait(expired[0], expired[1..]));
    }
  }

  lemma StepInv(cfg: Config, evaluate: bool, s: State, e: Event)
    requires Inv(cfg, s) && Enabled(s, e)
    ensures Inv(cfg, Step(cfg, evaluate, s, e).0)
  {
    match e
    case Start(k, profile, request, now) => BeginInv(cfg, s, k, profile, request, now);
    case Sweep(k, now) => SuspendInv(cfg, s, k, SweepWait(now));
    case Scan(k, order) => SweepInv(cfg, s, k, order);
    case Resume(k, answer, now, newId) => ResumeInv(cfg, evaluate, s, k, answer, now, newId);
  }

  lemma ResumeInv(cfg: Config, evaluate: bool, s: State, k: nat, answer: Answer, now: int, newId: string)
    requires Inv(cfg, s) && Enabled(s, Resume(k, answer, now, newId))
    ensures Inv(cfg, Step(cfg, evaluate, s, Resume(k, answer, now, newId)).0)
  {
    var op := s.ops[k];
    if op.CreateWait? || op.CreateCall? {
      CreateInv(cfg, evaluate, s, k, answer, newId);
    } else if op.TabWait? || op.TabCall? {
      TabInv(cfg, s, k, answer, newId);
    } else if op.CloseCall? || op.CloseWait? {
      CloseInv(cfg, s, k, answer, now);
    } else if op.ActCall? {
      ActInv(cfg, s, k, answer, now);
    } else {
      ReleaseInv(cfg, s, k);
    }
  }

  // --------------------------------------------------------------------- runs

  ghost predicate Runs(cfg: Config, evaluate: bool, s: State, es: seq<Event>)
    decreases |es|
  {
    es == [] || (Known(s) && Enabled(s, es[0]) && Runs(cfg, evaluate, Step(cfg, evaluate, s, es[0]).0, es[1..]))
  }

  ghost function After(cfg: Config, evaluate: bool, s: State, es: seq<Event>): State
    requires Runs(cfg, evaluate, s, es)
    decreases |es|
  {
    if es == [] then s else After(cfg, evaluate, Step(cfg, evaluate, s, es[0]).0, es[1..])
  }

  lemma {:induction false} RunInv(cfg: Config, evaluate: bool, s: State, es: seq<Event>)
    requires Inv(cfg, s) && Runs(cfg, evaluate, s, es)
    ensures Inv(cfg, After(cfg, evaluate, s, es))
    decreases |es|
  {
    if es != [] {
      StepInv(cfg, evaluate, s, es[0]);
      RunInv(cfg, evaluate, Step(cfg, evaluate, s, es[0]).0, es[1..]);
    }
  }

  /** In every reachable state, whatever calls are suspended, no session has more tabs than
      allowed. */
  lemma TabCap(cfg: Config, evaluate: bool, es: seq<Event>, id: string)
    requires Runs(cfg, evaluate, Init(), es) && id in After(cfg, evaluate, Init(), es).sessions
    ensures |After(cfg, evaluate, Init(), es).sessions[id].tabs| <= Max(0, cfg.maxTabs)
  {
    RunInv(cfg, evaluate, Init(), es);
  }
}
