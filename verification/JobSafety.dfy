/** Safety of the job service over whole runs: the invariants are inductive, terminal
    states absorb, no job starts twice, nothing is lost, retention is bounded. */
module JobSafety {
  import opened Sequences
  import opened JobModel
  import opened JobInvariants

  // ------------------------------------------------- each event keeps them

  lemma InitInv(concurrency: nat, maxRetained: int)
    ensures Inv(Init(concurrency, maxRetained))
  {
    AllIdle(seq(concurrency, _ => Idle));
  }

  lemma AllIdle(workers: seq<Worker>)
    requires forall w :: 0 <= w < |workers| ==> workers[w].Idle?
    ensures CountBusy(workers) == 0
  {
  }

  lemma EvictStore(s: State)
    requires Shape(s)
    ensures var r := Evict(s.objs, s.store, s.maxRetained);
      && InRange(s.objs, r) && Increasing(r)
      && (forall j :: j in r ==> j in s.store)
      && (forall j :: j in s.store && !Terminal(s.objs[j].status) ==> j in r)
      && CountStored(s.objs, r, Queued) == CountStored(s.objs, s.store, Queued)
      && CountStored(s.objs, r, Running) == CountStored(s.objs, s.store, Running)
      && |r| == |s.store| - Min(Surplus(|s.store|, s.maxRetained), |Finished(s.objs, s.store)|)
  {
    VictimsFinished(s.objs, s.store, s.maxRetained);
    var v := Victims(s.objs, s.store, s.maxRetained);
    RemoveAllProperties(s.objs, s.store, v, Queued);
    RemoveAllProperties(s.objs, s.store, v, Running);
  }

  /** A stored job found under the head of the queue is the next object to leave it. */
  lemma HeadOfQueue(s: State)
    requires Shape(s) && s.queue != []
    ensures var f := Find(s.objs, s.store, s.queue[0]);
      && (f.Some? ==> f.value == Base(s))
      && (f.None? ==> Base(s) !in s.store)
  {
    assert s.queue[0] == s.objs[Base(s)].id;
  }

  predicate Request(e: Event) { e.Create? || e.Cancel? || e.Delete? }

  lemma ShapeCreate(s: State, id: string, now: int)
    requires Shape(s) && Fresh(s.objs, id)
    ensures Shape(DoCreate(s, id, now))
  {
    EvictStore(s);
    var kept := Evict(s.objs, s.store, s.maxRetained);
  }

  lemma ShapeDelete(s: State, id: string)
    requires Shape(s)
    ensures Shape(DoDelete(s, id))
  {
    var f := Find(s.objs, s.store, id);
    if f.Some? {
      RemoveMembers(s.store, f.value);
      InRangeOfMembers(s.objs, s.store, Remove(s.store, f.value));
    }
  }

  lemma ShapeDequeue(s: State, w: nat, now: int)
    requires Shape(s) && Enabled(s, Dequeue(w, now))
    ensures Shape(DoDequeue(s, w, now))
  {
    HeadOfQueue(s);
  }

  lemma ShapeStep(s: State, e: Event)
    requires Shape(s) && Enabled(s, e)
    ensures Shape(Step(s, e))
  {
    match e
    case Create(id, now) => ShapeCreate(s, id, now);
    case Delete(id) => ShapeDelete(s, id);
    case Dequeue(w, now) => ShapeDequeue(s, w, now);
    case Cancel(_, _) =>
    case Finish(_, _, _) =>
    case StopIdle(_) =>
  }

  lemma StatusesCreate(s: State, id: string, now: int)
    requires Shape(s) && Statuses(s)
    ensures Statuses(DoCreate(s, id, now))
  {
    var s' := DoCreate(s, id, now);
    EvictStore(s);
    var kept := Evict(s.objs, s.store, s.maxRetained);
    forall k | 0 <= k < |s'.store| && s'.store[k] < |s'.objs| && s'.store[k] < Base(s')
      ensures !s'.objs[s'.store[k]].status.Queued?
    {
      assert s'.store[k] == kept[k] && kept[k] in s.store;
    }
  }

  lemma StatusesCancel(s: State, id: string, now: int)
    requires Shape(s) && Statuses(s)
    ensures Statuses(DoCancel(s, id, now))
  {
  }

  lemma StatusesDelete(s: State, id: string)
    requires Shape(s) && Statuses(s)
    ensures Statuses(DoDelete(s, id))
  {
    var f := Find(s.objs, s.store, id);
    if f.Some? {
      RemoveMembers(s.store, f.value);
      var s' := DoDelete(s, id);
      assert forall k :: 0 <= k < |s'.store| ==> s'.store[k] in s'.store;
    }
  }

  lemma StatusesDequeue(s: State, w: nat, now: int)
    requires Shape(s) && Statuses(s) && Enabled(s, Dequeue(w, now))
    ensures Statuses(DoDequeue(s, w, now))
  {
    HeadOfQueue(s);
  }

  lemma StatusesFinish(s: State, w: nat, outcome: Outcome, now: int)
    requires Shape(s) && Statuses(s) && Holding(s) && Enabled(s, Finish(w, outcome, now))
    ensures Statuses(DoFinish(s, w, outcome, now))
  {
  }

  lemma StatusesStep(s: State, e: Event)
    requires Shape(s) && Statuses(s) && Enabled(s, e)
    requires e.Finish? ==> Holding(s)
    ensures Statuses(Step(s, e))
  {
    match e
    case Create(id, now) => StatusesCreate(s, id, now);
    case Cancel(id, now) => StatusesCancel(s, id, now);
    case Delete(id) => StatusesDelete(s, id);
    case Dequeue(w, now) => StatusesDequeue(s, w, now);
    case Finish(w, outcome, now) => StatusesFinish(s, w, outcome, now);
    case StopIdle(_) =>
  }

  /** Replacing one worker, and one object that it held or takes, keeps the rest held. */
  lemma HoldingUpdate(s: State, s': State, w: nat, i: nat)
    requires Holding(s) && w < |s.workers| == |s'.workers| && i < |s.objs| == |s'.objs| && Base(s) <= Base(s')
    requires s'.workers == s.workers[w := s'.workers[w]] && s'.objs == s.objs[i := s'.objs[i]]
    requires s.workers[w].Busy? ==> s.workers[w].job == i
    requires s'.workers[w].Busy? <==> s'.objs[i].status.Running?
    requires s'.workers[w].Busy? ==> s'.workers[w].job == i && !s.objs[i].status.Running? && i < Base(s')
    requires s.workers[w].Busy? || !s.objs[i].status.Running?
    ensures Holding(s')
  {
    forall j | 0 <= j < |s'.objs| && s'.objs[j].status.Running?
      ensures Busy(j) in s'.workers
    {
      if j == i {
        assert s'.workers[w] == Busy(i);
      } else {
        var v :| 0 <= v < |s.workers| && s.workers[v] == Busy(j);
        assert s'.workers[v] == Busy(j);
      }
    }
  }

  lemma HoldingDequeue(s: State, w: nat, now: int)
    requires Shape(s) && Statuses(s) && Holding(s) && Enabled(s, Dequeue(w, now))
    ensures Holding(DoDequeue(s, w, now))
  {
    HeadOfQueue(s);
    var f := Find(s.objs, s.store, s.queue[0]);
    if f.Some? && s.objs[f.value].status == Queued {
      HoldingUpdate(s, DoDequeue(s, w, now), w, f.value);
    }
  }

  /** Requests neither start nor end a job, and create only queued ones. */
  lemma HoldingRequest(s: State, e: Event)
    requires Shape(s) && Statuses(s) && Holding(s) && Enabled(s, e) && Request(e)
    ensures Holding(Step(s, e))
  {
  }

  lemma HoldingStop(s: State, w: nat)
    requires Shape(s) && Holding(s) && Enabled(s, StopIdle(w))
    ensures Holding(Step(s, StopIdle(w)))
  {
    var s' := Step(s, StopIdle(w));
    forall j | 0 <= j < |s'.objs| && s'.objs[j].status.Running?
      ensures Busy(j) in s'.workers
    {
      var v :| 0 <= v < |s.workers| && s.workers[v] == Busy(j);
      assert s'.workers[v] == Busy(j);
    }
  }

  lemma HoldingFinish(s: State, w: nat, outcome: Outcome, now: int)
    requires Shape(s) && Holding(s) && Enabled(s, Finish(w, outcome, now))
    ensures Holding(DoFinish(s, w, outcome, now))
  {
    HoldingUpdate(s, DoFinish(s, w, outcome, now), w, s.workers[w].job);
  }

  lemma HoldingStep(s: State, e: Event)
    requires Shape(s) && Statuses(s) && Holding(s) && Enabled(s, e)
    ensures Holding(Step(s, e))
  {
    if Request(e) {
      HoldingRequest(s, e);
    } else if e.Dequeue? {
      HoldingDequeue(s, e.worker, e.now);
    } else if e.Finish? {
      HoldingFinish(s, e.worker, e.outcome, e.now);
    } else {
      HoldingStop(s, e.worker);
    }
  }

  lemma StartsDequeue(s: State, w: nat, now: int)
    requires Shape(s) && Starts(s) && Enabled(s, Dequeue(w, now))
    ensures Starts(DoDequeue(s, w, now))
  {
    HeadOfQueue(s);
    var s' := DoDequeue(s, w, now);
    if s'.started == s.started + [Base(s)] {
      assert forall i :: i in s'.started <==> i in s.started || i == Base(s);
    }
  }

  lemma StartsStep(s: State, e: Event)
    requires Shape(s) && Starts(s) && Enabled(s, e)
    ensures Starts(Step(s, e))
  {
    if e.Dequeue? {
      StartsDequeue(s, e.worker, e.now);
    }
  }

  lemma CountAllChange(objs: seq<Job>, i: nat, x: Job)
    requires i < |objs|
    ensures forall st :: CountAll(objs[i := x], st) == CountAll(objs, st)
              - (if objs[i].status == st then 1 else 0) + (if x.status == st then 1 else 0)
  {
    forall st {
      CountAllUpdate(objs, i, x, st);
    }
  }

  lemma CountedCreate(s: State, id: string, now: int)
    requires Shape(s) && Counted(s) && Fresh(s.objs, id)
    ensures Counted(DoCreate(s, id, now))
  {
    var s' := DoCreate(s, id, now);
    ShapeCreate(s, id, now);
    var kept := Evict(s.objs, s.store, s.maxRetained);
    EvictStore(s);
    forall st {
      CountAllAppend(s.objs, NewJob(id, now), st);
    }
    CountStoredSame(s.objs, s'.objs, kept, Queued);
    CountStoredAppend(s'.objs, kept, |s.objs|, Queued);
  }

  lemma CountedCancel(s: State, id: string, now: int)
    requires Shape(s) && Counted(s)
    ensures Counted(DoCancel(s, id, now))
  {
    var s' := DoCancel(s, id, now);
    var f := Find(s.objs, s.store, id);
    if f.Some? && s.objs[f.value].status == Queued {
      CountAllChange(s.objs, f.value, s'.objs[f.value]);
      CountStoredUpdate(s.objs, s.store, f.value, s'.objs[f.value], Queued);
    }
  }

  lemma CountedDelete(s: State, id: string)
    requires Shape(s) && Counted(s)
    ensures Counted(DoDelete(s, id))
  {
    ShapeDelete(s, id);
    var f := Find(s.objs, s.store, id);
    if f.Some? {
      RemoveCount(s.objs, s.store, f.value, Queued);
    }
  }

  lemma CountedDequeue(s: State, w: nat, now: int)
    requires Shape(s) && Counted(s) && Enabled(s, Dequeue(w, now))
    ensures Counted(DoDequeue(s, w, now))
  {
    var s' := DoDequeue(s, w, now);
    var f := Find(s.objs, s.store, s.queue[0]);
    if f.Some? && s.objs[f.value].status == Queued {
      CountAllChange(s.objs, f.value, s'.objs[f.value]);
      CountStoredUpdate(s.objs, s.store, f.value, s'.objs[f.value], Queued);
      CountBusyUpdate(s.workers, w, s'.workers[w]);
    }
  }

  lemma CountedFinish(s: State, w: nat, outcome: Outcome, now: int)
    requires Shape(s) && Counted(s) && Holding(s) && Enabled(s, Finish(w, outcome, now))
    ensures Counted(DoFinish(s, w, outcome, now))
  {
    var i := s.workers[w].job;
    var x := Conclude(s.objs[i], outcome, now);
    CountAllChange(s.objs, i, x);
    FinishStored(s.objs, s.store, i, x);
    CountBusyUpdate(s.workers, w, if outcome.TaskCancelled? then Exited else Idle);
  }

  /** A job that ends was not queued, stored or not. */
  lemma FinishStored(objs: seq<Job>, store: seq<nat>, i: nat, x: Job)
    requires InRange(objs, store) && Increasing(store) && i < |objs|
    requires !objs[i].status.Queued? && !x.status.Queued?
    ensures InRange(objs[i := x], store)
    ensures CountStored(objs[i := x], store, Queued) == CountStored(objs, store, Queued)
  {
    if i in store {
      CountStoredUpdate(objs, store, i, x, Queued);
    } else {
      CountStoredSame(objs, objs[i := x], store, Queued);
    }
  }

  lemma CountedStep(s: State, e: Event)
    requires Shape(s) && Counted(s) && Enabled(s, e)
    requires e.Finish? ==> Holding(s)
    ensures Counted(Step(s, e))
  {
    match e
    case Create(id, now) => CountedCreate(s, id, now);
    case Cancel(id, now) => CountedCancel(s, id, now);
    case Delete(id) => CountedDelete(s, id);
    case Dequeue(w, now) => CountedDequeue(s, w, now);
    case Finish(w, outcome, now) => CountedFinish(s, w, outcome, now);
    case StopIdle(w) => CountBusyUpdate(s.workers, w, Exited);
  }

  lemma StepInv(s: State, e: Event)
    requires Inv(s) && Enabled(s, e)
    ensures Inv(Step(s, e))
  {
    ShapeStep(s, e);
    StatusesStep(s, e);
    HoldingStep(s, e);
    StartsStep(s, e);
    CountedStep(s, e);
  }

  lemma StepKeeps(s: State, e: Event)
    requires InRange(s.objs, s.store) && Enabled(s, e)
    ensures Step(s, e).maxRetained == s.maxRetained && |Step(s, e).workers| == |s.workers|
  {
  }

  // ------------------------------------------------------------------- runs

  ghost predicate Runs(s: State, es: seq<Event>)
    requires Inv(s)
    decreases |es|
  {
    es == [] || (Enabled(s, es[0]) && (StepInv(s, es[0]); Runs(Step(s, es[0]), es[1..])))
  }

  ghost function After(s: State, es: seq<Event>): (r: State)
    requires Inv(s) && Runs(s, es)
    ensures Inv(r) && |r.workers| == |s.workers| && r.maxRetained == s.maxRetained
    decreases |es|
  {
    if es == [] then s else StepInv(s, es[0]); StepKeeps(s, es[0]); After(Step(s, es[0]), es[1..])
  }

  /** A state some run of a fresh service ends in. */
  ghost predicate Reachable(concurrency: nat, maxRetained: int, s: State) {
    InitInv(concurrency, maxRetained);
    exists es :: Runs(Init(concurrency, maxRetained), es) && After(Init(concurrency, maxRetained), es) == s
  }

  /** Every stored queued job is in the queue, at exactly one place, behind every job
      created before it that is still waiting. */
  lemma QueuedExactlyOnce(concurrency: nat, maxRetained: int, s: State, i: nat)
    requires Reachable(concurrency, maxRetained, s)
    requires i in s.store && i < |s.objs| && s.objs[i].status.Queued?
    ensures exists k :: 0 <= k < |s.queue| && s.queue[k] == s.objs[i].id
              && forall l :: 0 <= l < |s.queue| && s.queue[l] == s.objs[i].id ==> l == k
  {
    assert i >= Base(s);
    var k := i - Base(s);
    assert s.queue[k] == s.objs[i].id;
  }

  /** The objects that run are exactly those a worker holds, no two workers hold the same
      one, and the gauge counts them, never above the pool size. */
  lemma RunningHeldOnce(concurrency: nat, maxRetained: int, s: State)
    requires Reachable(concurrency, maxRetained, s)
    ensures forall i :: 0 <= i < |s.objs| ==> (s.objs[i].status.Running? <==> Busy(i) in s.workers)
    ensures forall w, v :: 0 <= w < v < |s.workers| && s.workers[w].Busy? ==> s.workers[w] != s.workers[v]
    ensures s.running == CountBusy(s.workers) == CountAll(s.objs, Running)
    ensures 0 <= s.running <= concurrency
  {
    InitInv(concurrency, maxRetained);
    CountBusyBound(s.workers);
    assert |s.workers| == concurrency;
  }

  /** No object is started twice and starts follow creation; what started is exactly what
      carries a start time, and nothing still in the queue has. */
  lemma StartsFollowCreation(concurrency: nat, maxRetained: int, s: State)
    requires Reachable(concurrency, maxRetained, s)
    ensures Increasing(s.started)
    ensures forall i :: 0 <= i < |s.objs| ==> (i in s.started <==> s.objs[i].startedAt.Some?)
    ensures forall i, k :: 0 <= i < |s.objs| && 0 <= k < |s.queue| && s.queue[k] == s.objs[i].id ==> i !in s.started
  {
    forall i, k | 0 <= i < |s.objs| && 0 <= k < |s.queue| && s.queue[k] == s.objs[i].id
      ensures i !in s.started
    {
      assert s.objs[Base(s) + k].id == s.objs[i].id;
      assert i == Base(s) + k;
    }
  }

  lemma OutcomeFields(concurrency: nat, maxRetained: int, s: State, i: nat)
    requires Reachable(concurrency, maxRetained, s) && i < |s.objs|
    ensures s.objs[i].result.Some? <==> s.objs[i].status.Succeeded?
    ensures s.objs[i].error.Some? <==> s.objs[i].status.Failed?
  {
  }

  /** Nothing is lost: every job created has succeeded, failed, been cancelled, is stored
      and queued, is being run, or was deleted while queued. */
  lemma Conservation(concurrency: nat, maxRetained: int, s: State)
    requires Reachable(concurrency, maxRetained, s)
    ensures InRange(s.objs, s.store)
    ensures s.counters.created
         == s.counters.succeeded + s.counters.failed + s.counters.cancelled
            + CountStored(s.objs, s.store, Queued) + CountBusy(s.workers) + s.deletedQueued
    ensures s.counters.created == |s.objs| && s.counters.succeeded == CountAll(s.objs, Succeeded)
    ensures s.counters.failed == CountAll(s.objs, Failed) && s.counters.cancelled == CountAll(s.objs, Cancelled)
  {
    CountAllTotal(s.objs);
  }

  // -------------------------------------------------------- terminal states

  lemma StepAbsorbs(s: State, e: Event, i: nat)
    requires Inv(s) && Enabled(s, e) && i < |s.objs| && Terminal(s.objs[i].status)
    ensures i < |Step(s, e).objs| && Step(s, e).objs[i] == s.objs[i]
  {
  }

  /** A finished job never changes again, whatever happens to the service. */
  lemma {:induction false} TerminalAbsorbs(s: State, es: seq<Event>, i: nat)
    requires Inv(s) && Runs(s, es) && i < |s.objs| && Terminal(s.objs[i].status)
    ensures i < |After(s, es).objs| && After(s, es).objs[i] == s.objs[i]
    decreases |es|
  {
    if es != [] {
      StepInv(s, es[0]);
      StepAbsorbs(s, es[0], i);
      TerminalAbsorbs(Step(s, es[0]), es[1..], i);
    }
  }

  // --------------------------------------------------------------- draining

  predicate WorkerStep(e: Event) { e.Dequeue? || e.Finish? }

  function Backlog(s: State): nat { 2 * |s.queue| + CountBusy(s.workers) }

  function WorkerSteps(es: seq<Event>): nat {
    if es == [] then 0 else (if WorkerStep(es[0]) then 1 else 0) + WorkerSteps(es[1..])
  }

  lemma BacklogStep(s: State, e: Event)
    requires Inv(s) && Enabled(s, e) && !e.Create?
    ensures Backlog(Step(s, e)) <= Backlog(s) - if WorkerStep(e) then 1 else 0
  {
    match e
    case Cancel(_, _) =>
    case Delete(_) =>
    case Dequeue(w, _) =>
      var f := Find(s.objs, s.store, s.queue[0]);
      if f.Some? {
        CountBusyUpdate(s.workers, w, Busy(f.value));
      }
    case Finish(w, outcome, _) =>
      CountBusyUpdate(s.workers, w, if outcome.TaskCancelled? then Exited else Idle);
    case StopIdle(w) => CountBusyUpdate(s.workers, w, Exited);
  }

  /** Without new jobs the workers run out of work: a run has no more worker steps than
      twice the queue plus the busy workers it began with. */
  lemma {:induction false} DrainBound(s: State, es: seq<Event>)
    requires Inv(s) && Runs(s, es)
    requires forall k :: 0 <= k < |es| ==> !es[k].Create?
    ensures WorkerSteps(es) + Backlog(After(s, es)) <= Backlog(s)
    decreases |es|
  {
    if es != [] {
      StepInv(s, es[0]);
      BacklogStep(s, es[0]);
      DrainBound(Step(s, es[0]), es[1..]);
    }
  }

  // -------------------------------------------------------------- retention

  /** Stored jobs that retention must keep. */
  function Live(s: State): nat
    requires InRange(s.objs, s.store)
  {
    CountStored(s.objs, s.store, Queued) + CountStored(s.objs, s.store, Running)
  }

  ghost function PeakLive(s: State, es: seq<Event>): nat
    requires Inv(s) && Runs(s, es)
    decreases |es|
  {
    if es == [] then Live(s)
    else StepInv(s, es[0]); Max(Live(s), PeakLive(Step(s, es[0]), es[1..]))
  }

  /** The time a job is judged by: when it finished, or else when it was made. */
  function Age(job: Job): int { match job.finishedAt case Some(at) => at case None => job.createdAt }

  lemma {:induction false} NoneFinished(objs: seq<Job>, store: seq<nat>)
    requires InRange(objs, store)
    ensures Finished(objs, store) == [] <==> forall i :: i in store ==> !Terminal(objs[i].status)
  {
    if store != [] {
      NoneFinished(objs, store[1..]);
      assert store == [store[0]] + store[1..];
    }
  }

  /** Nothing finished is left when as many were dropped as there were. */
  lemma AllFinishedGone(s: State)
    requires Inv(s)
    requires |Evict(s.objs, s.store, s.maxRetained)| == |s.store| - |Finished(s.objs, s.store)|
    ensures forall i :: i in Evict(s.objs, s.store, s.maxRetained) ==> i < |s.objs| && !Terminal(s.objs[i].status)
  {
    var kept := Evict(s.objs, s.store, s.maxRetained);
    EvictStore(s);
    FinishedPlusLive(s.objs, s.store);
    FinishedPlusLive(s.objs, kept);
    NoneFinished(s.objs, kept);
  }

  /** Eviction drops finished jobs only: none while there is room for one more, and otherwise
      as many as make room, or all of them if there are fewer; those oldest by
      `finished_at or created_at` go first. */
  lemma EvictionIsOldestFirst(s: State)
    requires Inv(s)
    ensures var kept := Evict(s.objs, s.store, s.maxRetained);
      && (|s.store| < s.maxRetained ==> kept == s.store)
      && (|s.store| >= s.maxRetained ==>
            || |kept| == s.maxRetained - 1
            || (|kept| >= s.maxRetained && forall i :: i in kept ==> i < |s.objs| && !Terminal(s.objs[i].status)))
      && (forall i :: i in kept ==> i in s.store)
      && (forall i :: i in s.store && i !in kept ==> Terminal(s.objs[i].status))
      && (forall i, j :: i in s.store && i !in kept && j in kept && Terminal(s.objs[j].status)
            ==> Age(s.objs[i]) < Age(s.objs[j]) || (Age(s.objs[i]) == Age(s.objs[j]) && i < j))
      && |kept| == |s.store| - Min(Max(0, |s.store| - s.maxRetained + 1), |Finished(s.objs, s.store)|)
  {
    EvictStore(s);
    if |Evict(s.objs, s.store, s.maxRetained)| == |s.store| - |Finished(s.objs, s.store)| {
      AllFinishedGone(s);
    }
    var v := Victims(s.objs, s.store, s.maxRetained);
    VictimsFinished(s.objs, s.store, s.maxRetained);
    RemoveAllProperties(s.objs, s.store, v, Queued);
    var kept := Evict(s.objs, s.store, s.maxRetained);
    forall i, j | i in s.store && i !in kept && j in kept && Terminal(s.objs[j].status)
      ensures Age(s.objs[i]) < Age(s.objs[j]) || (Age(s.objs[i]) == Age(s.objs[j]) && i < j)
    {
      var k :| 0 <= k < |v| && v[k].1 == i;
      VictimsOldest(s.objs, s.store, s.maxRetained, k, j);
    }
  }

  lemma {:induction false} FinishedPlusLive(objs: seq<Job>, store: seq<nat>)
    requires InRange(objs, store)
    ensures |Finished(objs, store)| + CountStored(objs, store, Queued) + CountStored(objs, store, Running) == |store|
  {
    if store != [] {
      FinishedPlusLive(objs, store[1..]);
    }
  }

  lemma CreateRetention(s: State, id: string, now: int)
    requires Shape(s) && InRange(DoCreate(s, id, now).objs, DoCreate(s, id, now).store)
    ensures |DoCreate(s, id, now).store| <= Max(|s.store|, Max(s.maxRetained, Live(DoCreate(s, id, now))))
  {
    var s' := DoCreate(s, id, now);
    var kept := Evict(s.objs, s.store, s.maxRetained);
    EvictStore(s);
    FinishedPlusLive(s.objs, s.store);
    CountStoredSame(s.objs, s'.objs, kept, Queued);
    CountStoredSame(s.objs, s'.objs, kept, Running);
    CountStoredAppend(s'.objs, kept, |s.objs|, Queued);
    CountStoredAppend(s'.objs, kept, |s.objs|, Running);
  }

  lemma StepRetention(s: State, e: Event)
    requires Inv(s) && Enabled(s, e) && InRange(Step(s, e).objs, Step(s, e).store)
    ensures |Step(s, e).store| <= Max(|s.store|, Max(s.maxRetained, Live(Step(s, e))))
  {
    if e.Create? {
      CreateRetention(s, e.id, e.now);
    } else if e.Delete? {
      var f := Find(s.objs, s.store, e.id);
      if f.Some? {
        RemoveMembers(s.store, f.value);
      }
    }
  }

  /** Over any run the store never outgrows the larger of the retention limit and the
      peak number of stored queued and running jobs. */
  lemma RetentionBound(s: State, es: seq<Event>)
    requires Inv(s) && Runs(s, es) && |s.store| <= Max(s.maxRetained, Live(s))
    ensures |After(s, es).store| <= Max(s.maxRetained, PeakLive(s, es))
    decreases |es|
  {
    RetentionFrom(s, es, Live(s));
  }

  lemma PeakStartsLive(s: State, es: seq<Event>)
    requires Inv(s) && Runs(s, es)
    ensures Live(s) <= PeakLive(s, es)
  {
  }

  lemma {:induction false} RetentionFrom(s: State, es: seq<Event>, bound: nat)
    requires Inv(s) && Runs(s, es) && |s.store| <= Max(s.maxRetained, bound)
    ensures |After(s, es).store| <= Max(s.maxRetained, Max(bound, PeakLive(s, es)))
    decreases |es|
  {
    if es != [] {
      StepInv(s, es[0]);
      StepKeeps(s, es[0]);
      var s' := Step(s, es[0]);
      StepRetention(s, es[0]);
      PeakStartsLive(s', es[1..]);
      RetentionFrom(s', es[1..], Max(bound, Live(s')));
    }
  }
}
