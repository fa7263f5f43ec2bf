/** What cancelling and deleting achieve in the job service, and that no later event undoes
    it (app/jobs/service.py). */
module JobEffects {
  import opened Sequences
  import opened JobModel
  import opened JobInvariants
  import opened JobSafety

  /** Cancelling a stored queued job cancels it and touches no other job. */
  lemma CancelCancels(s: State, id: string, now: int, i: nat)
    requires Inv(s) && Find(s.objs, s.store, id) == Some(i)
    ensures var t := DoCancel(s, id, now);
      && |t.objs| == |s.objs| && t.store == s.store && t.queue == s.queue
      && (s.objs[i].status.Queued? ==> t.objs[i].status.Cancelled? && t.objs[i].startedAt.None?)
      && (!s.objs[i].status.Queued? ==> t == s)
      && forall j :: 0 <= j < |s.objs| && j != i ==> t.objs[j] == s.objs[j]
  {
  }

  /** A job cancelled before it started stays so. */
  lemma StaysCancelled(s: State, es: seq<Event>, i: nat)
    requires Inv(s) && Runs(s, es)
    requires i < |s.objs| && s.objs[i].status.Cancelled? && s.objs[i].startedAt.None?
    ensures var t := After(s, es);
      i < |t.objs| && t.objs[i] == s.objs[i] && i !in t.started && Busy(i) !in t.workers
  {
    TerminalAbsorbs(s, es, i);
  }

  /** From the call that cancels a queued job on, whatever follows, no worker starts it, and
      it keeps the record that the call left. */
  lemma CancelledNeverStarts(s: State, es: seq<Event>, id: string, now: int, i: nat)
    requires Inv(s) && Runs(s, [Cancel(id, now)] + es)
    requires Find(s.objs, s.store, id) == Some(i) && s.objs[i].status.Queued?
    ensures var t := After(s, [Cancel(id, now)] + es);
      && i < |t.objs| && t.objs[i] == s.objs[i].(status := Cancelled, updatedAt := now)
      && i !in t.started && Busy(i) !in t.workers
  {
    CancelCancels(s, id, now, i);
    StepInv(s, Cancel(id, now));
    assert ([Cancel(id, now)] + es)[1..] == es;
    StaysCancelled(Step(s, Cancel(id, now)), es, i);
  }

  /** The object is no longer in the store. */
  predicate Dropped(s: State, i: nat) { i < |s.objs| && i !in s.store }

  lemma DeleteDrops(s: State, id: string, i: nat)
    requires Inv(s) && Find(s.objs, s.store, id) == Some(i)
    ensures Dropped(DoDelete(s, id), i) && DoDelete(s, id).objs == s.objs
    ensures forall j :: j in DoDelete(s, id).store <==> j in s.store && j != i
  {
    RemoveMembers(s.store, i);
  }

  /** Nothing puts an object back, and a queued one that is not stored is left alone: its
      queue entry is skipped. */
  lemma StepDropped(s: State, e: Event, i: nat)
    requires Inv(s) && Enabled(s, e) && Dropped(s, i)
    ensures Dropped(Step(s, e), i) && Step(s, e).objs[i].id == s.objs[i].id
    ensures s.objs[i].status.Queued? ==> Step(s, e).objs[i] == s.objs[i]
  {
    match e
    case Create(id, now) => EvictStore(s);
    case Delete(id) =>
      var f := Find(s.objs, s.store, id);
      if f.Some? {
        RemoveMembers(s.store, f.value);
      }
    case Cancel(_, _) =>
    case Dequeue(_, _) =>
    case Finish(w, outcome, now) =>
      assert s.objs[s.workers[w].job].status.Running?;
    case StopIdle(_) =>
  }

  lemma FindDropped(s: State, i: nat)
    requires Shape(s) && Dropped(s, i)
    ensures Find(s.objs, s.store, s.objs[i].id).None?
  {
  }

  lemma {:induction false} StaysDropped(s: State, es: seq<Event>, i: nat)
    requires Inv(s) && Runs(s, es) && Dropped(s, i)
    ensures var t := After(s, es);
      && Dropped(t, i)
      && t.objs[i].id == s.objs[i].id && Find(t.objs, t.store, t.objs[i].id).None?
      && (s.objs[i].status.Queued? ==> t.objs[i] == s.objs[i] && i !in t.started)
    decreases |es|
  {
    if es == [] {
      FindDropped(s, i);
      if s.objs[i].status.Queued? {
        assert s.objs[i].startedAt.None?;
      }
    } else {
      StepInv(s, es[0]);
      StepDropped(s, es[0], i);
      StaysDropped(Step(s, es[0]), es[1..], i);
    }
  }

  /** From the call that deletes a job on, whatever follows, it is unknown under its
      identifier, and one deleted while queued never runs. */
  lemma DeletedForever(s: State, es: seq<Event>, id: string, i: nat)
    requires Inv(s) && Runs(s, [Delete(id)] + es) && Find(s.objs, s.store, id) == Some(i)
    ensures var t := After(s, [Delete(id)] + es);
      && Dropped(t, i) && t.objs[i].id == id && Find(t.objs, t.store, id).None?
      && (s.objs[i].status.Queued? ==> t.objs[i] == s.objs[i] && i !in t.started)
  {
    DeleteDrops(s, id, i);
    StepInv(s, Delete(id));
    assert ([Delete(id)] + es)[1..] == es;
    StaysDropped(Step(s, Delete(id)), es, i);
  }

  /** A new job is found under its identifier, queued behind all others. */
  lemma CreateCreates(s: State, id: string, now: int)
    requires Inv(s) && Fresh(s.objs, id)
    ensures var t := DoCreate(s, id, now);
      && InRange(t.objs, t.store)
      && Find(t.objs, t.store, id) == Some(|s.objs|)
      && t.objs[|s.objs|] == Job(id, Queued, now, now, None, None, None, None)
      && t.queue == s.queue + [id] && t.objs[..|s.objs|] == s.objs
  {
    var t := DoCreate(s, id, now);
    ShapeCreate(s, id, now);
    assert t.store[|t.store| - 1] == |s.objs|;
    assert t.objs[|s.objs|].id == id;
  }

  /** A job from the moment a worker has started it. */
  predicate StartedAt(job: Job, now: int) {
    && job.status.Running? && job.startedAt == Some(now) && job.updatedAt == now
    && job.finishedAt.None? && job.result.None? && job.error.None?
  }

  /** The record of a run: how it ended, with what, and when. */
  predicate RecordOf(job: Job, outcome: Outcome, now: int) {
    && job.finishedAt == Some(now) && job.updatedAt == now
    && match outcome
       case Done(r) => job.status.Succeeded? && job.result == Some(r) && job.error.None?
       case ScrapeFailed(p) => job.status.Failed? && job.error == Some(Scraper(p)) && job.result.None?
       case Crashed(m) => job.status.Failed? && job.error == Some(Internal(m)) && job.result.None?
       case TaskCancelled => job.status.Cancelled? && job.result.None? && job.error.None?
  }

  predicate SameOrigin(job: Job, before: Job) {
    job.id == before.id && job.createdAt == before.createdAt && job.startedAt == before.startedAt
  }

  lemma FinishRecords(s: State, w: nat, outcome: Outcome, now: int)
    requires Inv(s) && Enabled(s, Finish(w, outcome, now))
    ensures var t := DoFinish(s, w, outcome, now);
      var i := s.workers[w].job;
      |t.objs| == |s.objs| && RecordOf(t.objs[i], outcome, now) && SameOrigin(t.objs[i], s.objs[i])
  {
    assert JobOk(s.objs[s.workers[w].job]);
  }

  /** From the end of a run on, whatever follows, the job holds what its scrape gave: the
      page on success, the error on failure, neither when it was cancelled. */
  lemma FinishedForGood(s: State, es: seq<Event>, w: nat, outcome: Outcome, now: int)
    requires Inv(s) && Runs(s, [Finish(w, outcome, now)] + es)
    ensures var t := After(s, [Finish(w, outcome, now)] + es);
      var i := s.workers[w].job;
      i < |s.objs| && i < |t.objs| && RecordOf(t.objs[i], outcome, now) && SameOrigin(t.objs[i], s.objs[i])
  {
    var i := s.workers[w].job;
    FinishRecords(s, w, outcome, now);
    StepInv(s, Finish(w, outcome, now));
    assert ([Finish(w, outcome, now)] + es)[1..] == es;
    TerminalAbsorbs(Step(s, Finish(w, outcome, now)), es, i);
  }

  /** A worker that is woken takes the job at the head of the queue: one that is stored and
      queued it starts, and holds as started now; any other it leaves alone and stays idle. */
  lemma TakenFromHead(s: State, w: nat, now: int)
    requires Inv(s) && Enabled(s, Dequeue(w, now))
    ensures var t := Step(s, Dequeue(w, now));
      var f := Find(s.objs, s.store, s.queue[0]);
      && t.queue == s.queue[1..] && t.store == s.store && |t.objs| == |s.objs| && w < |t.workers|
      && (if f.Some? && s.objs[f.value].status.Queued?
          then t.workers == s.workers[w := Busy(f.value)] && StartedAt(t.objs[f.value], now)
               && t.objs[f.value].id == s.queue[0] && t.objs[f.value].createdAt == s.objs[f.value].createdAt
               && forall j :: 0 <= j < |s.objs| && j != f.value ==> t.objs[j] == s.objs[j]
          else t.objs == s.objs && t.workers == s.workers)
  {
    var f := Find(s.objs, s.store, s.queue[0]);
    assert f.Some? ==> JobOk(s.objs[f.value]);
  }
}
