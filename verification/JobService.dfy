/** The service object of app/jobs/service.py over mutable job objects: a store, a queue
    and workers that keep a reference to the job they run.  Each method is one atomic
    stretch of the code and is proved to be the event of `JobModel` with its name. */
module JobService {
  import opened Sequences
  import JobModel
  import JobInvariants
  import JobSafety
  import JobEffects

  class Job {
    const id: string
    const createdAt: int
    var status: JobModel.Status
    var updatedAt: int
    var startedAt: Option<int>
    var finishedAt: Option<int>
    var result: Option<string>
    var error: Option<JobModel.ErrorInfo>

    constructor (id: string, now: int)
      ensures View() == JobModel.NewJob(id, now)
    {
      this.id, this.createdAt := id, now;
      status, updatedAt := JobModel.Queued, now;
      startedAt, finishedAt, result, error := None, None, None, None;
    }

    ghost function View(): JobModel.Job
      reads this
    {
      JobModel.Job(id, status, createdAt, updatedAt, startedAt, finishedAt, result, error)
    }
  }

  /** A worker task: waiting on the queue, running the job it holds, or ended. */
  datatype Task = Waiting | Holding(job: Job) | Ended

  // ------------------------------------- the ordered dictionary of the store

  /** Position of the entry with key `id` in a dictionary listed in insertion order. */
  function KeyIndex(jobs: seq<Job>, id: string): (r: Option<nat>)
    ensures r.Some? ==> r.value < |jobs| && jobs[r.value].id == id
    ensures r.None? ==> forall k :: 0 <= k < |jobs| ==> jobs[k].id != id
  {
    if jobs == [] then None
    else if jobs[0].id == id then Some(0)
    else match KeyIndex(jobs[1..], id) case None => None case Some(k) => Some(k + 1)
  }

  /** The listed objects are those at the given creation indices. */
  ghost predicate At(all: seq<Job>, jobs: seq<Job>, store: seq<nat>) {
    |jobs| == |store| && forall k :: 0 <= k < |store| ==> store[k] < |all| && jobs[k] == all[store[k]]
  }

  ghost predicate Ids(all: seq<Job>, objs: seq<JobModel.Job>) {
    |all| == |objs| && forall i :: 0 <= i < |all| ==> all[i].id == objs[i].id
  }

  lemma {:induction false} KeyIndexIsFind(
    all: seq<Job>, objs: seq<JobModel.Job>, jobs: seq<Job>, store: seq<nat>, id: string)
    requires Ids(all, objs) && At(all, jobs, store)
    ensures JobModel.InRange(objs, store)
    ensures JobModel.Find(objs, store, id)
         == match KeyIndex(jobs, id) case None => None case Some(k) => Some(store[k])
  {
    if jobs != [] {
      KeyIndexIsFind(all, objs, jobs[1..], store[1..], id);
    }
  }

  lemma AtRemove(all: seq<Job>, jobs: seq<Job>, store: seq<nat>, k: nat)
    requires JobModel.Increasing(store) && At(all, jobs, store) && k < |store|
    ensures At(all, jobs[..k] + jobs[k + 1..], Remove(store, store[k]))
  {
    RemoveAt(store, k);
    AtDrop(all, jobs, store, k);
  }

  lemma AtDrop(all: seq<Job>, jobs: seq<Job>, store: seq<nat>, k: nat)
    requires At(all, jobs, store) && k < |store|
    ensures At(all, jobs[..k] + jobs[k + 1..], store[..k] + store[k + 1..])
  {
  }

  // -------------------------------------------------------- sorting by key

  predicate OlderOrEqual(a: (int, Job), b: (int, Job)) { a.0 <= b.0 }

  ghost predicate PairsAt(all: seq<Job>, a: seq<(int, Job)>, b: seq<(int, nat)>) {
    |a| == |b| && forall k :: 0 <= k < |b| ==> b[k].1 < |all| && a[k] == (b[k].0, all[b[k].1])
  }

  lemma {:induction false} InsertAt(all: seq<Job>, x: (int, Job), y: (int, nat), a: seq<(int, Job)>, b: seq<(int, nat)>)
    requires PairsAt(all, a, b) && y.1 < |all| && x == (y.0, all[y.1])
    ensures PairsAt(all, Insert(x, a, OlderOrEqual), Insert(y, b, JobModel.OlderOrEqual))
  {
    if a != [] && !OlderOrEqual(x, a[0]) {
      InsertAt(all, x, y, a[1..], b[1..]);
    }
  }

  lemma {:induction false} SortAt(all: seq<Job>, a: seq<(int, Job)>, b: seq<(int, nat)>)
    requires PairsAt(all, a, b)
    ensures PairsAt(all, Sort(a, OlderOrEqual), Sort(b, JobModel.OlderOrEqual))
  {
    if a != [] {
      SortAt(all, a[1..], b[1..]);
      InsertAt(all, a[0], b[0], Sort(a[1..], OlderOrEqual), Sort(b[1..], JobModel.OlderOrEqual));
    }
  }

  lemma FinishedAppend(objs: seq<JobModel.Job>, store: seq<nat>, k: nat)
    requires JobModel.InRange(objs, store) && k < |store|
    ensures JobModel.Finished(objs, store[..k + 1])
         == JobModel.Finished(objs, store[..k])
            + if JobModel.Terminal(objs[store[k]].status) then [(JobModel.AgeKey(objs[store[k]]), store[k])] else []
  {
    if k == 0 {
    } else {
      FinishedAppend(objs, store[1..], k - 1);
      assert store[1..][..k] == store[..k + 1][1..];
      assert store[1..][..k - 1] == store[..k][1..];
    }
  }

  // ---------------------------------------------------------------- service

  class JobService {
    const maxRetained: int
    var jobs: seq<Job>
    var queue: seq<string>
    var tasks: seq<Task>
    var runningCount: int
    var metrics: JobModel.Counters

    /** Every object ever created, in creation order, and the abstract state. */
    ghost var all: seq<Job>
    ghost var model: JobModel.State

    ghost predicate Represents()
      reads this, all
    {
      && (forall i :: 0 <= i < |all| ==> all[i] as object != this)
      && (forall i, j :: 0 <= i < j < |all| ==> all[i] != all[j])
      && |all| == |model.objs|
      && (forall i :: 0 <= i < |all| ==> all[i].View() == model.objs[i])
      && At(all, jobs, model.store)
      && queue == model.queue && runningCount == model.running && metrics == model.counters
      && maxRetained == model.maxRetained
      && |tasks| == |model.workers|
      && (forall w :: 0 <= w < |tasks| ==>
            match model.workers[w]
            case Idle => tasks[w] == Waiting
            case Busy(i) => i < |all| && tasks[w] == Holding(all[i])
            case Exited => tasks[w] == Ended)
    }

    ghost predicate Valid()
      reads this, all
    {
      Represents() && JobInvariants.Inv(model)
    }

    constructor (concurrency: nat, maxRetained: int)
      ensures Valid() && model == JobModel.Init(concurrency, maxRetained) && all == []
    {
      this.maxRetained := maxRetained;
      jobs, queue, tasks, runningCount := [], [], seq(concurrency, _ => Waiting), 0;
      metrics := JobModel.Counters(0, 0, 0, 0);
      all, model := [], JobModel.Init(concurrency, maxRetained);
      JobSafety.InitInv(concurrency, maxRetained);
    }

    /** The finished jobs of the store with their ages, in store order. */
    method GatherFinished() returns (finished: seq<(int, Job)>)
      requires Represents()
      ensures JobModel.InRange(model.objs, model.store)
      ensures PairsAt(all, finished, JobModel.Finished(model.objs, model.store))
    {
      ghost var objs, store := model.objs, model.store;
      KeyIndexIsFind(all, objs, jobs, store, "");
      finished := [];
      for k := 0 to |jobs|
        invariant PairsAt(all, finished, JobModel.Finished(objs, store[..k]))
      {
        var j := jobs[k];
        assert all[store[k]].View() == objs[store[k]];
        FinishedAppend(objs, store, k);
        if JobModel.Terminal(j.status) {
          finished := finished + [(if j.finishedAt.Some? then j.finishedAt.value else j.createdAt, j)];
        }
      }
      assert store[..|store|] == store;
    }

    /** Deletes the listed jobs from the store. */
    method DeleteEntries(gone: seq<(int, Job)>, ghost victims: seq<(int, nat)>)
      requires JobModel.Increasing(model.store) && At(all, jobs, model.store)
      requires PairsAt(all, gone, victims)
      requires forall l :: 0 <= l < |victims| ==> victims[l].1 in model.store
      requires forall k, l :: 0 <= k < l < |victims| ==> victims[k].1 != victims[l].1
      requires forall k, l :: 0 <= k < l < |all| ==> all[k].id != all[l].id
      modifies this`jobs
      ensures At(all, jobs, JobModel.RemoveAll(model.store, victims))
    {
      ghost var kept := model.store;
      for k := 0 to |gone|
        invariant At(all, jobs, kept) && JobModel.Increasing(kept)
        invariant forall l :: k <= l < |gone| ==> victims[l].1 in kept
        invariant JobModel.RemoveAll(model.store, victims) == JobModel.RemoveAll(kept, victims[k..])
      {
        DeleteEntry(gone[k].1.id, kept, victims[k].1);
        JobInvariants.RemoveMembers(kept, victims[k].1);
        kept := Remove(kept, victims[k].1);
        assert victims[k..][1..] == victims[k + 1..];
      }
    }

    /** `_evict_oldest_finished`: gather the finished jobs, sort them, delete a prefix. */
    method EvictOldestFinished()
      requires Represents() && JobInvariants.Shape(model)
      modifies this`jobs
      ensures At(all, jobs, JobModel.Evict(model.objs, model.store, maxRetained))
    {
      if |jobs| < maxRetained {
        return;
      }
      var finished := GatherFinished();
      ghost var pairs := JobModel.Finished(model.objs, model.store);
      SortAt(all, finished, pairs);
      finished := Sort(finished, OlderOrEqual);
      var toRemove := |jobs| - maxRetained + 1;
      JobInvariants.VictimsFinished(model.objs, model.store, maxRetained);
      IdsDistinct();
      DeleteEntries(finished[..Min(toRemove, |finished|)], JobModel.Victims(model.objs, model.store, maxRetained));
    }

    lemma IdsDistinct()
      requires Represents() && JobInvariants.Shape(model)
      ensures forall k, l :: 0 <= k < l < |all| ==> all[k].id != all[l].id
    {
      forall k, l | 0 <= k < l < |all|
        ensures all[k].id != all[l].id
      {
        assert all[k].View() == model.objs[k] && all[l].View() == model.objs[l];
      }
    }

    /** `del self._jobs[jid]`. */
    method DeleteEntry(id: string, ghost kept: seq<nat>, ghost i: nat)
      requires JobModel.Increasing(kept) && At(all, jobs, kept)
      requires i in kept && i < |all| && all[i].id == id
      requires forall k, l :: 0 <= k < l < |all| ==> all[k].id != all[l].id
      modifies this`jobs
      ensures At(all, jobs, Remove(kept, i))
    {
      var k := KeyIndex(jobs, id);
      ghost var m :| 0 <= m < |kept| && kept[m] == i;
      assert jobs[m].id == id;
      assert k.Some? && kept[k.value] == i;
      AtRemove(all, jobs, kept, k.value);
      jobs := jobs[..k.value] + jobs[k.value + 1..];
    }

    /** Each request or worker method is a body that keeps the representation, then the
        invariant of the abstract step. */
    method CreateJob(id: string, now: int) returns (job: Job)
      requires Valid() && JobModel.Fresh(model.objs, id)
      modifies this
      ensures Valid() && fresh(job) && all == old(all) + [job]
      ensures model == JobModel.Step(old(model), JobModel.Create(id, now))
      ensures job.View() == JobModel.Job(id, JobModel.Queued, now, now, None, None, None, None)
      ensures queue == old(queue) + [id] && job in jobs
    {
      JobSafety.StepInv(model, JobModel.Create(id, now));
      job := CreateBody(id, now);
    }

    method CreateBody(id: string, now: int) returns (job: Job)
      requires Represents() && JobInvariants.Shape(model)
      modifies this
      ensures Represents() && fresh(job) && all == old(all) + [job]
      ensures JobModel.InRange(old(model).objs, old(model).store)
      ensures model == JobModel.DoCreate(old(model), id, now)
      ensures job.View() == JobModel.Job(id, JobModel.Queued, now, now, None, None, None, None)
      ensures queue == old(queue) + [id] && job in jobs
    {
      EvictOldestFinished();
      job := new Job(id, now);
      jobs := jobs + [job];
      queue := queue + [id];
      metrics := metrics.(created := metrics.created + 1);
      all := all + [job];
      model := JobModel.DoCreate(model, id, now);
    }

    method CancelJob(id: string, now: int) returns (found: bool)
      requires Valid()
      modifies this, all
      ensures Valid() && all == old(all)
      ensures model == JobModel.Step(old(model), JobModel.Cancel(id, now))
      ensures found <==> exists k :: 0 <= k < |jobs| && jobs[k].id == id
    {
      JobSafety.StepInv(model, JobModel.Cancel(id, now));
      found := CancelBody(id, now);
    }

    method CancelBody(id: string, now: int) returns (found: bool)
      requires Represents()
      modifies this, all
      ensures Represents() && all == old(all)
      ensures JobModel.InRange(old(model).objs, old(model).store)
      ensures model == JobModel.DoCancel(old(model), id, now)
      ensures found <==> exists k :: 0 <= k < |jobs| && jobs[k].id == id
    {
      KeyIndexIsFind(all, model.objs, jobs, model.store, id);
      var k := KeyIndex(jobs, id);
      found := k.Some?;
      if k.Some? {
        var job := jobs[k.value];
        assert job.View() == model.objs[model.store[k.value]];
        if job.status == JobModel.Queued {
          ghost var m := JobModel.DoCancel(model, id, now);
          job.status := JobModel.Cancelled;
          job.updatedAt := now;
          metrics := metrics.(cancelled := metrics.cancelled + 1);
          model := m;
        }
      }
    }

    method DeleteJob(id: string) returns (found: bool)
      requires Valid()
      modifies this
      ensures Valid() && all == old(all)
      ensures model == JobModel.Step(old(model), JobModel.Delete(id))
      ensures found <==> exists k :: 0 <= k < |old(jobs)| && old(jobs)[k].id == id
    {
      JobSafety.StepInv(model, JobModel.Delete(id));
      found := DeleteBody(id);
    }

    method DeleteBody(id: string) returns (found: bool)
      requires Represents() && JobModel.Increasing(model.store)
      modifies this
      ensures Represents() && all == old(all)
      ensures JobModel.InRange(old(model).objs, old(model).store)
      ensures model == JobModel.DoDelete(old(model), id)
      ensures found <==> exists k :: 0 <= k < |old(jobs)| && old(jobs)[k].id == id
    {
      KeyIndexIsFind(all, model.objs, jobs, model.store, id);
      var k := KeyIndex(jobs, id);
      found := k.Some?;
      if k.Some? {
        AtRemove(all, jobs, model.store, k.value);
        jobs := jobs[..k.value] + jobs[k.value + 1..];
      }
      model := JobModel.DoDelete(model, id);
    }

    /** The worker loop from `queue.get` up to the scrape. */
    method TakeJob(w: nat, now: int) returns (started: bool)
      requires Valid() && w < |tasks| && tasks[w].Waiting? && queue != []
      modifies this, all
      ensures Valid() && all == old(all)
      ensures model == JobModel.Step(old(model), JobModel.Dequeue(w, now))
      ensures started <==> tasks[w].Holding?
      ensures queue == old(queue)[1..]
      ensures started ==> tasks[w].job.id == old(queue)[0] && JobEffects.StartedAt(tasks[w].job.View(), now)
    {
      JobEffects.TakenFromHead(model, w, now);
      JobSafety.StepInv(model, JobModel.Dequeue(w, now));
      started := TakeBody(w, now);
    }

    method TakeBody(w: nat, now: int) returns (started: bool)
      requires Represents() && w < |tasks| && tasks[w].Waiting? && queue != []
      modifies this, all
      ensures Represents() && all == old(all)
      ensures JobModel.InRange(old(model).objs, old(model).store)
      ensures JobModel.Enabled(old(model), JobModel.Dequeue(w, now))
      ensures model == JobModel.DoDequeue(old(model), w, now)
      ensures started <==> tasks[w].Holding?
    {
      KeyIndexIsFind(all, model.objs, jobs, model.store, queue[0]);
      var k := KeyIndex(jobs, queue[0]);
      ghost var i := if k.Some? then model.store[k.value] else 0;
      if k.Some? && jobs[k.value].status == JobModel.Queued {
        started := true;
        StartBody(w, jobs[k.value], i, now);
      } else {
        assert k.Some? ==> jobs[k.value].View() == model.objs[i];
        started := false;
        queue := queue[1..];
        model := JobModel.DoDequeue(model, w, now);
      }
    }

    /** The head of the queue names the queued job `job`: run it. */
    method StartBody(w: nat, job: Job, ghost i: nat, now: int)
      requires Represents() && w < |tasks| && tasks[w].Waiting? && queue != []
      requires job.status.Queued? && i < |all| && all[i] == job
      requires JobModel.InRange(model.objs, model.store)
      requires JobModel.Find(model.objs, model.store, queue[0]) == Some(i)
      modifies this, job
      ensures Represents() && all == old(all) && w < |tasks| && tasks[w].Holding?
      ensures JobModel.Enabled(old(model), JobModel.Dequeue(w, now))
      ensures model == JobModel.DoDequeue(old(model), w, now)
    {
      assert job.View() == model.objs[i];
      queue := queue[1..];
      Begin(job, now);
      runningCount := runningCount + 1;
      tasks := tasks[w := Holding(job)];
      model := JobModel.DoDequeue(model, w, now);
    }

    static method Begin(job: Job, now: int)
      modifies job
      ensures job.View() == old(job.View()).(status := JobModel.Running, startedAt := Some(now), updatedAt := now)
    {
      job.status := JobModel.Running;
      job.startedAt := Some(now);
      job.updatedAt := now;
    }

    /** The worker loop from the end of the scrape back to `queue.get`, on every path of
        its `try` statement. */
    method FinishJob(w: nat, outcome: JobModel.Outcome, now: int)
      requires Valid() && w < |tasks| && tasks[w].Holding?
      modifies this, all
      ensures Valid() && all == old(all)
      ensures JobModel.Enabled(old(model), JobModel.Finish(w, outcome, now))
      ensures model == JobModel.Step(old(model), JobModel.Finish(w, outcome, now))
      ensures JobEffects.RecordOf(old(tasks[w].job).View(), outcome, now)
      ensures JobEffects.SameOrigin(old(tasks[w].job).View(), old(tasks[w].job.View()))
      ensures tasks == old(tasks)[w := if outcome.TaskCancelled? then Ended else Waiting]
    {
      assert tasks[w].job.View() == model.objs[model.workers[w].job];
      assert JobInvariants.JobOk(tasks[w].job.View());
      JobSafety.StepInv(model, JobModel.Finish(w, outcome, now));
      FinishBody(w, outcome, now);
    }

    method FinishBody(w: nat, outcome: JobModel.Outcome, now: int)
      requires Represents() && w < |tasks| && tasks[w].Holding?
      modifies this, all
      ensures Represents() && all == old(all)
      ensures JobModel.Enabled(old(model), JobModel.Finish(w, outcome, now))
      ensures model == JobModel.DoFinish(old(model), w, outcome, now)
      ensures old(tasks[w].job.result).None? && old(tasks[w].job.error).None? ==>
        JobEffects.RecordOf(old(tasks[w].job).View(), outcome, now)
      ensures JobEffects.SameOrigin(old(tasks[w].job).View(), old(tasks[w].job.View()))
      ensures tasks == old(tasks)[w := if outcome.TaskCancelled? then Ended else Waiting]
    {
      var job := tasks[w].job;
      ghost var i := model.workers[w].job;
      assert job == all[i] && job.View() == model.objs[i];
      Conclude(job, outcome, now);
      metrics := JobModel.Count(metrics, outcome);
      runningCount := runningCount - 1;
      tasks := tasks[w := if outcome.TaskCancelled? then Ended else Waiting];
      model := JobModel.DoFinish(model, w, outcome, now);
    }

    static method Conclude(job: Job, outcome: JobModel.Outcome, now: int)
      modifies job
      ensures job.View() == JobModel.Conclude(old(job.View()), outcome, now)
      ensures old(job.result).None? && old(job.error).None? ==> JobEffects.RecordOf(job.View(), outcome, now)
      ensures JobEffects.SameOrigin(job.View(), old(job.View()))
    {
      match outcome {
        case Done(r) =>
          job.result := Some(r);
          job.status := JobModel.Succeeded;
        case ScrapeFailed(p) =>
          job.error := Some(JobModel.Scraper(p));
          job.status := JobModel.Failed;
        case Crashed(m) =>
          job.error := Some(JobModel.Internal(m));
          job.status := JobModel.Failed;
        case TaskCancelled =>
          job.status := JobModel.Cancelled;
      }
      job.finishedAt := Some(now);
      job.updatedAt := now;
    }

    /** `stop` cancels a worker that waits on the queue. */
    method StopWaiting(w: nat)
      requires Valid() && w < |tasks| && tasks[w].Waiting?
      modifies this
      ensures Valid() && all == old(all)
      ensures model == JobModel.Step(old(model), JobModel.StopIdle(w))
    {
      JobSafety.StepInv(model, JobModel.StopIdle(w));
      tasks := tasks[w := Ended];
      model := JobModel.Step(model, JobModel.StopIdle(w));
    }
  }
}
