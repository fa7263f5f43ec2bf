/** The asynchronous job service as a transition system (app/jobs/service.py).

    No lock block of the service contains an `await`, so every stretch of code between
    two suspensions (`queue.get`, `scraper.scrape`) is one atomic event.  Job objects are
    shared between the store and the worker that runs them: an object is identified by
    its creation index, `store` is the dictionary of stored objects in insertion order,
    and a busy worker keeps its object even after a deletion from the store. */
module JobModel {
  import opened Sequences

  datatype Status = Queued | Running | Succeeded | Failed | Cancelled

  predicate Terminal(status: Status) { status.Succeeded? || status.Failed? || status.Cancelled? }

  datatype ErrorInfo = Scraper(payload: string) | Internal(message: string)

  datatype Job = Job(
    id: string, status: Status, createdAt: int, updatedAt: int, startedAt: Option<int>, finishedAt: Option<int>,
    result: Option<string>, error: Option<ErrorInfo>)

  datatype Worker = Idle | Busy(job: nat) | Exited

  datatype Counters = Counters(created: nat, succeeded: nat, failed: nat, cancelled: nat)

  /** `started` and `deletedQueued` are history: which objects were started, in order,
      and how many jobs were deleted while queued. */
  datatype State = State(
    maxRetained: int, objs: seq<Job>, store: seq<nat>, queue: seq<string>, workers: seq<Worker>,
    running: int, counters: Counters, started: seq<nat>, deletedQueued: nat)

  function Init(concurrency: nat, maxRetained: int): State {
    State(maxRetained, [], [], [], seq(concurrency, _ => Idle), 0, Counters(0, 0, 0, 0), [], 0)
  }

  predicate InRange(objs: seq<Job>, store: seq<nat>) {
    forall k :: 0 <= k < |store| ==> store[k] < |objs|
  }

  predicate Increasing(s: seq<nat>) {
    forall i, j :: 0 <= i < j < |s| ==> s[i] < s[j]
  }

  // -------------------------------------------------------------- the store

  /** `self._jobs.get(job_id)`. */
  function Find(objs: seq<Job>, store: seq<nat>, id: string): (r: Option<nat>)
    requires InRange(objs, store)
    ensures r.Some? ==> r.value in store && objs[r.value].id == id
    ensures r.None? ==> forall k :: 0 <= k < |store| ==> objs[store[k]].id != id
  {
    if store == [] then None
    else if objs[store[0]].id == id then Some(store[0])
    else Find(objs, store[1..], id)
  }

  // -------------------------------------------------------------- retention

  function AgeKey(job: Job): int {
    if job.finishedAt.Some? then job.finishedAt.value else job.createdAt
  }

  function Finished(objs: seq<Job>, store: seq<nat>): (r: seq<(int, nat)>)
    requires InRange(objs, store)
  {
    if store == [] then []
    else if Terminal(objs[store[0]].status) then
      [(AgeKey(objs[store[0]]), store[0])] + Finished(objs, store[1..])
    else Finished(objs, store[1..])
  }

  predicate OlderOrEqual(a: (int, nat), b: (int, nat)) { a.0 <= b.0 }

  /** Number of jobs to drop so that one more fits. */
  function Surplus(stored: nat, maxRetained: int): nat {
    if stored < maxRetained then 0 else stored - maxRetained + 1
  }

  function Victims(objs: seq<Job>, store: seq<nat>, maxRetained: int): seq<(int, nat)>
    requires InRange(objs, store)
  {
    var sorted := Sort(Finished(objs, store), OlderOrEqual);
    sorted[..Min(Surplus(|store|, maxRetained), |sorted|)]
  }

  function RemoveAll(store: seq<nat>, gone: seq<(int, nat)>): seq<nat>
    decreases gone
  {
    if gone == [] then store else RemoveAll(Remove(store, gone[0].1), gone[1..])
  }

  function Evict(objs: seq<Job>, store: seq<nat>, maxRetained: int): seq<nat>
    requires InRange(objs, store)
  {
    RemoveAll(store, Victims(objs, store, maxRetained))
  }

  // ----------------------------------------------------------------- events

  datatype Outcome = Done(result: string) | ScrapeFailed(payload: string) | Crashed(message: string) | TaskCancelled

  datatype Event =
    | Create(id: string, now: int)
    | Cancel(id: string, now: int)
    | Delete(id: string)
    | Dequeue(worker: nat, now: int)
    | Finish(worker: nat, outcome: Outcome, now: int)
    | StopIdle(worker: nat)

  /** Job identifiers are 128 random bits: taken to be new. */
  predicate Fresh(objs: seq<Job>, id: string) {
    forall i :: 0 <= i < |objs| ==> objs[i].id != id
  }

  predicate Enabled(s: State, e: Event) {
    match e
    case Create(id, _) => Fresh(s.objs, id)
    case Cancel(_, _) => true
    case Delete(_) => true
    case Dequeue(w, _) => w < |s.workers| && s.workers[w].Idle? && s.queue != []
    case Finish(w, _, _) => w < |s.workers| && s.workers[w].Busy? && s.workers[w].job < |s.objs|
    case StopIdle(w) => w < |s.workers| && s.workers[w].Idle?
  }

  function NewJob(id: string, now: int): Job { Job(id, Queued, now, now, None, None, None, None) }

  function DoCreate(s: State, id: string, now: int): State
    requires InRange(s.objs, s.store)
  {
    s.(objs := s.objs + [NewJob(id, now)],
       store := Evict(s.objs, s.store, s.maxRetained) + [|s.objs|],
       queue := s.queue + [id],
       counters := s.counters.(created := s.counters.created + 1))
  }

  function DoCancel(s: State, id: string, now: int): State
    requires InRange(s.objs, s.store)
  {
    match Find(s.objs, s.store, id)
    case None => s
    case Some(i) =>
      if s.objs[i].status != Queued then s
      else s.(objs := s.objs[i := s.objs[i].(status := Cancelled, updatedAt := now)],
              counters := s.counters.(cancelled := s.counters.cancelled + 1))
  }

  function DoDelete(s: State, id: string): State
    requires InRange(s.objs, s.store)
  {
    match Find(s.objs, s.store, id)
    case None => s
    case Some(i) =>
      s.(store := Remove(s.store, i),
         deletedQueued := s.deletedQueued + if s.objs[i].status == Queued then 1 else 0)
  }

  /** A woken worker takes the head of the queue: a deleted or cancelled job is skipped,
      a queued one is started. */
  function DoDequeue(s: State, w: nat, now: int): State
    requires InRange(s.objs, s.store) && Enabled(s, Dequeue(w, now))
  {
    var s1 := s.(queue := s.queue[1..]);
    match Find(s.objs, s.store, s.queue[0])
    case None => s1
    case Some(i) =>
      if s.objs[i].status != Queued then s1
      else s1.(objs := s.objs[i := s.objs[i].(status := Running, startedAt := Some(now), updatedAt := now)],
               running := s.running + 1,
               workers := s.workers[w := Busy(i)],
               started := s.started + [i])
  }

  function Conclude(job: Job, outcome: Outcome, now: int): Job {
    var j := match outcome
      case Done(r) => job.(result := Some(r), status := Succeeded)
      case ScrapeFailed(p) => job.(error := Some(Scraper(p)), status := Failed)
      case Crashed(m) => job.(error := Some(Internal(m)), status := Failed)
      case TaskCancelled => job.(status := Cancelled);
    j.(finishedAt := Some(now), updatedAt := now)
  }

  function Count(c: Counters, outcome: Outcome): Counters {
    match outcome
    case Done(_) => c.(succeeded := c.succeeded + 1)
    case ScrapeFailed(_) => c.(failed := c.failed + 1)
    case Crashed(_) => c.(failed := c.failed + 1)
    case TaskCancelled => c.(cancelled := c.cancelled + 1)
  }

  function DoFinish(s: State, w: nat, outcome: Outcome, now: int): State
    requires Enabled(s, Finish(w, outcome, now))
  {
    var i := s.workers[w].job;
    s.(objs := s.objs[i := Conclude(s.objs[i], outcome, now)],
       workers := s.workers[w := if outcome.TaskCancelled? then Exited else Idle],
       running := s.running - 1,
       counters := Count(s.counters, outcome))
  }

  function Step(s: State, e: Event): State
    requires InRange(s.objs, s.store) && Enabled(s, e)
  {
    match e
    case Create(id, now) => DoCreate(s, id, now)
    case Cancel(id, now) => DoCancel(s, id, now)
    case Delete(id) => DoDelete(s, id)
    case Dequeue(w, now) => DoDequeue(s, w, now)
    case Finish(w, outcome, now) => DoFinish(s, w, outcome, now)
    case StopIdle(w) => s.(workers := s.workers[w := Exited])
  }
}
