/** What every reachable state of the job service satisfies, under any interleaving of
    requests and workers. */
module JobInvariants {
  import opened Sequences
  import opened JobModel

  // ------------------------------------------------------------- invariants

  /** Objects below `Base` have left the queue. */
  function Base(s: State): int { |s.objs| - |s.queue| }

  ghost predicate Shape(s: State) {
    && InRange(s.objs, s.store) && Increasing(s.store)
    && (forall i, j :: 0 <= i < j < |s.objs| ==> s.objs[i].id != s.objs[j].id)
    && |s.queue| <= |s.objs|
    && (forall k :: 0 <= k < |s.queue| ==> s.queue[k] == s.objs[Base(s) + k].id)
  }

  ghost predicate JobOk(job: Job) {
    && (job.result.Some? <==> job.status.Succeeded?)
    && (job.error.Some? <==> job.status.Failed?)
    && (job.status.Queued? ==> job.startedAt.None? && job.finishedAt.None?)
    && (job.status in {Running, Succeeded, Failed} ==> job.startedAt.Some?)
    && (job.finishedAt.Some? <==> Terminal(job.status) && job.startedAt.Some?)
  }

  ghost predicate Statuses(s: State) {
    && (forall i :: 0 <= i < |s.objs| ==> JobOk(s.objs[i]))
    && (forall k :: 0 <= k < |s.store| && s.store[k] < |s.objs| && s.store[k] < Base(s)
          ==> !s.objs[s.store[k]].status.Queued?)
    && (forall i :: 0 <= Base(s) <= i < |s.objs| ==> s.objs[i].status in {Queued, Cancelled})
  }

  ghost predicate Holding(s: State) {
    && (forall w :: 0 <= w < |s.workers| && s.workers[w].Busy? ==>
          && s.workers[w].job < |s.objs| && s.workers[w].job < Base(s)
          && s.objs[s.workers[w].job].status.Running?)
    && (forall w, v :: 0 <= w < v < |s.workers| && s.workers[w].Busy? && s.workers[v].Busy?
          ==> s.workers[w].job != s.workers[v].job)
    && (forall i :: 0 <= i < |s.objs| && s.objs[i].status.Running? ==> Busy(i) in s.workers)
  }

  ghost predicate Starts(s: State) {
    && Increasing(s.started)
    && (forall k :: 0 <= k < |s.started| ==> s.started[k] < Base(s))
    && (forall i :: 0 <= i < |s.objs| ==> (i in s.started <==> s.objs[i].startedAt.Some?))
  }

  function CountAll(objs: seq<Job>, status: Status): nat {
    if objs == [] then 0
    else CountAll(objs[..|objs| - 1], status) + if objs[|objs| - 1].status == status then 1 else 0
  }

  function CountStored(objs: seq<Job>, store: seq<nat>, status: Status): nat
    requires InRange(objs, store)
  {
    if store == [] then 0
    else (if objs[store[0]].status == status then 1 else 0) + CountStored(objs, store[1..], status)
  }

  function CountBusy(workers: seq<Worker>): nat {
    if workers == [] then 0 else (if workers[0].Busy? then 1 else 0) + CountBusy(workers[1..])
  }

  ghost predicate Counted(s: State) {
    && InRange(s.objs, s.store)
    && s.running == CountBusy(s.workers) == CountAll(s.objs, Running)
    && s.counters.created == |s.objs|
    && s.counters.succeeded == CountAll(s.objs, Succeeded)
    && s.counters.failed == CountAll(s.objs, Failed)
    && s.counters.cancelled == CountAll(s.objs, Cancelled)
    && CountAll(s.objs, Queued) == CountStored(s.objs, s.store, Queued) + s.deletedQueued
  }

  ghost predicate Inv(s: State) {
    Shape(s) && Statuses(s) && Holding(s) && Starts(s) && Counted(s)
  }

  // --------------------------------------------------------- counting lemmas

  lemma {:induction false} CountAllUpdate(objs: seq<Job>, i: nat, x: Job, status: Status)
    requires i < |objs|
    ensures CountAll(objs[i := x], status)
         == CountAll(objs, status) - (if objs[i].status == status then 1 else 0) + (if x.status == status then 1 else 0)
  {
    var n := |objs| - 1;
    if i < n {
      CountAllUpdate(objs[..n], i, x, status);
      assert objs[i := x][..n] == objs[..n][i := x];
    } else {
      assert objs[i := x][..n] == objs[..n];
    }
  }

  lemma CountAllAppend(objs: seq<Job>, x: Job, status: Status)
    ensures CountAll(objs + [x], status) == CountAll(objs, status) + if x.status == status then 1 else 0
  {
    assert (objs + [x])[..|objs|] == objs;
  }

  /** The five statuses partition the objects. */
  lemma {:induction false} CountAllTotal(objs: seq<Job>)
    ensures CountAll(objs, Queued) + CountAll(objs, Running) + CountAll(objs, Succeeded)
          + CountAll(objs, Failed) + CountAll(objs, Cancelled) == |objs|
  {
    if objs != [] {
      CountAllTotal(objs[..|objs| - 1]);
    }
  }

  lemma CountStoredSame(objs: seq<Job>, objs': seq<Job>, store: seq<nat>, status: Status)
    requires InRange(objs, store) && InRange(objs', store)
    requires forall k :: 0 <= k < |store| ==> objs'[store[k]].status == objs[store[k]].status
    ensures CountStored(objs', store, status) == CountStored(objs, store, status)
  {
  }

  lemma {:induction false} CountStoredUpdate(objs: seq<Job>, store: seq<nat>, i: nat, x: Job, status: Status)
    requires InRange(objs, store) && Increasing(store) && i in store
    ensures i < |objs| && InRange(objs[i := x], store)
    ensures CountStored(objs[i := x], store, status)
         == CountStored(objs, store, status)
            - (if objs[i].status == status then 1 else 0) + (if x.status == status then 1 else 0)
  {
    if store[0] == i {
      CountStoredSame(objs, objs[i := x], store[1..], status);
    } else {
      CountStoredUpdate(objs, store[1..], i, x, status);
    }
  }

  lemma CountStoredAppend(objs: seq<Job>, store: seq<nat>, i: nat, status: Status)
    requires InRange(objs, store) && i < |objs|
    ensures CountStored(objs, store + [i], status)
         == CountStored(objs, store, status) + if objs[i].status == status then 1 else 0
  {
    if store == [] {
      assert store + [i] == [i];
    } else {
      CountStoredAppend(objs, store[1..], i, status);
      assert (store + [i])[1..] == store[1..] + [i];
    }
  }

  lemma CountBusyUpdate(workers: seq<Worker>, w: nat, x: Worker)
    requires w < |workers|
    ensures CountBusy(workers[w := x])
         == CountBusy(workers) - (if workers[w].Busy? then 1 else 0) + if x.Busy? then 1 else 0
  {
    if w > 0 {
      CountBusyUpdate(workers[1..], w - 1, x);
      assert workers[w := x][1..] == workers[1..][w - 1 := x];
    } else {
      assert workers[w := x][1..] == workers[1..];
    }
  }

  lemma CountBusyBound(workers: seq<Worker>)
    ensures CountBusy(workers) <= |workers|
  {
  }

  // ----------------------------------------------------------- store lemmas

  lemma RemoveMembers(store: seq<nat>, i: nat)
    requires Increasing(store)
    ensures Increasing(Remove(store, i))
    ensures forall j :: j in Remove(store, i) <==> j in store && j != i
    ensures |Remove(store, i)| == |store| - if i in store then 1 else 0
  {
    if i in store {
      var k :| 0 <= k < |store| && store[k] == i;
      RemoveAt(store, k);
      DropMembers(store, k);
    } else {
      RemoveAbsent(store, i);
    }
  }

  lemma DropMembers(store: seq<nat>, k: nat)
    requires Increasing(store) && k < |store|
    ensures var r := store[..k] + store[k + 1..];
      Increasing(r) && forall j :: j in r <==> j in store && j != store[k]
  {
    assert store == store[..k] + [store[k]] + store[k + 1..];
  }

  lemma InRangeOfMembers(objs: seq<Job>, store: seq<nat>, sub: seq<nat>)
    requires InRange(objs, store) && forall j :: j in sub ==> j in store
    ensures InRange(objs, sub)
  {
    forall k | 0 <= k < |sub|
      ensures sub[k] < |objs|
    {
      assert sub[k] in store;
    }
  }

  lemma {:induction false} RemoveCount(objs: seq<Job>, store: seq<nat>, i: nat, status: Status)
    requires InRange(objs, store) && Increasing(store)
    ensures InRange(objs, Remove(store, i))
    ensures CountStored(objs, Remove(store, i), status)
         == CountStored(objs, store, status)
            - if i in store && objs[i].status == status then 1 else 0
  {
    RemoveMembers(store, i);
    InRangeOfMembers(objs, store, Remove(store, i));
    if store != [] {
      if store[0] != i {
        RemoveCount(objs, store[1..], i, status);
        var r := Remove(store[1..], i);
        assert ([store[0]] + r)[1..] == r;
        assert i in store <==> i in store[1..];
      }
    }
  }

  ghost predicate Targets(objs: seq<Job>, store: seq<nat>, gone: seq<(int, nat)>) {
    && (forall k :: 0 <= k < |gone| ==> gone[k].1 in store && gone[k].1 < |objs| && Terminal(objs[gone[k].1].status))
    && (forall k, l :: 0 <= k < l < |gone| ==> gone[k].1 != gone[l].1)
  }

  /** Removing one target leaves the others. */
  lemma RemoveTarget(objs: seq<Job>, store: seq<nat>, gone: seq<(int, nat)>, status: Status)
    requires InRange(objs, store) && Increasing(store) && gone != [] && Targets(objs, store, gone)
    ensures var r := Remove(store, gone[0].1);
      && InRange(objs, r) && Increasing(r) && |r| == |store| - 1 && Targets(objs, r, gone[1..])
      && (forall j :: j in r <==> j in store && j != gone[0].1)
      && (!Terminal(status) ==> CountStored(objs, r, status) == CountStored(objs, store, status))
  {
    RemoveMembers(store, gone[0].1);
    RemoveCount(objs, store, gone[0].1, status);
  }

  lemma {:induction false} RemoveAllProperties(
    objs: seq<Job>, store: seq<nat>, gone: seq<(int, nat)>, status: Status)
    requires InRange(objs, store) && Increasing(store) && Targets(objs, store, gone)
    ensures var r := RemoveAll(store, gone);
      && InRange(objs, r) && Increasing(r) && |r| == |store| - |gone|
      && (forall j :: j in r <==> j in store && forall k :: 0 <= k < |gone| ==> gone[k].1 != j)
      && (!Terminal(status) ==> CountStored(objs, r, status) == CountStored(objs, store, status))
    decreases gone
  {
    if gone != [] {
      RemoveTarget(objs, store, gone, status);
      RemoveAllProperties(objs, Remove(store, gone[0].1), gone[1..], status);
    }
  }

  lemma {:induction false} FinishedProperties(objs: seq<Job>, store: seq<nat>)
    requires InRange(objs, store) && Increasing(store)
    ensures var f := Finished(objs, store);
      && |f| <= |store|
      && (forall k :: 0 <= k < |f| ==>
            f[k].1 in store && Terminal(objs[f[k].1].status) && f[k].0 == AgeKey(objs[f[k].1]))
      && (forall k, l :: 0 <= k < l < |f| ==> f[k].1 < f[l].1)
      && (forall i :: i in store && Terminal(objs[i].status) ==> (AgeKey(objs[i]), i) in f)
  {
    if store != [] {
      FinishedProperties(objs, store[1..]);
      var f := Finished(objs, store[1..]);
      assert forall k :: 0 <= k < |f| ==> f[k].1 in store[1..];
    }
  }

  /** Oldest first; equal ages in store order. */
  predicate OlderThen(a: (int, nat), b: (int, nat)) { a.0 < b.0 || (a.0 == b.0 && a.1 <= b.1) }

  lemma OlderThenTotal()
    ensures TotalPreorder(OlderThen)
  {
  }

  lemma {:induction false} StableInsert(x: (int, nat), s: seq<(int, nat)>)
    requires forall y :: y in s ==> x.1 <= y.1
    ensures Insert(x, s, OlderOrEqual) == Insert(x, s, OlderThen)
  {
    if s != [] && !OlderOrEqual(x, s[0]) {
      StableInsert(x, s[1..]);
    }
  }

  lemma {:induction false} StableSort(s: seq<(int, nat)>)
    requires forall k, l :: 0 <= k < l < |s| ==> s[k].1 < s[l].1
    ensures Sort(s, OlderOrEqual) == Sort(s, OlderThen)
  {
    if s != [] {
      StableSort(s[1..]);
      SortMultiset(s[1..], OlderOrEqual);
      StableInsert(s[0], Sort(s[1..], OlderOrEqual));
    }
  }

  /** The list the victims are cut from: every finished job once, oldest first. */
  lemma SortedFinished(objs: seq<Job>, store: seq<nat>)
    requires InRange(objs, store) && Increasing(store)
    ensures var f := Finished(objs, store);
      var sorted := Sort(f, OlderOrEqual);
      && |sorted| == |f| && Sorted(sorted, OlderThen)
      && (forall x :: x in sorted <==> x in f)
      && (forall k, l :: 0 <= k < l < |sorted| ==> sorted[k].1 != sorted[l].1)
  {
    var f := Finished(objs, store);
    FinishedProperties(objs, store);
    StableSort(f);
    OlderThenTotal();
    SortSorted(f, OlderThen);
    SortMultiset(f, OlderThen);
    DistinctSecond(f, Sort(f, OlderOrEqual));
  }

  /** The victims are distinct stored jobs in a terminal state, as many as the surplus if
      there are that many. */
  lemma VictimsFinished(objs: seq<Job>, store: seq<nat>, maxRetained: int)
    requires InRange(objs, store) && Increasing(store)
    ensures var v := Victims(objs, store, maxRetained);
      && Targets(objs, store, v)
      && |v| == Min(Surplus(|store|, maxRetained), |Finished(objs, store)|)
      && (forall k :: 0 <= k < |v| ==> v[k].0 == AgeKey(objs[v[k].1]))
  {
    var f := Finished(objs, store);
    var sorted := Sort(f, OlderOrEqual);
    FinishedProperties(objs, store);
    SortedFinished(objs, store);
    var v := Victims(objs, store, maxRetained);
    forall k | 0 <= k < |v|
      ensures v[k] in f
    {
      assert v[k] == sorted[k];
    }
  }

  /** Every finished job that stays is at least as young as every victim. */
  lemma VictimsOldest(objs: seq<Job>, store: seq<nat>, maxRetained: int, k: nat, i: nat)
    requires InRange(objs, store) && Increasing(store)
    requires var v := Victims(objs, store, maxRetained);
      && k < |v| && i in store && Terminal(objs[i].status)
      && (forall l :: 0 <= l < |v| ==> v[l].1 != i)
    ensures OlderThen(Victims(objs, store, maxRetained)[k], (AgeKey(objs[i]), i))
  {
    var sorted := Sort(Finished(objs, store), OlderOrEqual);
    FinishedProperties(objs, store);
    SortedFinished(objs, store);
    var v := Victims(objs, store, maxRetained);
    var p := (AgeKey(objs[i]), i);
    assert p in sorted;
    var m :| 0 <= m < |sorted| && sorted[m] == p;
    assert forall l :: 0 <= l < |v| ==> v[l] == sorted[l] && sorted[l].1 != i;
    assert v[k] == sorted[k];
  }

  lemma DistinctSecond(f: seq<(int, nat)>, g: seq<(int, nat)>)
    requires forall k, l :: 0 <= k < l < |f| ==> f[k].1 < f[l].1
    requires multiset(f) == multiset(g)
    ensures |g| == |f|
    ensures forall k, l :: 0 <= k < l < |g| ==> g[k].1 != g[l].1
  {
    SameMultisetSameElements(f, g);
    forall k, l | 0 <= k < l < |g|
      ensures g[k].1 != g[l].1
    {
      if g[k].1 == g[l].1 {
        assert g[k] in f && g[l] in f;
        assert g[k] == g[l];
        assert multiset(g)[g[k]] >= 2 by {
          assert g == g[..l] + [g[l]] + g[l + 1..];
          assert g[k] in g[..l];
          assert g[k] in multiset(g[..l]);
        }
        SimpleCount(f, g[k]);
      }
    }
  }

  lemma {:induction false} SimpleCount(f: seq<(int, nat)>, x: (int, nat))
    requires forall k, l :: 0 <= k < l < |f| ==> f[k].1 < f[l].1
    ensures multiset(f)[x] <= 1
  {
    if f != [] {
      SimpleCount(f[1..], x);
      assert f == [f[0]] + f[1..];
      if f[0] == x {
        assert x !in f[1..];
        assert x !in multiset(f[1..]);
      }
    }
  }
}
