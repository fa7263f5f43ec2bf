/** The life of the drivers of one browser fetcher as a transition system
    (app/scraper/browser_fetcher.py).  Everything that touches the driver runs under the
    fetcher's lock, so a fetch, a close and a timer callback are atomic events.  A callback
    of any timer ever started may come at any moment, even after it was cancelled: it may
    have been waiting for the lock. */
module FetcherModel {
  import opened Sequences

  datatype Config = Config(idleTimeout: int, maxUses: Option<int>)

  /** Drivers and timers are numbered in order of creation.  `closed`, `uses` (the driver of
      each fetch that had one) and `stamps` (how many uses there were when each timer was
      started) are history. */
  datatype State = State(
    driver: Option<nat>, timer: Option<nat>, useCount: nat,
    launched: nat, closed: seq<nat>, uses: seq<nat>, stamps: seq<nat>)

  datatype Event = Fetch(driverStarts: bool) | Close | Fire(timer: nat)

  function Init(): State { State(None, None, 0, 0, [], [], []) }

  predicate Enabled(s: State, e: Event) { e.Fire? ==> e.timer < |s.stamps| }

  /** `_close_driver_locked`. */
  function CloseDriver(s: State): State {
    s.(timer := None, driver := None, useCount := 0,
       closed := if s.driver.Some? then s.closed + [s.driver.value] else s.closed)
  }

  /** `_schedule_idle_close_locked`. */
  function Schedule(cfg: Config, s: State): State {
    if cfg.idleTimeout <= 0 then s
    else s.(timer := Some(|s.stamps|), stamps := s.stamps + [|s.uses|])
  }

  /** The driver is created on demand, which may fail. */
  function EnsureDriver(s: State, driverStarts: bool): State {
    if s.driver.Some? || !driverStarts then s
    else s.(driver := Some(s.launched), launched := s.launched + 1, useCount := 0)
  }

  predicate Spent(cfg: Config, useCount: nat) { cfg.maxUses.Some? && useCount >= cfg.maxUses.value }

  /** One fetch, whether or not the page could be read. */
  function DoFetch(cfg: Config, s: State, driverStarts: bool): State {
    var s1 := EnsureDriver(s.(timer := None), driverStarts);
    if s1.driver.None? then s1
    else
      var s2 := s1.(useCount := s1.useCount + 1, uses := s1.uses + [s1.driver.value]);
      if Spent(cfg, s2.useCount) then CloseDriver(s2) else Schedule(cfg, s2)
  }

  function Step(cfg: Config, s: State, e: Event): State {
    match e
    case Fetch(driverStarts) => DoFetch(cfg, s, driverStarts)
    case Close => CloseDriver(s)
    case Fire(timer) => if s.timer == Some(timer) then CloseDriver(s) else s
  }

  // ------------------------------------------------------------- invariant

  /** Every opened driver is held or was closed, once; at most one is held. */
  ghost predicate DriversAccounted(s: State) {
    && Distinct(s.closed)
    && (forall d :: d in s.closed ==> d < s.launched)
    && (forall d: nat :: d < s.launched ==> (d in s.closed <==> s.driver != Some(d)))
    && (s.driver.Some? ==> s.driver.value < s.launched)
  }

  /** A driver is held outside the lock exactly when its timer runs, if there are timers. */
  predicate TimerRuns(cfg: Config, s: State) {
    && (s.timer.Some? <==> s.driver.Some? && cfg.idleTimeout > 0)
    && (s.timer.Some? ==> s.timer.value < |s.stamps|)
  }

  /** The current timer was started after the last use. */
  predicate TimerCurrent(s: State) {
    s.timer.Some? && s.timer.value < |s.stamps| ==> s.stamps[s.timer.value] == |s.uses|
  }

  ghost predicate UsesBounded(cfg: Config, s: State) {
    && (forall d :: d in s.uses ==> d < s.launched)
    && s.useCount == (if s.driver.Some? then multiset(s.uses)[s.driver.value] else 0)
    && (s.driver.Some? ==> s.useCount >= 1 && !Spent(cfg, s.useCount))
    && (cfg.maxUses.Some? ==> forall d: nat :: multiset(s.uses)[d] <= Max(1, cfg.maxUses.value))
  }

  ghost predicate Inv(cfg: Config, s: State) {
    DriversAccounted(s) && TimerRuns(cfg, s) && TimerCurrent(s) && UsesBounded(cfg, s)
  }

  lemma CloseInv(cfg: Config, s: State)
    requires Inv(cfg, s)
    ensures Inv(cfg, CloseDriver(s))
  {
  }

  lemma UseAppend(uses: seq<nat>, d: nat)
    ensures multiset(uses + [d]) == multiset(uses) + multiset{d}
    ensures forall x :: x in uses + [d] <==> x in uses || x == d
  {
  }

  /** A fresh driver has no uses, and a held one has uses left. */
  lemma UseBound(cfg: Config, s: State, driverStarts: bool)
    requires Inv(cfg, s)
    ensures var s1 := EnsureDriver(s.(timer := None), driverStarts);
      s1.driver.Some? ==>
        && s1.useCount == multiset(s1.uses)[s1.driver.value] && s1.driver.value < s1.launched
        && (cfg.maxUses.Some? ==> s1.useCount + 1 <= Max(1, cfg.maxUses.value))
  {
    if s.driver.None? {
      assert s.launched !in s.uses;
    }
  }

  lemma FetchUses(cfg: Config, s: State, driverStarts: bool)
    requires Inv(cfg, s)
    ensures UsesBounded(cfg, DoFetch(cfg, s, driverStarts))
  {
    var s1 := EnsureDriver(s.(timer := None), driverStarts);
    if s1.driver.Some? {
      UseBound(cfg, s, driverStarts);
      UseAppend(s1.uses, s1.driver.value);
    }
  }

  lemma FetchDrivers(cfg: Config, s: State, driverStarts: bool)
    requires Inv(cfg, s)
    ensures var t := DoFetch(cfg, s, driverStarts); DriversAccounted(t) && TimerRuns(cfg, t) && TimerCurrent(t)
  {
    var s1 := EnsureDriver(s.(timer := None), driverStarts);
    assert DriversAccounted(s1);
  }

  lemma StepInv(cfg: Config, s: State, e: Event)
    requires Inv(cfg, s) && Enabled(s, e)
    ensures Inv(cfg, Step(cfg, s, e))
  {
    match e
    case Fetch(driverStarts) =>
      FetchUses(cfg, s, driverStarts);
      FetchDrivers(cfg, s, driverStarts);
    case Close => CloseInv(cfg, s);
    case Fire(timer) => CloseInv(cfg, s);
  }

  // ------------------------------------------------------------------ runs

  ghost predicate Runs(cfg: Config, s: State, es: seq<Event>)
    decreases |es|
  {
    es == [] || (Enabled(s, es[0]) && Runs(cfg, Step(cfg, s, es[0]), es[1..]))
  }

  function After(cfg: Config, s: State, es: seq<Event>): State
    decreases |es|
  {
    if es == [] then s else After(cfg, Step(cfg, s, es[0]), es[1..])
  }

  lemma {:induction false} RunInv(cfg: Config, s: State, es: seq<Event>)
    requires Inv(cfg, s) && Runs(cfg, s, es)
    ensures Inv(cfg, After(cfg, s, es))
    decreases |es|
  {
    if es != [] {
      StepInv(cfg, s, es[0]);
      RunInv(cfg, Step(cfg, s, es[0]), es[1..]);
    }
  }

  lemma {:induction false} ClosedOnce(closed: seq<nat>, d: nat)
    requires Distinct(closed)
    ensures multiset(closed)[d] == if d in closed then 1 else 0
  {
    if closed != [] {
      assert closed == [closed[0]] + closed[1..];
      ClosedOnce(closed[1..], d);
    }
  }

  /** In every reachable state at most one driver is open, each opened driver is handed to
      close at most once, and a driver is held exactly while its timer runs. */
  lemma DriverLifecycle(cfg: Config, es: seq<Event>, d: nat)
    requires Runs(cfg, Init(), es)
    ensures var s := After(cfg, Init(), es);
      && multiset(s.closed)[d] == (if d < s.launched && s.driver != Some(d) then 1 else 0)
      && (s.timer.Some? <==> s.driver.Some? && cfg.idleTimeout > 0)
  {
    RunInv(cfg, Init(), es);
    ClosedOnce(After(cfg, Init(), es).closed, d);
  }

  /** No driver serves more fetches than allowed; the first fetch is always served. */
  lemma UsesLimit(cfg: Config, es: seq<Event>, d: nat)
    requires Runs(cfg, Init(), es) && cfg.maxUses.Some?
    ensures multiset(After(cfg, Init(), es).uses)[d] <= Max(1, cfg.maxUses.value)
  {
    RunInv(cfg, Init(), es);
  }

  /** A timer callback that closes a driver finds it unused since the timer was started;
      a late callback of an older timer changes nothing. */
  lemma TimerSparesUsed(cfg: Config, es: seq<Event>, t: nat)
    requires Runs(cfg, Init(), es) && t < |After(cfg, Init(), es).stamps|
    ensures var s := After(cfg, Init(), es);
      var u := Step(cfg, s, Fire(t));
      && (s.stamps[t] < |s.uses| ==> u == s)
      && (u != s ==> s.driver.Some? && s.stamps[t] == |s.uses| && u.closed == s.closed + [s.driver.value])
  {
    RunInv(cfg, Init(), es);
  }

  // ---------------------------------------------------------- what each does

  /** The held driver, if any, is handed to close, and nothing of it is left. */
  predicate LetsGo(s: State, t: State) {
    && t.driver.None? && t.timer.None? && t.useCount == 0 && t.launched == s.launched
    && t.uses == s.uses && t.stamps == s.stamps
    && t.closed == s.closed + (if s.driver.Some? then [s.driver.value] else [])
  }

  /** In every reachable state the callback of the current timer closes the driver that is
      held, and any other callback changes nothing; an explicit close always does. */
  lemma CurrentTimerCloses(cfg: Config, es: seq<Event>, timer: nat)
    requires Runs(cfg, Init(), es) && timer < |After(cfg, Init(), es).stamps|
    ensures var s := After(cfg, Init(), es);
      && LetsGo(s, Step(cfg, s, Close))
      && if s.timer == Some(timer) then s.driver.Some? && LetsGo(s, Step(cfg, s, Fire(timer)))
         else Step(cfg, s, Fire(timer)) == s
  {
    RunInv(cfg, Init(), es);
  }

  /** The fetches that driver `d` has served. */
  function Served(s: State, d: nat): nat { multiset(s.uses)[d] }

  /** In every reachable state a fetch uses the driver that is held, or else a new one if it
      starts, once.  It hands that driver to close exactly when it has then served as many
      fetches as allowed; otherwise it keeps it, with a new timer if there is an idle
      timeout, while an old timer is off.  Without a driver it changes nothing. */
  lemma FetchUsesOnce(cfg: Config, es: seq<Event>, starts: bool)
    requires Runs(cfg, Init(), es)
    ensures var s := After(cfg, Init(), es);
      var t := Step(cfg, s, Fetch(starts));
      if s.driver.None? && !starts then t == s
      else
        var d := if s.driver.Some? then s.driver.value else s.launched;
        && t.uses == s.uses + [d] && t.launched == s.launched + (if s.driver.None? then 1 else 0)
        && if cfg.maxUses.Some? && Served(t, d) >= cfg.maxUses.value
           then t.driver.None? && t.timer.None? && t.closed == s.closed + [d] && t.stamps == s.stamps
           else t.driver == Some(d) && t.closed == s.closed
                && if cfg.idleTimeout > 0 then t.timer == Some(|s.stamps|) && t.stamps == s.stamps + [|t.uses|]
                   else t.timer.None? && t.stamps == s.stamps
  {
    RunInv(cfg, Init(), es);
    var s := After(cfg, Init(), es);
    if s.driver.Some? || starts {
      var d := if s.driver.Some? then s.driver.value else s.launched;
      UseAppend(s.uses, d);
      if s.driver.None? {
        assert s.launched !in s.uses;
      }
    }
  }
}
