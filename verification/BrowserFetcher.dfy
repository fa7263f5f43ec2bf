/** The browser fetcher over mutable fields (app/scraper/browser_fetcher.py): a lazily
    created driver, an idle timer and a use count.  Each method is what the code does while
    it holds the lock, and is proved to be the event of `FetcherModel`. */
module BrowserFetcher {
  import opened Sequences
  import FetcherModel

  /** A browser process; `quits` counts how often it was handed to be closed. */
  class Driver {
    var quits: nat

    constructor ()
      ensures quits == 0
    {
      quits := 0;
    }
  }

  class IdleTimer {
    constructor () {}
  }

  predicate AllDifferent<T(==)>(s: seq<T>) { forall i, j :: 0 <= i < j < |s| ==> s[i] != s[j] }

  class BrowserFetcher {
    const cfg: FetcherModel.Config
    var driver: Option<Driver>
    var timer: Option<IdleTimer>
    var useCount: nat

    /** Every driver and timer created, in order, and the abstract state. */
    ghost var drivers: seq<Driver>
    ghost var timers: seq<IdleTimer>
    ghost var model: FetcherModel.State

    ghost predicate Represents()
      reads this
    {
      && |drivers| == model.launched && AllDifferent(drivers)
      && |timers| == |model.stamps| && AllDifferent(timers)
      && (match model.driver
          case None => driver.None?
          case Some(i) => i < |drivers| && driver == Some(drivers[i]))
      && (match model.timer
          case None => timer.None?
          case Some(i) => i < |timers| && timer == Some(timers[i]))
      && useCount == model.useCount
    }

    /** Each driver was handed to be closed as often as the history says. */
    ghost predicate QuitsCounted()
      reads this, drivers
    {
      forall i :: 0 <= i < |drivers| ==> drivers[i].quits == multiset(model.closed)[i]
    }

    ghost predicate Valid()
      reads this, drivers
    {
      Represents() && QuitsCounted() && FetcherModel.Inv(cfg, model)
    }

    constructor (cfg: FetcherModel.Config)
      ensures this.cfg == cfg && model == FetcherModel.Init() && Valid() && drivers == []
    {
      this.cfg, driver, timer, useCount := cfg, None, None, 0;
      drivers, timers, model := [], [], FetcherModel.Init();
    }

    /** `_close_driver_locked`. */
    method CloseDriver()
      requires Represents() && QuitsCounted()
      modifies this, drivers
      ensures Represents() && QuitsCounted()
      ensures model == FetcherModel.CloseDriver(old(model))
      ensures drivers == old(drivers) && timers == old(timers)
    {
      var closing := driver;
      timer, driver, useCount := None, None, 0;
      ghost var was := model;
      model := FetcherModel.CloseDriver(model);
      if closing.Some? {
        assert multiset(model.closed) == multiset(was.closed) + multiset{was.driver.value};
        closing.value.quits := closing.value.quits + 1;
      }
    }

    /** `_schedule_idle_close_locked`. */
    method ScheduleIdleClose()
      requires Represents() && QuitsCounted()
      modifies this`timer, this`timers, this`model
      ensures Represents() && QuitsCounted()
      ensures model == FetcherModel.Schedule(cfg, old(model))
    {
      if cfg.idleTimeout <= 0 {
        return;
      }
      var started := new IdleTimer();
      timer := Some(started);
      timers, model := timers + [started], FetcherModel.Schedule(cfg, model);
    }

    /** The `driver` property: `starts` says whether a new browser process comes up. */
    method EnsureDriver(starts: bool)
      requires Represents() && QuitsCounted() && (forall d :: d in model.closed ==> d < model.launched)
      modifies this`driver, this`useCount, this`drivers, this`model
      ensures Represents() && QuitsCounted()
      ensures model == FetcherModel.EnsureDriver(old(model), starts)
      ensures fresh(set d | d in drivers && d !in old(drivers))
      ensures timers == old(timers)
    {
      if driver.None? && starts {
        var created := new Driver();
        assert model.launched !in model.closed;
        driver, useCount := Some(created), 0;
        drivers, model := drivers + [created], FetcherModel.EnsureDriver(model, starts);
      }
    }

    /** One fetch under the lock: `page` is what the driver makes of the URL.  It fails when
        no driver starts or the page does; either way a driver that exists has been used. */
    method Fetch(starts: bool, page: Option<string>) returns (html: Option<string>)
      requires Valid()
      modifies this, drivers
      ensures Valid()
      ensures model == FetcherModel.Step(cfg, old(model), FetcherModel.Fetch(starts))
      ensures html == if old(model).driver.Some? || starts then page else None
    {
      FetcherModel.StepInv(cfg, model, FetcherModel.Fetch(starts));
      html := FetchLocked(starts, page);
    }

    method FetchLocked(starts: bool, page: Option<string>) returns (html: Option<string>)
      requires Represents() && QuitsCounted() && (forall d :: d in model.closed ==> d < model.launched)
      modifies this, drivers
      ensures Represents() && QuitsCounted()
      ensures model == FetcherModel.DoFetch(cfg, old(model), starts)
      ensures html == if old(model).driver.Some? || starts then page else None
    {
      timer := None;
      model := model.(timer := None);
      EnsureDriver(starts);
      html := None;
      if driver.Some? {
        html := page;
        RecordUse();
      }
    }

    /** The `finally` block of a fetch that had a driver. */
    method RecordUse()
      requires Represents() && QuitsCounted() && driver.Some?
      modifies this, drivers
      ensures Represents() && QuitsCounted()
      ensures var was := old(model);
        var used := was.(useCount := was.useCount + 1, uses := was.uses + [was.driver.value]);
        model == if FetcherModel.Spent(cfg, used.useCount) then FetcherModel.CloseDriver(used)
                 else FetcherModel.Schedule(cfg, used)
      ensures drivers == old(drivers)
    {
      useCount := useCount + 1;
      model := model.(useCount := model.useCount + 1, uses := model.uses + [model.driver.value]);
      if cfg.maxUses.Some? && useCount >= cfg.maxUses.value {
        CloseDriver();
      } else {
        ScheduleIdleClose();
      }
    }

    method Close()
      requires Valid()
      modifies this, drivers
      ensures Valid()
      ensures model == FetcherModel.Step(cfg, old(model), FetcherModel.Close)
      ensures driver.None? && timer.None?
    {
      FetcherModel.StepInv(cfg, model, FetcherModel.Close);
      CloseDriver();
    }

    /** `_close_if_idle`: the callback of any timer ever started. */
    method CloseIfIdle(fired: IdleTimer, ghost t: nat)
      requires Valid() && t < |timers| && timers[t] == fired
      modifies this, drivers
      ensures Valid()
      ensures model == FetcherModel.Step(cfg, old(model), FetcherModel.Fire(t))
      ensures if old(timer) == Some(fired) then driver.None? && timer.None? else driver == old(driver) && timer == old(timer)
    {
      FetcherModel.StepInv(cfg, model, FetcherModel.Fire(t));
      if timer != Some(fired) {
        return;
      }
      CloseDriver();
    }
  }
}
