/** The notices of the Status alerts: they alternate, and a down notice is never early.
    internal/alerts/alerts_status.go lines 33-169. */
module StatusNotices {
  import opened Alerts
  import opened StatusAlerts
  import H = AlertsHistorySpec
  import C = AlertsCacheSpec

  /** Whether the last change of the alert that the log tells of made it triggered. */
  function Raised(log: seq<LogEntry>, id: string): bool {
    if log == [] then false else RaisedBy(log[|log| - 1], id, Raised(log[..|log| - 1], id))
  }

  function RaisedBy(e: LogEntry, id: string, before: bool): bool {
    match e
    case DownSent(i, _, _) => i == id || before
    case UpSent(i, _) => i != id && before
    case Reset(i) => i != id && before
    case _ => before
  }

  /** A down notice is a change from untriggered to triggered, an up notice and a silent reset one back. */
  predicate Fits(e: LogEntry, log: seq<LogEntry>) {
    match e
    case DownSent(id, _, _) => !Raised(log, id)
    case UpSent(id, _) => Raised(log, id)
    case Reset(id) => Raised(log, id)
    case _ => true
  }

  predicate Alternates(log: seq<LogEntry>) {
    forall j | 0 <= j < |log| :: Fits(log[j], log[..j])
  }

  /** The log tells the state of every Status alert. */
  ghost predicate LogIsTrue(s: State) {
    && (forall id | s.IsStatusAlert(id) :: Raised(s.log, id) == s.Triggered(id))
    && (forall id | Raised(s.log, id) :: id in s.used)
    && Alternates(s.log)
  }

  lemma RaisedSnoc(log: seq<LogEntry>, e: LogEntry, id: string)
    ensures Raised(log + [e], id) == RaisedBy(e, id, Raised(log, id))
  {
    assert (log + [e])[..|log|] == log;
  }

  lemma AlternatesSnoc(log: seq<LogEntry>, e: LogEntry)
    requires Alternates(log) && Fits(e, log)
    ensures Alternates(log + [e])
  {
    hide Fits;
    forall j | 0 <= j < |log + [e]|
      ensures Fits((log + [e])[j], (log + [e])[..j])
    {
      if j < |log| {
        assert (log + [e])[..j] == log[..j];
      } else {
        assert (log + [e])[..j] == log;
      }
    }
  }

  /** A new entry that fits, in a state where just that alert changed accordingly. */
  lemma OneChange(s: State, t: State, e: LogEntry)
    requires LogIsTrue(s) && t.log == s.log + [e] && s.used <= t.used && Fits(e, s.log)
    requires t.db.table.Keys <= s.db.table.Keys && forall id | t.IsStatusAlert(id) :: s.IsStatusAlert(id)
    requires forall id | t.IsStatusAlert(id) :: t.Triggered(id) == RaisedBy(e, id, s.Triggered(id))
    requires e.DownSent? ==> e.id in t.used
    ensures LogIsTrue(t)
  {
    hide Alternates, Fits;
    AlternatesSnoc(s.log, e);
    forall id
      ensures Raised(t.log, id) == RaisedBy(e, id, Raised(s.log, id))
    {
      RaisedSnoc(s.log, e, id);
    }
  }

  /** No entry, and no Status alert that changes. */
  lemma NoChange(s: State, t: State)
    requires LogIsTrue(s) && t.log == s.log && s.used <= t.used
    requires forall id | t.IsStatusAlert(id) :: s.IsStatusAlert(id) && t.Triggered(id) == s.Triggered(id)
    ensures LogIsTrue(t)
  {
    hide Alternates;
  }

  lemma UpOneLog(s: State, data: CachedAlertData)
    requires LogIsTrue(s) && s.IsStatusAlert(data.id) && data.triggered == s.Triggered(data.id)
    ensures LogIsTrue(UpOne(s, data))
  {
    hide Alternates, H.Next, C.Updated;
    var t := UpOne(s, data);
    SetTriggeredFrame(s, data.id, false);
    if data.id in s.timers || !data.triggered {
      NoChange(s, t);
    } else {
      hide SetTriggered;
      OneChange(s, t, UpSent(data.id, s.now));
    }
  }

  lemma {:induction false} UpAllLog(s: State, alerts: seq<CachedAlertData>)
    requires LogIsTrue(s) && Copies(alerts, s.db.table) && forall i | 0 <= i < |alerts| :: s.IsStatusAlert(alerts[i].id)
    ensures LogIsTrue(UpAll(s, alerts))
    decreases |alerts|
  {
    hide LogIsTrue, UpOne;
    if alerts != [] {
      var init, data := alerts[..|alerts| - 1], alerts[|alerts| - 1];
      UpAllLog(s, init);
      UpAllFrame(s, init);
      IdsOfDistinct(alerts);
      var mid := UpAll(s, init);
      assert Same(s, mid, data.id);
      UpOneLog(mid, data);
    }
  }

  lemma ResetOneLog(s: State, id: string)
    requires LogIsTrue(s)
    ensures LogIsTrue(ResetOne(s, id))
  {
    hide Alternates, H.Next, C.Updated;
    var t := ResetOne(s, id);
    SetTriggeredFrame(s, id, false);
    hide SetTriggered;
    if s.Triggered(id) && s.IsStatusAlert(id) {
      OneChange(s, t, Reset(id));
    } else {
      NoChange(s, t);
    }
  }

  lemma {:induction false} ResetAllLog(s: State, ids: seq<string>)
    requires LogIsTrue(s)
    ensures LogIsTrue(ResetAll(s, ids))
    decreases |ids|
  {
    hide LogIsTrue, ResetOne;
    if ids != [] {
      ResetAllLog(s, ids[..|ids| - 1]);
      ResetOneLog(ResetAll(s, ids[..|ids| - 1]), ids[|ids| - 1]);
    }
  }

  lemma ScheduledOneLog(s: State, data: CachedAlertData)
    requires LogIsTrue(s)
    ensures LogIsTrue(ScheduledOne(s, data))
  {
    hide Alternates;
    var t := ScheduledOne(s, data);
    if data.id !in s.timers {
      OneChange(s, t, Scheduled(data.id, data.systemId, s.now, data.min));
    }
  }

  lemma {:induction false} ScheduledAllLog(s: State, alerts: seq<CachedAlertData>)
    requires LogIsTrue(s)
    ensures LogIsTrue(ScheduledAll(s, alerts))
    decreases |alerts|
  {
    hide LogIsTrue, ScheduledOne;
    if alerts != [] {
      ScheduledAllLog(s, alerts[..|alerts| - 1]);
      ScheduledOneLog(ScheduledAll(s, alerts[..|alerts| - 1]), alerts[|alerts| - 1]);
    }
  }

  lemma {:induction false} RestoredAllLog(s: State, ids: seq<string>)
    requires LogIsTrue(s)
    ensures LogIsTrue(RestoredAll(s, ids))
    decreases |ids|
  {
    hide LogIsTrue, ScheduledOne;
    if ids != [] {
      var t, id := RestoredAll(s, ids[..|ids| - 1]), ids[|ids| - 1];
      RestoredAllLog(s, ids[..|ids| - 1]);
      if id in t.db.table && C.FindAlert(t.cache, t.db.table[id].system, id).Some? {
        ScheduledOneLog(t, C.FindAlert(t.cache, t.db.table[id].system, id).value);
      }
    }
  }

  lemma TurnLog(s: State, system: string, status: Status)
    requires LogIsTrue(s)
    ensures LogIsTrue(Turn(s, system, status))
  {
    hide Alternates;
    OneChange(s, Turn(s, system, status), Turned(system, status));
  }

  /** Only the table, the log and the used IDs matter. */
  lemma SameLog(s: State, t: State)
    requires LogIsTrue(s) && t.log == s.log && t.db == s.db && t.used == s.used
    ensures LogIsTrue(t)
  {
    hide Alternates;
    NoChange(s, t);
  }

  lemma OnSaveLog(s: State, system: string, status: Status, connected: bool, order: seq<string>)
    requires Valid(s) && LogIsTrue(s) && MayTurn(s, system, status) && Lists(s, system, order)
    ensures LogIsTrue(OnSave(s, system, status, connected, order))
  {
    hide LogIsTrue, TablesValid, Covered, StatusData, ResetAll, Query;
    StructureParts(s, system);
    hide Structure;
    var u := Turn(s, system, status);
    TurnLog(s, system, status);
    ResetAllLog(u, order);
    var v := u.(cache := C.Loaded(u.cache, u.db.table, system));
    TablesOnly(s, u);
    LoadedIsQuery(u, system);
    SameLog(u, v);
    StatusDataIs(u.db.table, system, order);
    var alerts := StatusData(v.cache[system], order);
    IdsOfDistinct(alerts);
    assert forall i | 0 <= i < |alerts| :: alerts[i].id in Ids(alerts);
    UpAllLog(v, alerts);
    ScheduledAllLog(v, alerts);
    SameLog(ScheduledAll(v, alerts), WentDown(u, system, order));
    SameLog(ResetAll(u, order), CancelledFor(ResetAll(u, order), system));
  }

  lemma OnNewTokenLog(s: State, system: string, order: seq<string>)
    requires Valid(s) && LogIsTrue(s) && system in s.systems && Lists(s, system, order)
    ensures LogIsTrue(OnNewToken(s, system, order))
  {
    hide LogIsTrue, OnSave, TablesValid, Covered;
    StructureParts(s, system);
    if system !in s.store {
      OnSaveLog(s, system, s.systems[system], false, order);
    } else {
      ManagerIsUpToDate(s, system, order);
      if s.store[system] in {Down, Paused} {
        SameLog(s, OnNewToken(s, system, order));
      } else {
        OnSaveLog(s, system, Down, true, order);
        SameLog(OnSave(s, system, Down, true, order), OnNewToken(s, system, order));
      }
    }
  }

  lemma FiredLog(s: State, id: string)
    requires Valid(s) && LogIsTrue(s) && id in s.timers
    ensures LogIsTrue(Fired(s, id))
  {
    hide Alternates, TablesValid, Covered, C.FindAlert;
    var u := s.(timers := s.timers - {id});
    var t := Fired(s, id);
    SameLog(s, u);
    SetTriggeredFrame(u, id, true);
    hide SetTriggered;
    if id in s.db.table {
      FoundInCache(s, id);
      if !s.Triggered(id) {
        OneChange(u, t, DownSent(id, s.now, s.timers[id].since));
      }
    }
  }

  lemma OnRestartLog(s: State, resolve: seq<string>, restore: seq<string>)
    requires LogIsTrue(s)
    ensures LogIsTrue(OnRestart(s, resolve, restore))
  {
    var u := Stopped(s);
    RestartedLog(s);
    hide LogIsTrue;
    ResetAllLog(u, resolve);
    RestoredAllLog(ResetAll(u, resolve), restore);
    SameLog(RestoredAll(ResetAll(u, resolve), restore), OnRestart(s, resolve, restore));
  }

  lemma RestartedLog(s: State)
    requires LogIsTrue(s)
    ensures LogIsTrue(Stopped(s))
  {
    hide Alternates;
    OneChange(s, Stopped(s), Restarted);
  }

  lemma StepKeepsLog(s: State, step: Step)
    requires Valid(s) && LogIsTrue(s) && Enabled(s, step)
    ensures LogIsTrue(Apply(s, step))
  {
    hide Alternates, OnSave, OnNewToken, Fired, OnRestart, Lists, MayTurn, Covered, TablesValid;
    var t := Apply(s, step);
    match step {
      case Save(system, status, connected, order) => OnSaveLog(s, system, status, connected, order);
      case NewToken(system, order) => OnNewTokenLog(s, system, order);
      case DeleteSystem(system, order) => RowsLog(s, step);
      case CreateAlert(id, a) => CreateLog(s, id, a);
      case EditAlert(id, value, min) => RowsLog(s, step);
      case DeleteAlert(id) => RowsLog(s, step);
      case FlipOther(id, triggered) => RowsLog(s, step);
      case Fire(id) => FiredLog(s, id);
      case Restart(resolve, restore) => OnRestartLog(s, resolve, restore);
      case _ => SameTableLog(s, step);
    }
  }

  lemma SameTableLog(s: State, step: Step)
    requires Valid(s) && LogIsTrue(s) && Enabled(s, step)
    requires step.CreateSystem? || step.Connect? || step.Disconnect? || step.Tick? || step.TrimHistory?
    ensures LogIsTrue(Apply(s, step))
  {
    hide Alternates, Valid;
    NoChange(s, Apply(s, step));
  }

  lemma CreateLog(s: State, id: string, a: Alert)
    requires Valid(s) && LogIsTrue(s) && Enabled(s, CreateAlert(id, a))
    ensures LogIsTrue(Apply(s, CreateAlert(id, a)))
  {
    hide Alternates, TablesValid, Covered, C.Updated;
  }

  lemma RowsLog(s: State, step: Step)
    requires Valid(s) && LogIsTrue(s) && Enabled(s, step)
    requires step.DeleteSystem? || step.DeleteAlert? || step.EditAlert? || step.FlipOther?
    ensures LogIsTrue(Apply(s, step))
  {
    hide LogIsTrue, Covered, TablesValid, Lists, SetTriggered, DeletedAll;
    var t := Apply(s, step);
    match step {
      case DeleteSystem(_, order) =>
        DeletedAllFrame(s, order);
      case DeleteAlert(id) =>
        DeletedOneFrame(s, id);
      case FlipOther(id, triggered) =>
        SetTriggeredFrame(s, id, triggered);
      case _ =>
    }
    NoChange(s, t);
  }

  // ---------------------------------------------------------------------------------------------
  // Down notices are not early
  // ---------------------------------------------------------------------------------------------

  /** What must not come between the scheduling of a timer and its notice. */
  predicate Disturbs(e: LogEntry, system: string) {
    e.Restarted? || (e.Turned? && e.system == system && e.status != Down)
  }

  predicate Undisturbed(log: seq<LogEntry>, from: nat, to: nat, system: string)
    requires to <= |log|
  {
    forall k | from <= k < to :: !Disturbs(log[k], system)
  }

  /** The timer expires the delay after its scheduling. */
  predicate TimerIsTrue(log: seq<LogEntry>, id: string, timer: Timer) {
    && timer.since < |log|
    && log[timer.since].Scheduled? && log[timer.since].id == id && log[timer.since].system == timer.system
    && timer.expire == log[timer.since].time + Max(1, log[timer.since].min) * MINUTE
    && Undisturbed(log, timer.since, |log|, timer.system)
  }

  /** The notice comes at least the delay after its scheduling, and nothing came in between. */
  predicate NotEarly(log: seq<LogEntry>, j: nat)
    requires j < |log| && log[j].DownSent?
  {
    var e := log[j];
    && e.since < j
    && log[e.since].Scheduled? && log[e.since].id == e.id
    && e.time >= log[e.since].time + Max(1, log[e.since].min) * MINUTE
    && Undisturbed(log, e.since, j, log[e.since].system)
  }

  ghost predicate OnTime(s: State) {
    && (forall id | id in s.timers && id in s.db.table :: TimerIsTrue(s.log, id, s.timers[id]))
    && (forall j | 0 <= j < |s.log| && s.log[j].DownSent? :: NotEarly(s.log, j))
  }

  /** An entry that neither ends a down period nor is a down notice. */
  predicate Quiet(e: LogEntry) {
    e.Scheduled? || e.UpSent? || e.Reset?
  }

  predicate QuietSince(log: seq<LogEntry>, from: nat) {
    from <= |log| && forall k | from <= k < |log| :: Quiet(log[k])
  }

  /** Every timer is an old one or true to the new log, which only has quiet entries more. */
  ghost predicate TimersFollow(s: State, t: State) {
    && s.log <= t.log && QuietSince(t.log, |s.log|)
    && forall id | id in t.timers :: (id in s.timers && t.timers[id] == s.timers[id]) || TimerIsTrue(t.log, id, t.timers[id])
  }

  lemma StillTrue(log: seq<LogEntry>, more: seq<LogEntry>, id: string, timer: Timer)
    requires TimerIsTrue(log, id, timer) && forall e | e in more :: !Disturbs(e, timer.system)
    ensures TimerIsTrue(log + more, id, timer)
  {
  }

  lemma FollowsOne(s: State, t: State, u: State)
    requires TimersFollow(s, t) && TimersFollow(t, u)
    ensures TimersFollow(s, u)
  {
    forall id | id in u.timers && !(id in s.timers && u.timers[id] == s.timers[id])
      ensures TimerIsTrue(u.log, id, u.timers[id])
    {
      if id in t.timers && u.timers[id] == t.timers[id] {
        var more := u.log[|t.log|..];
        assert u.log == t.log + more;
        StillTrue(t.log, more, id, t.timers[id]);
      }
    }
  }

  lemma ScheduledOneFollows(s: State, data: CachedAlertData)
    ensures TimersFollow(s, ScheduledOne(s, data))
  {
  }

  lemma UpOneFollows(s: State, data: CachedAlertData)
    ensures TimersFollow(s, UpOne(s, data))
  {
    SetTriggeredFrame(s, data.id, false);
    hide SetTriggered;
  }

  lemma ResetOneFollows(s: State, id: string)
    ensures TimersFollow(s, ResetOne(s, id))
  {
    SetTriggeredFrame(s, id, false);
    hide SetTriggered;
  }

  lemma FollowsItself(s: State, t: State)
    requires t.log == s.log && t.timers == s.timers
    ensures TimersFollow(s, t)
  {
  }

  lemma {:induction false} ScheduledAllFollows(s: State, alerts: seq<CachedAlertData>)
    ensures TimersFollow(s, ScheduledAll(s, alerts))
    decreases |alerts|
  {
    hide TimersFollow, ScheduledOne;
    if alerts == [] {
      FollowsItself(s, s);
    } else {
      var t := ScheduledAll(s, alerts[..|alerts| - 1]);
      ScheduledAllFollows(s, alerts[..|alerts| - 1]);
      ScheduledOneFollows(t, alerts[|alerts| - 1]);
      FollowsOne(s, t, ScheduledAll(s, alerts));
    }
  }

  lemma {:induction false} UpAllFollows(s: State, alerts: seq<CachedAlertData>)
    ensures TimersFollow(s, UpAll(s, alerts))
    decreases |alerts|
  {
    hide TimersFollow, UpOne;
    if alerts == [] {
      FollowsItself(s, s);
    } else {
      var t := UpAll(s, alerts[..|alerts| - 1]);
      UpAllFollows(s, alerts[..|alerts| - 1]);
      UpOneFollows(t, alerts[|alerts| - 1]);
      FollowsOne(s, t, UpAll(s, alerts));
    }
  }

  lemma {:induction false} ResetAllFollows(s: State, ids: seq<string>)
    ensures TimersFollow(s, ResetAll(s, ids))
    decreases |ids|
  {
    hide TimersFollow, ResetOne;
    if ids == [] {
      FollowsItself(s, s);
    } else {
      var t := ResetAll(s, ids[..|ids| - 1]);
      ResetAllFollows(s, ids[..|ids| - 1]);
      ResetOneFollows(t, ids[|ids| - 1]);
      FollowsOne(s, t, ResetAll(s, ids));
    }
  }

  lemma {:induction false} RestoredAllFollows(s: State, ids: seq<string>)
    ensures TimersFollow(s, RestoredAll(s, ids))
    decreases |ids|
  {
    hide TimersFollow, ScheduledOne;
    if ids == [] {
      FollowsItself(s, s);
    } else {
      var t, id := RestoredAll(s, ids[..|ids| - 1]), ids[|ids| - 1];
      RestoredAllFollows(s, ids[..|ids| - 1]);
      FollowsItself(t, t);
      if id in t.db.table && C.FindAlert(t.cache, t.db.table[id].system, id).Some? {
        ScheduledOneFollows(t, C.FindAlert(t.cache, t.db.table[id].system, id).value);
      }
      FollowsOne(s, t, RestoredAll(s, ids));
    }
  }

  lemma NoNoticeIn(log: seq<LogEntry>, more: seq<LogEntry>, j: nat)
    requires j < |log + more| && forall e | e in more :: !e.DownSent?
    ensures (log + more)[j].DownSent? ==> j < |log|
  {
    if j >= |log| {
      assert (log + more)[j] == more[j - |log|];
    }
  }

  /** Down notices stay as they are when the log grows by other entries. */
  lemma NoticesStay(log: seq<LogEntry>, more: seq<LogEntry>)
    requires forall j | 0 <= j < |log| && log[j].DownSent? :: NotEarly(log, j)
    requires forall e | e in more :: !e.DownSent?
    ensures forall j | 0 <= j < |log + more| && (log + more)[j].DownSent? :: NotEarly(log + more, j)
  {
    var all := log + more;
    forall j | 0 <= j < |all| && all[j].DownSent?
      ensures NotEarly(all, j)
    {
      NoNoticeIn(log, more, j);
      assert NotEarly(log, j);
    }
  }

  /** A status save: one entry for the status, then quiet ones. */
  lemma OnSaveFollows(s: State, system: string, status: Status, connected: bool, order: seq<string>)
    ensures TimersFollow(Turn(s, system, status), OnSave(s, system, status, connected, order))
    ensures Turn(s, system, status).timers == s.timers && Turn(s, system, status).log == s.log + [Turned(system, status)]
  {
    hide TimersFollow, ResetAll, UpAll, ScheduledAll, StatusData;
    var u := Turn(s, system, status);
    FollowsItself(u, u);
    ResetAllFollows(u, order);
    var r := ResetAll(u, order);
    FewerTimersFollow(r, CancelledFor(r, system));
    FollowsOne(u, r, CancelledFor(r, system));
    var v := u.(cache := C.Loaded(u.cache, u.db.table, system));
    FollowsItself(u, v);
    var alerts := StatusData(v.cache[system], order);
    UpAllFollows(v, alerts);
    FollowsOne(u, v, UpAll(v, alerts));
    ScheduledAllFollows(v, alerts);
    FollowsOne(u, v, ScheduledAll(v, alerts));
    FollowsItself(ScheduledAll(v, alerts), WentDown(u, system, order));
    FollowsOne(u, ScheduledAll(v, alerts), WentDown(u, system, order));
  }

  lemma FewerTimersFollow(s: State, t: State)
    requires t.log == s.log && forall id | id in t.timers :: id in s.timers && t.timers[id] == s.timers[id]
    ensures TimersFollow(s, t)
  {
  }

  lemma OnSaveOnTime(s: State, system: string, status: Status, connected: bool, order: seq<string>)
    requires Valid(s) && OnTime(s) && MayTurn(s, system, status) && Lists(s, system, order)
    ensures OnTime(OnSave(s, system, status, connected, order))
  {
    hide Lists, MayTurn, TablesValid, Structure, Covered, TimerIsTrue, NotEarly;
    var t := OnSave(s, system, status, connected, order);
    var u := Turn(s, system, status);
    OnSaveKeeps(s, system, status, connected, order);
    OnSaveFollows(s, system, status, connected, order);
    OnSaveRows(s, system, status, connected, order);
    hide OnSave, Turn;
    var more := t.log[|s.log|..];
    assert t.log == s.log + more;
    assert forall k | 0 <= k < |more| :: more[k] == t.log[|s.log| + k];
    assert more[0] == Turned(system, status);
    NoticesStay(s.log, more);
    forall id | id in t.timers && id in t.db.table
      ensures TimerIsTrue(t.log, id, t.timers[id])
    {
      TimerOfDown(t, id);
      if id in s.timers && t.timers[id] == s.timers[id] {
        TurnedElsewhere(s.log, more, id, s.timers[id], system, status);
      }
    }
  }

  lemma TurnedElsewhere(log: seq<LogEntry>, more: seq<LogEntry>, id: string, timer: Timer, system: string, status: Status)
    requires TimerIsTrue(log, id, timer) && (system == timer.system ==> status == Down)
    requires more != [] && more[0] == Turned(system, status) && forall k | 1 <= k < |more| :: Quiet(more[k])
    ensures TimerIsTrue(log + more, id, timer)
  {
    StillTrue(log, more, id, timer);
  }

  lemma OnSaveRows(s: State, system: string, status: Status, connected: bool, order: seq<string>)
    ensures var t := OnSave(s, system, status, connected, order);
            t.db.table.Keys == s.db.table.Keys && system in t.systems && t.systems[system] == status
  {
    var u := Turn(s, system, status);
    ResetAllFrame(u, order);
    var v := u.(cache := C.Loaded(u.cache, u.db.table, system));
    UpAllSame(v, StatusData(v.cache[system], order));
    ScheduledAllFrame(v, StatusData(v.cache[system], order));
  }

  /** Only systems that are down have timers. */
  lemma TimerOfDown(s: State, id: string)
    requires Structure(s) && Covered(s) && id in s.timers && id in s.db.table
    ensures IsDown(s, s.timers[id].system)
  {
    assert s.IsStatusAlert(id);
  }

  lemma SameTimers(s: State, t: State)
    requires OnTime(s) && t.log == s.log
    requires forall id | id in t.timers && id in t.db.table :: id in s.timers && id in s.db.table && t.timers[id] == s.timers[id]
    ensures OnTime(t)
  {
  }

  lemma OnNewTokenOnTime(s: State, system: string, order: seq<string>)
    requires Valid(s) && OnTime(s) && system in s.systems && Lists(s, system, order)
    ensures OnTime(OnNewToken(s, system, order))
  {
    hide OnTime, OnSave, TablesValid, Covered;
    StructureParts(s, system);
    if system !in s.store {
      OnSaveOnTime(s, system, s.systems[system], false, order);
    } else {
      ManagerIsUpToDate(s, system, order);
      if s.store[system] in {Down, Paused} {
        SameTimers(s, OnNewToken(s, system, order));
      } else {
        OnSaveOnTime(s, system, Down, true, order);
        SameTimers(OnSave(s, system, Down, true, order), OnNewToken(s, system, order));
      }
    }
  }

  lemma FiredOnTime(s: State, id: string)
    requires Valid(s) && OnTime(s) && id in s.timers && s.timers[id].expire <= s.now
    ensures OnTime(Fired(s, id))
  {
    hide Valid, TablesValid, Structure, Covered, C.FindAlert;
    var u := s.(timers := s.timers - {id});
    SameTimers(s, u);
    var t := Fired(s, id);
    SetTriggeredFrame(u, id, true);
    hide SetTriggered;
    if t.log != s.log {
      var e := DownSent(id, s.now, s.timers[id].since);
      assert id in s.db.table && t.log == s.log + [e];
      assert TimerIsTrue(s.log, id, s.timers[id]);
      NoticeIsOnTime(s.log, e, s.timers[id]);
      forall other | other in t.timers && other in t.db.table
        ensures TimerIsTrue(t.log, other, t.timers[other])
      {
        StillTrue(s.log, [e], other, s.timers[other]);
      }
    } else {
      SameTimers(u, t);
    }
  }

  lemma NoticeIsOnTime(log: seq<LogEntry>, e: LogEntry, timer: Timer)
    requires e.DownSent? && e.since == timer.since && TimerIsTrue(log, e.id, timer) && timer.expire <= e.time
    requires forall j | 0 <= j < |log| && log[j].DownSent? :: NotEarly(log, j)
    ensures forall j | 0 <= j < |log + [e]| && (log + [e])[j].DownSent? :: NotEarly(log + [e], j)
  {
    var all := log + [e];
    forall j | 0 <= j < |all| && all[j].DownSent?
      ensures NotEarly(all, j)
    {
      if j < |log| {
        assert NotEarly(log, j);
      }
    }
  }

  lemma OnRestartOnTime(s: State, resolve: seq<string>, restore: seq<string>)
    requires OnTime(s)
    ensures OnTime(OnRestart(s, resolve, restore))
  {
    hide ResetAll, RestoredAll;
    var u := Stopped(s);
    var v := ResetAll(u, resolve);
    ResetAllFollows(u, resolve);
    RestoredAllFollows(v, restore);
    var t := OnRestart(s, resolve, restore);
    FollowsItself(RestoredAll(v, restore), t);
    FollowsOne(v, RestoredAll(v, restore), t);
    FollowsOne(u, v, t);
    hide OnRestart;
    var more := t.log[|s.log|..];
    assert t.log == s.log + more;
    assert forall k | 0 <= k < |more| :: more[k] == t.log[|s.log| + k];
    NoticesStay(s.log, more);
  }

  lemma StepIsOnTime(s: State, step: Step)
    requires Valid(s) && OnTime(s) && Enabled(s, step)
    ensures OnTime(Apply(s, step))
  {
    hide OnTime, OnSave, OnNewToken, Fired, OnRestart, Lists, MayTurn, Covered, TablesValid, Structure;
    match step {
      case Save(system, status, connected, order) => OnSaveOnTime(s, system, status, connected, order);
      case NewToken(system, order) => OnNewTokenOnTime(s, system, order);
      case DeleteSystem(system, order) => DeletedAllFrame(s, order); SameTimers(s, Apply(s, step));
      case CreateAlert(id, a) => NewAlertHasNoTimer(s, id, a); SameTimers(s, Apply(s, step));
      case DeleteAlert(id) => DeletedOneFrame(s, id); SameTimers(s, Apply(s, step));
      case FlipOther(id, triggered) => SetTriggeredFrame(s, id, triggered); SameTimers(s, Apply(s, step));
      case Fire(id) => FiredOnTime(s, id);
      case Restart(resolve, restore) => OnRestartOnTime(s, resolve, restore);
      case _ => SameTimers(s, Apply(s, step));
    }
  }

  lemma NewAlertHasNoTimer(s: State, id: string, a: Alert)
    requires Structure(s) && id !in s.used
    ensures id !in s.timers && id !in s.db.table
  {
  }

  // ---------------------------------------------------------------------------------------------
  // Runs
  // ---------------------------------------------------------------------------------------------

  lemma {:induction false} RunIsLogged(now: int, steps: seq<Step>)
    ensures LogIsTrue(After(now, steps)) && OnTime(After(now, steps))
    decreases |steps|
  {
    if steps != [] {
      var before, step := steps[..|steps| - 1], steps[|steps| - 1];
      RunIsLogged(now, before);
      var s := After(now, before);
      hide LogIsTrue, OnTime, Valid, Apply;
      if Enabled(s, step) {
        StepKeepsLog(s, step);
        StepIsOnTime(s, step);
      }
    }
  }

  /** Each down notice comes at least max(1, min) minutes after it was scheduled, with no restart and no change of
      the system to up, paused or pending in between. */
  lemma DownNoticesAreNotEarly(now: int, steps: seq<Step>, j: nat)
    requires j < |After(now, steps).log| && After(now, steps).log[j].DownSent?
    ensures NotEarly(After(now, steps).log, j)
  {
    hide After;
    RunIsLogged(now, steps);
  }

  /** A change from raised to not raised, or back, needs an entry that makes it. */
  lemma {:induction false} Changes(log: seq<LogEntry>, i: nat, j: nat, id: string)
    requires i <= j <= |log| && Raised(log[..i], id) != Raised(log[..j], id)
    ensures exists k | i <= k < j ::
              if Raised(log[..j], id) then log[k].DownSent? && log[k].id == id
              else (log[k].UpSent? || log[k].Reset?) && log[k].id == id
    decreases j
  {
    RaisedSnoc(log[..j - 1], log[j - 1], id);
    assert log[..j] == log[..j - 1] + [log[j - 1]];
    if Raised(log[..j - 1], id) == Raised(log[..j], id) {
      Changes(log, i, j - 1, id);
    }
  }

  /** Notices alternate: between two down notices of an alert there is an up notice or a silent reset, and
      between two up notices a down notice. */
  lemma NoticesAlternate(now: int, steps: seq<Step>, i: nat, j: nat, id: string)
    requires i < j < |After(now, steps).log|
    ensures var log := After(now, steps).log;
            && (log[i].DownSent? && log[j].DownSent? && log[i].id == log[j].id == id ==>
                  exists k | i < k < j :: (log[k].UpSent? || log[k].Reset?) && log[k].id == id)
            && (log[i].UpSent? && log[j].UpSent? && log[i].id == log[j].id == id ==>
                  exists k | i < k < j :: log[k].DownSent? && log[k].id == id)
  {
    hide After;
    RunIsLogged(now, steps);
    var log := After(now, steps).log;
    RaisedSnoc(log[..i], log[i], id);
    assert log[..i + 1] == log[..i] + [log[i]];
    assert Fits(log[i], log[..i]) && Fits(log[j], log[..j]);
    if Raised(log[..i + 1], id) != Raised(log[..j], id) {
      Changes(log, i + 1, j, id);
    }
  }

  /** A notice tells the state: a down notice is sent for an alert that was not triggered, an up notice for one
      that was, and the last such entry says whether the alert is triggered now. */
  lemma LogTellsState(now: int, steps: seq<Step>, id: string)
    requires After(now, steps).IsStatusAlert(id)
    ensures Raised(After(now, steps).log, id) == After(now, steps).Triggered(id)
    ensures Alternates(After(now, steps).log)
  {
    hide After;
    RunIsLogged(now, steps);
  }
}
