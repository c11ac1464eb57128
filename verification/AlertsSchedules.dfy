/** What the status alerts do, read off the tables: the minutes of a timer are those of the alert's row, and each change of
    status sends exactly the notices it should. internal/alerts/alerts_status.go lines 33-169. */
module StatusSchedules {
  import opened Common
  import opened Alerts
  import opened StatusAlerts
  import opened StatusNotices
  import H = AlertsHistorySpec
  import C = AlertsCacheSpec

  // ---------------------------------------------------------------------------------------------
  // Timers and rows
  // ---------------------------------------------------------------------------------------------

  /** The entry schedules the alert as its row has it, at the time given. */
  predicate FromRow(e: LogEntry, table: Table, now: int)
    requires e.Scheduled?
  {
    e.id in table && e.system == table[e.id].system && e.min == table[e.id].min % 256 && e.time == now
  }

  predicate SameMinutes(a: Table, b: Table) {
    a.Keys == b.Keys && forall id | id in a :: a[id].system == b[id].system && a[id].min == b[id].min
  }

  /** Whatever was scheduled since is scheduled from its row. */
  ghost predicate SchedulesRows(s: State, t: State) {
    && s.log <= t.log && t.now == s.now && SameMinutes(s.db.table, t.db.table)
    && forall j | |s.log| <= j < |t.log| && t.log[j].Scheduled? :: FromRow(t.log[j], s.db.table, s.now)
  }

  lemma SchedulesThen(s: State, t: State, u: State)
    requires SchedulesRows(s, t) && SchedulesRows(t, u)
    ensures SchedulesRows(s, u)
  {
  }

  lemma SchedulesNothing(s: State, t: State)
    requires t.log == s.log && t.now == s.now && SameMinutes(s.db.table, t.db.table)
    ensures SchedulesRows(s, t)
  {
  }

  lemma ScheduledOneRow(s: State, data: CachedAlertData)
    requires data.id in s.db.table && C.Shows(data, data.id, s.db.table[data.id])
    ensures SchedulesRows(s, ScheduledOne(s, data))
  {
  }

  lemma UpOneRow(s: State, data: CachedAlertData)
    ensures SchedulesRows(s, UpOne(s, data))
  {
    SetTriggeredFrame(s, data.id, false);
    hide SetTriggered;
  }

  lemma ResetOneRow(s: State, id: string)
    ensures SchedulesRows(s, ResetOne(s, id))
  {
    SetTriggeredFrame(s, id, false);
    hide SetTriggered;
  }

  /** The alerts of a list show their rows. */
  predicate AllShow(alerts: seq<CachedAlertData>, table: Table) {
    forall i | 0 <= i < |alerts| :: alerts[i].id in table && C.Shows(alerts[i], alerts[i].id, table[alerts[i].id])
  }

  lemma {:induction false} ScheduledAllRows(s: State, alerts: seq<CachedAlertData>)
    requires AllShow(alerts, s.db.table)
    ensures SchedulesRows(s, ScheduledAll(s, alerts))
    decreases |alerts|
  {
    hide SchedulesRows, ScheduledOne;
    if alerts == [] {
      SchedulesNothing(s, s);
    } else {
      var init := alerts[..|alerts| - 1];
      var t := ScheduledAll(s, init);
      ScheduledAllRows(s, init);
      ScheduledAllFrame(s, init);
      ScheduledOneRow(t, alerts[|alerts| - 1]);
      SchedulesThen(s, t, ScheduledAll(s, alerts));
    }
  }

  lemma {:induction false} UpAllRows(s: State, alerts: seq<CachedAlertData>)
    ensures SchedulesRows(s, UpAll(s, alerts))
    decreases |alerts|
  {
    hide SchedulesRows, UpOne;
    if alerts == [] {
      SchedulesNothing(s, s);
    } else {
      var t := UpAll(s, alerts[..|alerts| - 1]);
      UpAllRows(s, alerts[..|alerts| - 1]);
      UpOneRow(t, alerts[|alerts| - 1]);
      SchedulesThen(s, t, UpAll(s, alerts));
    }
  }

  lemma {:induction false} ResetAllRows(s: State, ids: seq<string>)
    ensures SchedulesRows(s, ResetAll(s, ids))
    decreases |ids|
  {
    hide SchedulesRows, ResetOne;
    if ids == [] {
      SchedulesNothing(s, s);
    } else {
      var t := ResetAll(s, ids[..|ids| - 1]);
      ResetAllRows(s, ids[..|ids| - 1]);
      ResetOneRow(t, ids[|ids| - 1]);
      SchedulesThen(s, t, ResetAll(s, ids));
    }
  }

  lemma RestoredOneRow(s: State, id: string)
    requires Structure(s) && TablesValid(s)
    ensures SchedulesRows(s, RestoredOne(s, id))
  {
    hide Structure, TablesValid, SchedulesRows, ScheduledOne, C.FindAlert;
    SchedulesNothing(s, s);
    if id in s.db.table {
      CacheHas(s, id);
      ScheduledOneRow(s, Snapshot(id, s.db.table[id]));
    }
  }

  lemma {:induction false} RestoredAllRows(s: State, ids: seq<string>)
    requires Structure(s) && TablesValid(s) && forall i | 0 <= i < |ids| :: s.IsStatusAlert(ids[i])
    ensures SchedulesRows(s, RestoredAll(s, ids))
    decreases |ids|
  {
    hide SchedulesRows, RestoredOne, Structure, TablesValid;
    if ids == [] {
      SchedulesNothing(s, s);
    } else {
      var init, id := ids[..|ids| - 1], ids[|ids| - 1];
      var t := RestoredAll(s, init);
      RestoredAllRows(s, init);
      RestoredAllFrame(s, init);
      TablesOnly(s, t);
      StructureOfTimers(s, t);
      RestoredOneRow(t, id);
      SchedulesThen(s, t, RestoredAll(s, ids));
    }
  }

  /** The list that a change of status works on shows the rows of the system. */
  lemma {:induction false} StatusDataShows(table: Table, system: string, order: seq<string>)
    ensures AllShow(StatusData(Query(table, system), order), table)
    decreases |order|
  {
    hide Query;
    C.QueryShowsRows(table, system);
    if order != [] {
      StatusDataShows(table, system, order[..|order| - 1]);
    }
  }

  lemma TurnRows(s: State, system: string, status: Status)
    ensures SchedulesRows(s, Turn(s, system, status))
  {
  }

  lemma OnSaveRow(s: State, system: string, status: Status, connected: bool, order: seq<string>)
    requires TablesValid(s) && system != "" && Lists(s, system, order)
    ensures SchedulesRows(s, OnSave(s, system, status, connected, order))
  {
    hide TablesValid, SchedulesRows, ResetAll, UpAll, ScheduledAll, StatusData, Query, C.Loaded, Lists;
    var u, t := Turn(s, system, status), OnSave(s, system, status, connected, order);
    TurnRows(s, system, status);
    TablesOnly(s, u);
    LoadedIsQuery(u, system);
    StatusDataShows(u.db.table, system, order);
    var v := u.(cache := C.Loaded(u.cache, u.db.table, system));
    var alerts := StatusData(v.cache[system], order);
    var r := ResetAll(u, order);
    ResetAllRows(u, order);
    SchedulesNothing(r, CancelledFor(r, system));
    SchedulesThen(u, r, CancelledFor(r, system));
    SchedulesNothing(u, v);
    UpAllRows(v, alerts);
    SchedulesThen(u, v, UpAll(v, alerts));
    ScheduledAllRows(v, alerts);
    SchedulesThen(u, v, ScheduledAll(v, alerts));
    SchedulesNothing(ScheduledAll(v, alerts), WentDown(u, system, order));
    SchedulesThen(u, ScheduledAll(v, alerts), WentDown(u, system, order));
    SchedulesNothing(u, u);
    SchedulesThen(s, u, t);
  }

  lemma OnNewTokenRow(s: State, system: string, order: seq<string>)
    requires Valid(s) && system in s.systems && Lists(s, system, order)
    ensures SchedulesRows(s, OnNewToken(s, system, order))
  {
    hide SchedulesRows, OnSave, TablesValid, Covered, Lists;
    StructureParts(s, system);
    var t := OnNewToken(s, system, order);
    SchedulesNothing(s, s);
    OnSaveRow(s, system, s.systems[system], false, order);
    OnSaveRow(s, system, Down, true, order);
    if system in s.store {
      ManagerIsUpToDate(s, system, order);
      var u := StatusAlerts.SetDown(s, system, order);
      SchedulesNothing(u, t);
      SchedulesThen(s, u, t);
    }
  }

  lemma OnRestartRow(s: State, resolve: seq<string>, restore: seq<string>)
    requires Structure(s) && TablesValid(s) && Enabled(s, Restart(resolve, restore))
    ensures SchedulesRows(s, OnRestart(s, resolve, restore))
  {
    hide SchedulesRows, ResetAll, RestoredAll, Structure, TablesValid;
    var u, t := Stopped(s), OnRestart(s, resolve, restore);
    var v := ResetAll(u, resolve);
    StoppedRows(s);
    ResetAllRows(u, resolve);
    ResolveFrame(s, resolve);
    assert forall i | 0 <= i < |restore| :: restore[i] in restore && ToRestore(s, restore[i]);
    RestoredAllRows(v, restore);
    SchedulesThen(s, u, v);
    SchedulesThen(s, v, RestoredAll(v, restore));
    SchedulesNothing(RestoredAll(v, restore), t);
    SchedulesThen(s, RestoredAll(v, restore), t);
  }

  lemma StoppedRows(s: State)
    ensures SchedulesRows(s, Stopped(s))
  {
  }

  lemma FiredRow(s: State, id: string)
    requires id in s.timers
    ensures SchedulesRows(s, Fired(s, id))
  {
    var u := s.(timers := s.timers - {id});
    SetTriggeredFrame(u, id, true);
    hide SetTriggered, C.FindAlert;
  }

  lemma StepRows(s: State, step: Step)
    requires Valid(s)
    ensures s.log <= Next(s, step).log
    ensures forall j | |s.log| <= j < |Next(s, step).log| && Next(s, step).log[j].Scheduled? :: FromRow(Next(s, step).log[j], s.db.table, s.now)
  {
    hide OnSave, OnNewToken, Fired, OnRestart, Lists, MayTurn, Covered, TablesValid, SetTriggered, DeletedAll, FromRow;
    if Enabled(s, step) {
      match step {
        case Save(system, status, connected, order) =>
          MayTurnKnown(s, system, status);
          StructureParts(s, system);
          OnSaveRow(s, system, status, connected, order);
        case NewToken(system, order) =>
          OnNewTokenRow(s, system, order);
        case DeleteSystem(_, order) =>
          DeletedAllFrame(s, order);
        case FlipOther(id, triggered) =>
          SetTriggeredFrame(s, id, triggered);
        case Fire(id) =>
          FiredRow(s, id);
        case Restart(resolve, restore) =>
          OnRestartRow(s, resolve, restore);
        case _ =>
      }
    }
  }

  lemma MayTurnKnown(s: State, system: string, status: Status)
    requires MayTurn(s, system, status)
    ensures system in s.systems
  {
  }

  /** Every entry that schedules an alert was written by a step that found the alert's row with these minutes, at this
      time. */
  lemma {:induction false} ScheduledFromRow(now: int, steps: seq<Step>, i: nat) returns (n: nat)
    requires i < |After(now, steps).log| && After(now, steps).log[i].Scheduled?
    ensures n < |steps| && |After(now, steps[..n]).log| <= i
    ensures FromRow(After(now, steps).log[i], After(now, steps[..n]).db.table, After(now, steps[..n]).now)
    decreases |steps|
  {
    hide Valid, FromRow, Next;
    assert steps != [] by { NothingLogged(now, steps); }
    var last := |steps| - 1;
    var before := After(now, steps[..last]);
    StepRows(before, steps[last]);
    if i < |before.log| {
      n := ScheduledFromRow(now, steps[..last], i);
      assert steps[..last][..n] == steps[..n];
    } else {
      n := last;
    }
  }

  lemma NothingLogged(now: int, steps: seq<Step>)
    ensures steps == [] ==> After(now, steps).log == []
  {
  }

  /** The delay of a down notice, from the table: there was a step that found the alert's row with m minutes, and the
      notice comes at least max(1, m) minutes after it, with no restart and no other status of the system in between. */
  lemma DownNoticeWaitsItsMinutes(now: int, steps: seq<Step>, j: nat) returns (n: nat)
    requires j < |After(now, steps).log| && After(now, steps).log[j].DownSent?
    ensures n < |steps|
    ensures var log, s := After(now, steps).log, After(now, steps[..n]);
            var e := log[j];
            && e.id in s.db.table
            && (var m := s.db.table[e.id].min % 256; e.time >= s.now + 60_000 * if m == 0 then 1 else m)
            && |s.log| <= e.since < j
            && forall k | e.since <= k < j ::
                 log[k] != Restarted && !(log[k].Turned? && log[k].system == s.db.table[e.id].system && log[k].status != Down)
  {
    hide After;
    DownNoticesAreNotEarly(now, steps, j);
    n := ScheduledFromRow(now, steps, After(now, steps).log[j].since);
  }

  /** And a pending alert is due exactly max(1, m) minutes after such a step. */
  lemma PendingAlertIsDue(now: int, steps: seq<Step>, id: string) returns (n: nat)
    requires id in After(now, steps).timers && id in After(now, steps).db.table
    ensures n < |steps|
    ensures var s := After(now, steps[..n]);
            && id in s.db.table
            && var m := s.db.table[id].min % 256;
               After(now, steps).timers[id].expire == s.now + 60_000 * if m == 0 then 1 else m
  {
    hide After;
    RunIsLogged(now, steps);
    var timer := After(now, steps).timers[id];
    assert TimerIsTrue(After(now, steps).log, id, timer);
    n := ScheduledFromRow(now, steps, timer.since);
  }

  // ---------------------------------------------------------------------------------------------
  // Which notices a change sends
  // ---------------------------------------------------------------------------------------------

  /** The up notices for the alerts of a list that are triggered and not pending. */
  function UpNotices(alerts: seq<CachedAlertData>, pending: set<string>, now: int): seq<LogEntry> {
    if alerts == [] then []
    else
      var data := alerts[|alerts| - 1];
      UpNotices(alerts[..|alerts| - 1], pending, now) +
      if data.triggered && data.id !in pending then [UpSent(data.id, now)] else []
  }

  lemma {:induction false} UpAllNotices(s: State, alerts: seq<CachedAlertData>)
    requires Copies(alerts, s.db.table)
    ensures UpAll(s, alerts).log == s.log + UpNotices(alerts, s.timers.Keys, s.now)
    decreases |alerts|
  {
    hide UpOne;
    if alerts != [] {
      var init, data := alerts[..|alerts| - 1], alerts[|alerts| - 1];
      var mid := UpAll(s, init);
      UpAllNotices(s, init);
      UpAllFrame(s, init);
      IdsOfDistinct(alerts);
      assert Same(s, mid, data.id);
      UpOneNotice(mid, data);
    }
  }

  lemma UpOneNotice(s: State, data: CachedAlertData)
    requires data.id in s.db.table
    ensures UpOne(s, data).log == s.log + if data.triggered && data.id !in s.timers then [UpSent(data.id, s.now)] else []
  {
    SetTriggeredFrame(s, data.id, false);
    hide SetTriggered;
  }

  lemma {:induction false} UpNoticesMembers(alerts: seq<CachedAlertData>, pending: set<string>, now: int)
    ensures forall e | e in UpNotices(alerts, pending, now) :: e.UpSent? && e.time == now && e.id in Ids(alerts)
    decreases |alerts|
  {
    if alerts != [] {
      var n := |alerts| - 1;
      UpNoticesMembers(alerts[..n], pending, now);
      var more := if alerts[n].triggered && alerts[n].id !in pending then [UpSent(alerts[n].id, now)] else [];
      assert UpNotices(alerts, pending, now) == UpNotices(alerts[..n], pending, now) + more;
      assert forall id | id in Ids(alerts[..n]) :: id in Ids(alerts);
    }
  }

  /** Some alert of the list with this ID is triggered. */
  predicate ShownTriggered(alerts: seq<CachedAlertData>, id: string) {
    exists i | 0 <= i < |alerts| :: alerts[i].id == id && alerts[i].triggered
  }

  lemma {:induction false} UpNoticesCount(alerts: seq<CachedAlertData>, pending: set<string>, now: int, id: string)
    requires forall i, j | 0 <= i < j < |alerts| :: alerts[i].id != alerts[j].id
    ensures multiset(UpNotices(alerts, pending, now))[UpSent(id, now)] ==
            if id !in pending && ShownTriggered(alerts, id) then 1 else 0
    decreases |alerts|
  {
    if alerts != [] {
      var n := |alerts| - 1;
      UpNoticesCount(alerts[..n], pending, now, id);
      SnocShows(alerts, id);
      CountSnoc(UpNotices(alerts[..n], pending, now), alerts[n], pending, now, id);
      hide ShownTriggered;
    }
  }

  lemma CountSnoc(sent: seq<LogEntry>, data: CachedAlertData, pending: set<string>, now: int, id: string)
    ensures multiset(sent + if data.triggered && data.id !in pending then [UpSent(data.id, now)] else [])[UpSent(id, now)] ==
            multiset(sent)[UpSent(id, now)] + if data.id == id && data.triggered && id !in pending then 1 else 0
  {
    if data.triggered && data.id !in pending {
      assert multiset(sent + [UpSent(data.id, now)]) == multiset(sent) + multiset{UpSent(data.id, now)};
    } else {
      assert sent + [] == sent;
    }
  }

  lemma SnocShows(alerts: seq<CachedAlertData>, id: string)
    requires alerts != [] && forall i, j | 0 <= i < j < |alerts| :: alerts[i].id != alerts[j].id
    ensures var n := |alerts| - 1;
            && (ShownTriggered(alerts, id) <==> ShownTriggered(alerts[..n], id) || (alerts[n].id == id && alerts[n].triggered))
            && !(ShownTriggered(alerts[..n], id) && alerts[n].id == id)
  {
    var n := |alerts| - 1;
    if ShownTriggered(alerts, id) && !(alerts[n].id == id && alerts[n].triggered) {
      var i :| 0 <= i < |alerts| && alerts[i].id == id && alerts[i].triggered;
      assert alerts[..n][i] == alerts[i];
    }
    if ShownTriggered(alerts[..n], id) {
      var i :| 0 <= i < n && alerts[..n][i].id == id && alerts[..n][i].triggered;
      assert alerts[i].id == id && alerts[i].triggered;
    }
  }

  /** A system that comes up from down gets one entry for its status and then one up notice, at that time, for each of its
      Status alerts that was triggered; there is no other entry, so none of them is reset silently. */
  lemma ComingUpNotifies(s: State, system: string, connected: bool, order: seq<string>, id: string)
    requires Valid(s) && Enabled(s, Save(system, Up, connected, order)) && system in s.store && s.store[system] == Down
    ensures var t := Next(s, Save(system, Up, connected, order));
            && |t.log| > |s.log| && t.log[..|s.log|] == s.log && t.log[|s.log|] == Turned(system, Up)
            && var sent := t.log[|s.log| + 1..];
               && (forall e | e in sent :: e.UpSent? && e.time == s.now)
               && multiset(sent)[UpSent(id, s.now)] == if IsStatusOf(s.db.table, system, id) && s.Triggered(id) then 1 else 0
  {
    hide TablesValid, Covered, StatusData, Query, Structure, OnSave, UpNotices, ShownTriggered, Next, Enabled;
    EnabledSave(s, system, Up, connected, order);
    var alerts := StatusData(Query(s.db.table, system), order);
    ComingUpLog(s, system, connected, order);
    StatusDataIs(s.db.table, system, order);
    UpNoticesMembers(alerts, s.timers.Keys, s.now);
    UpNoticesCount(alerts, s.timers.Keys, s.now, id);
    TriggeredIsListed(alerts, s.db.table, system, order, id);
    TriggeredIsNotTimed(s, id);
  }

  lemma TriggeredIsNotTimed(s: State, id: string)
    requires Valid(s)
    ensures s.IsStatusAlert(id) && s.Triggered(id) ==> id !in s.timers
  {
    hide Structure, TablesValid, Covered;
    if s.IsStatusAlert(id) {
      CoveredHas(s, id);
    }
  }

  lemma EnabledSave(s: State, system: string, status: Status, connected: bool, order: seq<string>)
    requires Valid(s) && Enabled(s, Save(system, status, connected, order))
    ensures Next(s, Save(system, status, connected, order)) == OnSave(s, system, status, connected, order)
    ensures TablesValid(s) && system != "" && Lists(s, system, order)
    ensures forall id | id in s.db.table && s.db.table[id].system == system :: id in order
  {
    hide OnSave, TablesValid, Covered;
    StructureParts(s, system);
  }

  lemma ComingUpLog(s: State, system: string, connected: bool, order: seq<string>)
    requires TablesValid(s) && system != "" && Lists(s, system, order) && system in s.store && s.store[system] == Down
    ensures OnSave(s, system, Up, connected, order).log ==
            s.log + [Turned(system, Up)] + UpNotices(StatusData(Query(s.db.table, system), order), s.timers.Keys, s.now)
  {
    hide TablesValid, StatusData, Query, UpAll, C.Loaded;
    var u := Turn(s, system, Up);
    TablesOnly(s, u);
    LoadedIsQuery(u, system);
    StatusDataIs(u.db.table, system, order);
    var v := u.(cache := C.Loaded(u.cache, u.db.table, system));
    UpAllNotices(v, StatusData(v.cache[system], order));
  }

  lemma TriggeredIsListed(alerts: seq<CachedAlertData>, table: Table, system: string, order: seq<string>, id: string)
    requires Copies(alerts, table) && forall id :: id in Ids(alerts) <==> id in order && IsStatusOf(table, system, id)
    requires forall id | id in table && table[id].system == system :: id in order
    ensures ShownTriggered(alerts, id) <==> IsStatusOf(table, system, id) && table[id].triggered
  {
    IdsOfDistinct(alerts);
    if IsStatusOf(table, system, id) && table[id].triggered {
      assert id in Ids(alerts);
      var i :| 0 <= i < |alerts| && alerts[i].id == id;
      assert alerts[i].triggered;
    }
    if ShownTriggered(alerts, id) {
      assert id in Ids(alerts);
    }
  }

  /** A timer that fires sends one down notice, at that time, exactly if its alert exists. */
  lemma FiringNotifies(s: State, id: string)
    requires Valid(s) && Enabled(s, Fire(id))
    ensures Next(s, Fire(id)).log == s.log + if id in s.db.table then [DownSent(id, s.now, s.timers[id].since)] else []
  {
    hide TablesValid, Covered, C.FindAlert;
    var u := s.(timers := s.timers - {id});
    SetTriggeredFrame(u, id, true);
    hide SetTriggered;
    if id in s.db.table {
      FoundInCache(s, id);
      TimedIsUntriggered(s, id);
    } else {
      GoneIsNotFound(s, id);
    }
  }

  lemma TimedIsUntriggered(s: State, id: string)
    requires Valid(s) && id in s.timers && id in s.db.table
    ensures !s.Triggered(id)
  {
    CoveredHas(s, id);
  }

  lemma GoneIsNotFound(s: State, id: string)
    requires Valid(s) && id in s.timers && id !in s.db.table
    ensures SentDown(s.(timers := s.timers - {id}), id, s.timers[id].since) == s.(timers := s.timers - {id})
  {
  }

  /** Pausing sends no notice, and leaves no alert of the system triggered, of whatever kind, and no timer of it. */
  lemma PausingIsSilent(s: State, system: string, connected: bool, order: seq<string>)
    requires Valid(s) && Enabled(s, Save(system, Paused, connected, order))
    ensures var t := Next(s, Save(system, Paused, connected, order));
            && s.log <= t.log && (forall j | |s.log| <= j < |t.log| :: t.log[j].Turned? || t.log[j].Reset?)
            && (forall id | id in t.db.table && t.db.table[id].system == system :: !t.Triggered(id))
            && (forall id | id in t.timers :: t.timers[id].system != system)
  {
    hide Valid, ResetAll, Next, Enabled, Lists;
    EnabledSave(s, system, Paused, connected, order);
    var u := Turn(s, system, Paused);
    ResetAllFrame(u, order);
    ResetAllIsSilent(u, order);
    ResetLeavesNone(s, u, ResetAll(u, order), system, order);
  }

  lemma ResetLeavesNone(s: State, u: State, t: State, system: string, order: seq<string>)
    requires u.db.table == s.db.table && SameSystems(u, t) && forall id | id in order :: !t.Triggered(id)
    requires forall id | id in s.db.table && s.db.table[id].system == system :: id in order
    ensures forall id | id in t.db.table && t.db.table[id].system == system :: !t.Triggered(id)
  {
    forall id | id in t.db.table && t.db.table[id].system == system
      ensures !t.Triggered(id)
    {
      assert id in u.db.table && u.db.table[id].system == system;
    }
  }

  lemma {:induction false} ResetAllIsSilent(s: State, ids: seq<string>)
    ensures s.log <= ResetAll(s, ids).log
    ensures forall j | |s.log| <= j < |ResetAll(s, ids).log| :: ResetAll(s, ids).log[j].Reset?
    decreases |ids|
  {
    hide ResetOne;
    if ids != [] {
      var t := ResetAll(s, ids[..|ids| - 1]);
      ResetAllIsSilent(s, ids[..|ids| - 1]);
      ResetOneIsSilent(t, ids[|ids| - 1]);
    }
  }

  lemma ResetOneIsSilent(s: State, id: string)
    ensures ResetOne(s, id).log == s.log || ResetOne(s, id).log == s.log + [Reset(id)]
  {
    SetTriggeredFrame(s, id, false);
    hide SetTriggered;
  }

  /** Resuming a system without a connection leaves none of its alerts triggered either. */
  lemma ResumingDeactivates(s: State, system: string, order: seq<string>)
    requires Valid(s) && Enabled(s, Save(system, Pending, false, order))
    ensures var t := Next(s, Save(system, Pending, false, order));
            forall id | id in t.db.table && t.db.table[id].system == system :: !t.Triggered(id)
  {
    hide Valid, ResetAll, Next, Enabled, Lists;
    EnabledSave(s, system, Pending, false, order);
    var u := Turn(s, system, Pending);
    ResetAllFrame(u, order);
    ResetLeavesNone(s, u, ResetAll(u, order), system, order);
  }

  // ---------------------------------------------------------------------------------------------
  // What each step does to the tables
  // ---------------------------------------------------------------------------------------------

  predicate SameRows(s: State, t: State) {
    t.db.table.Keys == s.db.table.Keys
    && forall id | id in s.db.table :: t.db.table[id] == s.db.table[id].(triggered := t.db.table[id].triggered)
  }

  /** Nothing happens to the alerts of other systems, nor to their timers. */
  predicate OthersAlone(s: State, t: State, system: string) {
    forall id | id in s.db.table && s.db.table[id].system != system ::
      id in t.db.table && t.db.table[id] == s.db.table[id] && SameTimer(s, t, id)
  }

  /** The systems, those of them that the manager has, and the alerts after a step: nothing is changed but what the step
      is about. Whether an alert is triggered is not said here. */
  predicate Effects(s: State, step: Step, t: State) {
    && t.systems == (match step
                     case CreateSystem(system) => s.systems[system := Pending]
                     case Save(system, status, _, _) => s.systems[system := status]
                     case NewToken(system, _) =>
                       if system in s.store && system in s.systems && s.systems[system] in {Up, Pending} then s.systems[system := Down] else s.systems
                     case DeleteSystem(system, _) => s.systems - {system}
                     case _ => s.systems)
    && t.store.Keys == (match step
                        case Connect(system) => s.store.Keys + {system}
                        case Disconnect(system) => s.store.Keys - {system}
                        case NewToken(system, _) => s.store.Keys - {system}
                        case DeleteSystem(system, _) => s.store.Keys - {system}
                        case Restart(_, _) => {}
                        case _ => s.store.Keys)
    && RowsAfter(s, step, t)
  }

  predicate RowsAfter(s: State, step: Step, t: State) {
    match step
    case CreateAlert(id, a) => t.db.table == s.db.table[id := a]
    case EditAlert(id, value, min) => id in s.db.table && t.db.table == s.db.table[id := s.db.table[id].(value := value, min := min)]
    case DeleteAlert(id) => t.db.table == s.db.table - {id}
    case DeleteSystem(system, _) => t.db.table == map id | id in s.db.table && s.db.table[id].system != system :: s.db.table[id]
    case Save(system, _, _, _) => SameRows(s, t) && OthersAlone(s, t, system)
    case NewToken(system, _) => SameRows(s, t) && OthersAlone(s, t, system)
    case FlipOther(id, triggered) => id in s.db.table && t.db.table == s.db.table[id := s.db.table[id].(triggered := triggered)]
    case Fire(_) => SameRows(s, t)
    case Restart(_, _) => SameRows(s, t)
    case _ => t.db.table == s.db.table
  }

  lemma StepEffects(s: State, step: Step)
    requires Valid(s) && Enabled(s, step)
    ensures Effects(s, step, Next(s, step))
  {
    hide OnSave, OnNewToken, Dropped, Fired, OnRestart, MayTurn, Covered, TablesValid, Lists, Effects, SetTriggered, Saved, DeletedOne;
    match step {
      case Save(system, status, connected, order) =>
        MayTurnKnown(s, system, status);
        StructureParts(s, system);
        SaveEffects(s, system, status, connected, order);
      case NewToken(system, order) =>
        OnNewTokenEffects(s, system, order);
      case DeleteSystem(system, order) =>
        DroppedEffects(s, system, order);
      case Fire(id) =>
        FiredEffects(s, id);
      case Restart(resolve, restore) =>
        RestartEffects(s, resolve, restore);
      case _ =>
        OtherEffects(s, step);
    }
  }

  lemma SaveEffects(s: State, system: string, status: Status, connected: bool, order: seq<string>)
    requires Structure(s) && TablesValid(s) && system != "" && Lists(s, system, order)
    ensures Effects(s, Save(system, status, connected, order), OnSave(s, system, status, connected, order))
  {
    hide OnSave, TablesValid, SameRows, OthersAlone;
    OnSaveEffects(s, system, status, connected, order);
  }

  lemma OtherEffects(s: State, step: Step)
    requires Structure(s) && Enabled(s, step)
    requires !step.Save? && !step.NewToken? && !step.DeleteSystem? && !step.Fire? && !step.Restart?
    ensures Effects(s, step, Apply(s, step))
  {
    hide OthersAlone, SameRows, H.AfterUpdate, H.AfterDelete, H.Trimmed, H.WithoutSystem, C.Updated, C.Deleted;
  }

  lemma OnSaveEffects(s: State, system: string, status: Status, connected: bool, order: seq<string>)
    requires Structure(s) && TablesValid(s) && system != "" && Lists(s, system, order)
    ensures var t := OnSave(s, system, status, connected, order);
            && t.systems == s.systems[system := status] && SameRows(s, t) && OthersAlone(s, t, system)
            && t.store == if system in s.store then s.store[system := status] else s.store
  {
    hide TablesValid, ResetAll, WentUp, WentDown, SameRows, OthersAlone, CancelledFor;
    var u := Turn(s, system, status);
    TablesOnly(s, u);
    ResetEffects(u, system, order);
    ChangeEffects(u, system, order);
    TurnIsNoRow(s, system, status);
    OfTurn(s, u, OnSave(s, system, status, connected, order), system);
  }

  lemma TurnIsNoRow(s: State, system: string, status: Status)
    ensures var u := Turn(s, system, status);
            u.db == s.db && u.timers == s.timers && SameRows(u, u) && OthersAlone(u, u, system)
  {
  }

  lemma OfTurn(s: State, u: State, t: State, system: string)
    requires u.db == s.db && u.timers == s.timers && SameRows(u, t) && OthersAlone(u, t, system)
    ensures SameRows(s, t) && OthersAlone(s, t, system)
  {
  }

  lemma ResetEffects(u: State, system: string, order: seq<string>)
    requires Lists(u, system, order)
    requires forall id | id in u.timers && id in u.db.table :: u.timers[id].system == u.db.table[id].system
    ensures var r := ResetAll(u, order);
            && r.systems == u.systems && r.store == u.store && SameRows(u, r) && OthersAlone(u, r, system)
            && var t := CancelledFor(r, system);
               t.systems == u.systems && t.store == u.store && SameRows(u, t) && OthersAlone(u, t, system)
  {
    hide TablesValid, ResetAll;
    ResetAllFrame(u, order);
    var r := ResetAll(u, order);
    forall id | id in u.db.table && u.db.table[id].system != system
      ensures r.db.table[id] == u.db.table[id]
    {
      assert id !in order && (r.Triggered(id) <==> u.Triggered(id));
    }
  }

  lemma ChangeEffects(u: State, system: string, order: seq<string>)
    requires TablesValid(u) && system != "" && Lists(u, system, order)
    ensures var d := WentDown(u, system, order); d.systems == u.systems && d.store == u.store && SameRows(u, d) && OthersAlone(u, d, system)
    ensures var t := WentUp(u, system, order); t.systems == u.systems && t.store == u.store && SameRows(u, t) && OthersAlone(u, t, system)
  {
    hide TablesValid, WentUp, WentDown, Lists;
    WentDownFrame(u, system, order);
    WentUpFrame(u, system, order);
  }

  lemma OnNewTokenEffects(s: State, system: string, order: seq<string>)
    requires Valid(s) && system in s.systems && Lists(s, system, order)
    ensures Effects(s, NewToken(system, order), OnNewToken(s, system, order))
  {
    hide OnSave, TablesValid, Covered, Lists, SameRows, OthersAlone;
    StructureParts(s, system);
    SameRowsItself(s, system);
    OnSaveEffects(s, system, s.systems[system], false, order);
    OnSaveEffects(s, system, Down, true, order);
    if system in s.store {
      ManagerIsUpToDate(s, system, order);
      LeavingIsNoRow(s, StatusAlerts.SetDown(s, system, order), system);
    }
  }

  lemma LeavingIsNoRow(s: State, u: State, system: string)
    requires SameRows(s, u) && OthersAlone(s, u, system)
    ensures SameRows(s, Removed(u, system)) && OthersAlone(s, Removed(u, system), system)
  {
  }

  lemma SameRowsItself(s: State, system: string)
    ensures SameRows(s, s) && OthersAlone(s, s, system)
  {
  }

  lemma DroppedEffects(s: State, system: string, order: seq<string>)
    requires Valid(s) && system in s.systems && Lists(s, system, order)
    ensures Effects(s, DeleteSystem(system, order), Dropped(s, system, order))
    ensures Dropped(s, system, order).timers == s.timers && Dropped(s, system, order).log == s.log
  {
    hide TablesValid, Covered, DeletedAll, H.WithoutSystem;
    DeletedAllFrame(s, order);
  }

  lemma FiredEffects(s: State, id: string)
    requires id in s.timers
    ensures Effects(s, Fire(id), Fired(s, id))
  {
    var u := s.(timers := s.timers - {id});
    SetTriggeredFrame(u, id, true);
    hide SetTriggered, C.FindAlert;
  }

  lemma RestartEffects(s: State, resolve: seq<string>, restore: seq<string>)
    ensures Effects(s, Restart(resolve, restore), OnRestart(s, resolve, restore))
  {
    hide ResetAll, RestoredAll;
    ResetAllFrame(Stopped(s), resolve);
    RestoredAllTables(ResetAll(Stopped(s), resolve), restore);
  }

  lemma {:induction false} RestoredAllTables(s: State, ids: seq<string>)
    ensures var t := RestoredAll(s, ids); t.db == s.db && t.systems == s.systems && t.store == s.store
    decreases |ids|
  {
    if ids != [] {
      RestoredAllTables(s, ids[..|ids| - 1]);
    }
  }
}
