/** Status alerts over whole runs: internal/alerts/alerts_status.go, the hooks of
    internal/hub/systems/system_manager.go lines 104-185 and 254-270, and the status saves of
    internal/hub/systems/system.go lines 143-208 and 313-329.

    Each hook, timer callback and load-set-save is one step; saves succeed. Times are in milliseconds. */
module StatusAlerts {
  import opened Common
  import opened Alerts
  import C = AlertsCacheSpec
  import H = AlertsHistorySpec

  datatype Status = Up | Down | Paused | Pending

  const MINUTE: int := 60_000

  /** An entry of pendingAlerts. `since` is the place in the log where it was scheduled. */
  datatype Timer = Timer(system: string, expire: int, since: nat)

  /** What happened, for the properties over whole runs. `Reset` is a change of `triggered` without a notice. */
  datatype LogEntry =
    | Scheduled(id: string, system: string, time: int, min: int)
    | DownSent(id: string, time: int, since: nat)
    | UpSent(id: string, time: int)
    | Reset(id: string)
    | Turned(system: string, status: Status)
    | Restarted

  /** `systems` is the status column of the systems table, `store` the Status fields of the systems in the
      manager, `timers` pendingAlerts. `used` holds every alert ID ever given out. `armed` are the alerts that
      were there when their system went down from up, or when the hub restarted while it was down. */
  datatype State = State(systems: map<string, Status>, store: map<string, Status>, db: H.Db, cache: C.Contents,
                         timers: map<string, Timer>, log: seq<LogEntry>, now: int, used: set<string>, armed: set<string>)
  {
    predicate IsStatusAlert(id: string) {
      id in db.table && db.table[id].name == "Status"
    }

    predicate Triggered(id: string) {
      H.Triggered(db.table, id)
    }
  }

  function Max(a: int, b: int): int {
    if a >= b then a else b
  }

  // ---------------------------------------------------------------------------------------------
  // One alert
  // ---------------------------------------------------------------------------------------------

  /** A save of an alert row, with its hooks on the history and on the cache. */
  function Saved(s: State, id: string, a: Alert): State {
    s.(db := H.Next(s.db, H.Update(id, a)), cache := C.Updated(s.cache, id, a))
  }

  /** setAlertTriggered, and the same load-set-save in deactivateAlerts and resolveStatusAlerts. */
  function SetTriggered(s: State, id: string, triggered: bool): State {
    if id in s.db.table then Saved(s, id, s.db.table[id].(triggered := triggered)) else s
  }

  function Logged(s: State, e: LogEntry): State {
    s.(log := s.log + [e])
  }

  /** sendStatusAlert; nothing is sent for an alert that is gone. */
  function SentUp(s: State, id: string): State {
    if id in s.db.table then Logged(SetTriggered(s, id, false), UpSent(id, s.now)) else s
  }

  function SentDown(s: State, id: string, since: nat): State {
    if id in s.db.table then Logged(SetTriggered(s, id, true), DownSent(id, s.now, since)) else s
  }

  /** schedulePendingStatusAlert with the delay of its callers. */
  function ScheduledOne(s: State, data: CachedAlertData): State {
    if data.id in s.timers then s
    else
      Logged(s, Scheduled(data.id, data.systemId, s.now, data.min)).
        (timers := s.timers[data.id := Timer(data.systemId, s.now + Max(1, data.min) * MINUTE, |s.log|)])
  }

  /** The body of the loop in handleSystemUp. */
  function UpOne(s: State, data: CachedAlertData): State {
    if data.id in s.timers then s.(timers := s.timers - {data.id})
    else if !data.triggered then s
    else SentUp(s, data.id)
  }

  /** The silent reset of a triggered alert. */
  function ResetOne(s: State, id: string): State {
    if !s.Triggered(id) then s
    else
      var t := SetTriggered(s, id, false);
      if s.IsStatusAlert(id) then Logged(t, Reset(id)) else t
  }

  /** processPendingAlert, the timer's callback. */
  function Fired(s: State, id: string): State
    requires id in s.timers
  {
    var timer := s.timers[id];
    var t := s.(timers := s.timers - {id});
    var data := if id == "" then None else C.FindAlert(s.cache, timer.system, id);
    if data.None? || data.value.triggered then t else SentDown(t, id, timer.since)
  }

  // ---------------------------------------------------------------------------------------------
  // The loops
  // ---------------------------------------------------------------------------------------------

  /** GetAlertsByName(system, "Status") on the entries of the store, in the order given. */
  function StatusData(entries: map<string, CachedAlertData>, order: seq<string>): seq<CachedAlertData> {
    if order == [] then []
    else
      var id := order[|order| - 1];
      StatusData(entries, order[..|order| - 1]) +
      if id in entries && entries[id].name == "Status" then [entries[id]] else []
  }

  function ScheduledAll(s: State, alerts: seq<CachedAlertData>): State {
    if alerts == [] then s else ScheduledOne(ScheduledAll(s, alerts[..|alerts| - 1]), alerts[|alerts| - 1])
  }

  function UpAll(s: State, alerts: seq<CachedAlertData>): State {
    if alerts == [] then s else UpOne(UpAll(s, alerts[..|alerts| - 1]), alerts[|alerts| - 1])
  }

  function ResetAll(s: State, ids: seq<string>): State {
    if ids == [] then s else ResetOne(ResetAll(s, ids[..|ids| - 1]), ids[|ids| - 1])
  }

  /** HandleStatusAlerts on the change to down and to up. */
  function WentDown(s: State, system: string, order: seq<string>): State {
    var t := s.(cache := C.Loaded(s.cache, s.db.table, system));
    var alerts := StatusData(t.cache[system], order);
    ScheduledAll(t, alerts).(armed := s.armed + Ids(alerts))
  }

  function WentUp(s: State, system: string, order: seq<string>): State {
    var t := s.(cache := C.Loaded(s.cache, s.db.table, system));
    UpAll(t, StatusData(t.cache[system], order))
  }

  function Ids(alerts: seq<CachedAlertData>): set<string> {
    if alerts == [] then {} else Ids(alerts[..|alerts| - 1]) + {alerts[|alerts| - 1].id}
  }

  /** CancelPendingStatusAlerts. */
  function CancelledFor(s: State, system: string): State {
    s.(timers := map id | id in s.timers && s.timers[id].system != system :: s.timers[id])
  }

  /** The alerts of a system. */
  function AlertsOf(table: Table, system: string): set<string> {
    set id | id in table && table[id].system == system
  }

  // ---------------------------------------------------------------------------------------------
  // The hooks of the systems table
  // ---------------------------------------------------------------------------------------------

  /** onRecordAfterUpdateSuccess, when the token did not change. `connected` says whether the system in the
      manager has a WebSocket connection, `order` in which order the alerts of the system are listed. */
  function OnSave(s: State, system: string, status: Status, connected: bool, order: seq<string>): State {
    var ok := system in s.store;
    var prev := if ok then s.store[system] else Pending;
    var t := Turn(s, system, status);
    match status
    case Paused => CancelledFor(ResetAll(t, order), system)
    case Pending => if ok && connected then t else ResetAll(t, order)
    case Down => if ok && prev == Up then WentDown(t, system, order) else t
    case Up => if ok && prev == Down then WentUp(t, system, order) else t
  }

  /** The new status, in the table and in the manager. */
  function Turn(s: State, system: string, status: Status): State {
    Logged(s, Turned(system, status)).
      (systems := s.systems[system := status],
       store := if system in s.store then s.store[system := status] else s.store,
       armed := if status == Down then s.armed else s.armed - AlertsOf(s.db.table, system))
  }

  function Removed(s: State, system: string): State {
    s.(store := s.store - {system})
  }

  /** onRecordAfterUpdateSuccess, when the token changed: the system goes down and leaves the manager. */
  function OnNewToken(s: State, system: string, order: seq<string>): State
    requires system in s.systems
  {
    if system !in s.store then OnSave(s, system, s.systems[system], false, order)
    else Removed(SetDown(s.(store := s.store[system := s.systems[system]]), system, order), system)
  }

  /** setDown, of a system in the manager: nothing if it is down or paused. */
  function SetDown(s: State, system: string, order: seq<string>): State
    requires system in s.store
  {
    if s.store[system] in {Down, Paused} then s else OnSave(s, system, Down, true, order)
  }

  /** The deletion of a system: its alerts go one by one, with their hooks, then its history. */
  function DeletedAll(s: State, ids: seq<string>): State {
    if ids == [] then s else DeletedOne(DeletedAll(s, ids[..|ids| - 1]), ids[|ids| - 1])
  }

  function DeletedOne(s: State, id: string): State {
    if id !in s.db.table then s
    else s.(db := H.Next(s.db, H.Delete(id)), cache := C.Deleted(s.cache, id, s.db.table[id]))
  }

  function Dropped(s: State, system: string, order: seq<string>): State {
    var t := DeletedAll(s, order);
    Removed(t.(db := H.Next(t.db, H.DropSystem(system)), systems := t.systems - {system}), system)
  }

  // ---------------------------------------------------------------------------------------------
  // Restart
  // ---------------------------------------------------------------------------------------------

  /** The Status alerts that resolveStatusAlerts selects: triggered, of systems that are up. */
  predicate ToResolve(s: State, id: string) {
    s.IsStatusAlert(id) && s.Triggered(id) && s.db.table[id].system in s.systems && s.systems[s.db.table[id].system] == Up
  }

  /** Those that restorePendingStatusAlerts selects: untriggered, of systems that are down. */
  predicate ToRestore(s: State, id: string) {
    s.IsStatusAlert(id) && !s.Triggered(id) && IsDown(s, s.db.table[id].system)
  }

  predicate IsDown(s: State, system: string) {
    system in s.systems && s.systems[system] == Down
  }

  /** Memory is lost with the process: timers, the manager's systems and the cache. */
  function Stopped(s: State): State {
    Logged(s, Restarted).(timers := map[], store := map[], cache := C.Populated(s.db.table), armed := {})
  }

  function RestoredAll(s: State, ids: seq<string>): State {
    if ids == [] then s
    else RestoredOne(RestoredAll(s, ids[..|ids| - 1]), ids[|ids| - 1])
  }

  function RestoredOne(s: State, id: string): State {
    if id !in s.db.table then s
    else
      var data := C.FindAlert(s.cache, s.db.table[id].system, id);
      if data.None? then s else ScheduledOne(s, data.value)
  }

  /** Stop and start: PopulateFromDB, resolveStatusAlerts, restorePendingStatusAlerts. */
  function OnRestart(s: State, resolve: seq<string>, restore: seq<string>): State {
    var t := ResetAll(Stopped(s), resolve);
    RestoredAll(t, restore).(armed := set id | id in t.db.table && t.IsStatusAlert(id) && IsDown(t, t.db.table[id].system))
  }

  // ---------------------------------------------------------------------------------------------
  // Steps
  // ---------------------------------------------------------------------------------------------

  datatype Step =
    | CreateSystem(system: string)                                                  // pending until its agent connects
    | Connect(system: string)                                                       // AddWebSocketSystem
    | Disconnect(system: string)                                                    // RemoveSystem
    | Save(system: string, status: Status, connected: bool, order: seq<string>)
    | NewToken(system: string, order: seq<string>)
    | DeleteSystem(system: string, order: seq<string>)
    | CreateAlert(id: string, alert: Alert)
    | EditAlert(id: string, value: real, min: int)
    | DeleteAlert(id: string)
    | FlipOther(id: string, triggered: bool)                                        // an alert that is not a Status alert
    | Fire(id: string)
    | Restart(resolve: seq<string>, restore: seq<string>)
    | TrimHistory
    | Tick(ms: nat)

  predicate Distinct(ids: seq<string>) {
    forall i, j | 0 <= i < j < |ids| :: ids[i] != ids[j]
  }

  /** An order of the alerts of the system. */
  ghost predicate Lists(s: State, system: string, order: seq<string>) {
    Distinct(order) && forall id :: id in order <==> id in AlertsOf(s.db.table, system)
  }

  /** The status saves that there are: an update that succeeds sets up, setDown sets down, the user pauses and resumes,
      and other fields are saved with the status unchanged. Updates and setDown look at the status before they save, but
      the user may pause in between, so they can hit a paused system too; they can even hit one that has just left the
      manager. Of those, an update that saves up while an alert of the system is armed is the one case that is not among
      the steps; UnmanagedUpKeepsIff says that exactly these break the invariant. */
  ghost predicate MayTurn(s: State, system: string, status: Status) {
    && system in s.systems
    && (|| s.systems[system] == status
        || match status
           case Up => system in s.store || Unarmed(s, system)
           case Down => true
           case Paused => true
           case Pending => s.systems[system] == Paused)
  }

  ghost predicate Unarmed(s: State, system: string) {
    forall id | IsStatusOf(s.db.table, system, id) :: id !in s.armed
  }

  ghost predicate Enabled(s: State, step: Step) {
    match step
    case CreateSystem(system) => system !in s.systems && system != ""
    case Connect(system) => system in s.systems
    case Disconnect(system) => true
    case Save(system, status, _, order) => MayTurn(s, system, status) && Lists(s, system, order)
    case NewToken(system, order) => system in s.systems && Lists(s, system, order)
    case DeleteSystem(system, order) => system in s.systems && Lists(s, system, order)
    case CreateAlert(id, a) => id !in s.used && id != "" && a.system in s.systems && !a.triggered
    case EditAlert(id, _, _) => id in s.db.table
    case DeleteAlert(id) => id in s.db.table
    case FlipOther(id, _) => id in s.db.table && s.db.table[id].name != "Status"
    case Fire(id) => id in s.timers && s.timers[id].expire <= s.now
    case Restart(resolve, restore) =>
      && Distinct(resolve) && (forall id :: id in resolve <==> ToResolve(s, id))
      && Distinct(restore) && (forall id :: id in restore <==> ToRestore(s, id))
    case TrimHistory => true
    case Tick(_) => true
  }

  function Apply(s: State, step: Step): State
    requires Enabled(s, step)
  {
    match step
    case CreateSystem(system) => s.(systems := s.systems[system := Pending])
    case Connect(system) => s.(store := s.store[system := s.systems[system]])
    case Disconnect(system) => Removed(s, system)
    case Save(system, status, connected, order) => OnSave(s, system, status, connected, order)
    case NewToken(system, order) => OnNewToken(s, system, order)
    case DeleteSystem(system, order) => Dropped(s, system, order)
    case CreateAlert(id, a) =>
      s.(db := H.Next(s.db, H.Create(id, a)), cache := C.Updated(s.cache, id, a), used := s.used + {id})
    case EditAlert(id, value, min) => Saved(s, id, s.db.table[id].(value := value, min := min))
    case DeleteAlert(id) => DeletedOne(s, id)
    case FlipOther(id, triggered) => SetTriggered(s, id, triggered)
    case Fire(id) => Fired(s, id)
    case Restart(resolve, restore) => OnRestart(s, resolve, restore)
    case TrimHistory => s.(db := H.Next(s.db, H.Trim))
    case Tick(ms) => s.(now := s.now + ms)
  }

  function Init(now: int): State {
    State(map[], map[], H.Db(map[], []), map[], map[], [], now, {}, {})
  }

  // ---------------------------------------------------------------------------------------------
  // What every step keeps
  // ---------------------------------------------------------------------------------------------

  /** Rows refer to rows that exist, armed alerts to systems that are down, the manager knows the status in the
      table, and a timer of an alert that still exists is one of a Status alert and names its system. */
  ghost predicate Structure(s: State) {
    && "" !in s.systems
    && (forall system | system in s.store :: system in s.systems && s.store[system] == s.systems[system])
    && (forall id | id in s.db.table :: id != "" && id in s.used && s.db.table[id].system in s.systems)
    && (forall id | id in s.timers :: id in s.used)
    && (forall id | id in s.timers && id in s.db.table :: s.IsStatusAlert(id) && s.timers[id].system == s.db.table[id].system)
    && (forall id | id in s.armed :: id in s.used && (id in s.db.table ==> IsDown(s, s.db.table[id].system)))
  }

  /** The cache agrees with the table and no alert has two open history records. */
  ghost predicate TablesValid(s: State) {
    C.Valid(C.State(s.db.table, s.cache)) && H.AtMostOne(s.db)
  }

  /** An armed alert of a system that is down is pending or triggered, not both; every other Status alert is
      neither. */
  ghost predicate Covered(s: State) {
    forall id | s.IsStatusAlert(id) :: CoveredOne(s, id)
  }

  predicate CoveredOne(s: State, id: string)
    requires id in s.db.table
  {
    if IsDown(s, s.db.table[id].system) && id in s.armed then id in s.timers <==> !s.Triggered(id)
    else id !in s.timers && !s.Triggered(id)
  }

  /** The parts of the state that no loop over alerts changes. */
  predicate SameSystems(s: State, t: State) {
    && t.systems == s.systems && t.store == s.store && t.used == s.used && t.armed == s.armed && t.now == s.now
    && t.db.table.Keys == s.db.table.Keys
    && forall id | id in s.db.table :: t.db.table[id] == s.db.table[id].(triggered := t.db.table[id].triggered)
  }

  predicate SameTimer(s: State, t: State, id: string) {
    (id in t.timers <==> id in s.timers) && (id in s.timers ==> t.timers[id] == s.timers[id])
  }

  /** Nothing changes for the alert. */
  predicate Same(s: State, t: State, id: string) {
    SameTimer(s, t, id) && (s.Triggered(id) <==> t.Triggered(id))
  }

  lemma SetTriggeredFrame(s: State, id: string, triggered: bool)
    ensures var t := SetTriggered(s, id, triggered);
            && SameSystems(s, t) && t.timers == s.timers && t.log == s.log
            && (TablesValid(s) ==> TablesValid(t))
            && (forall other | other != id :: s.Triggered(other) <==> t.Triggered(other))
            && (id in s.db.table ==> (t.Triggered(id) <==> triggered))
  {
    hide TablesValid, C.Updated, H.AfterUpdate;
    SetTriggeredTables(s, id, triggered);
  }

  lemma SetTriggeredTables(s: State, id: string, triggered: bool)
    ensures TablesValid(s) ==> TablesValid(SetTriggered(s, id, triggered))
  {
    hide H.AtMostOne, C.Agrees, C.Complete;
    if id in s.db.table && TablesValid(s) {
      var a := s.db.table[id].(triggered := triggered);
      H.AtMostOneKept(s.db, H.Update(id, a));
      C.WriteKeepsValid(C.State(s.db.table, s.cache), id, a);
    }
  }

  lemma UpOneFrame(s: State, data: CachedAlertData)
    ensures var t := UpOne(s, data);
            && SameSystems(s, t) && (TablesValid(s) ==> TablesValid(t))
            && (forall id | id != data.id :: Same(s, t, id))
            && data.id !in t.timers
            && (data.id in s.db.table && data.triggered == s.Triggered(data.id) ==>
                  (t.Triggered(data.id) <==> s.Triggered(data.id) && data.id in s.timers))
  {
    hide TablesValid;
    SetTriggeredFrame(s, data.id, false);
    hide SetTriggered;
    TablesOnly(s, s.(timers := s.timers - {data.id}));
    TablesOnly(SetTriggered(s, data.id, false), SentUp(s, data.id));
  }

  lemma TablesOnly(s: State, t: State)
    ensures s.db == t.db && s.cache == t.cache ==> (TablesValid(s) <==> TablesValid(t))
  {
  }

  lemma ResetOneFrame(s: State, id: string)
    ensures var t := ResetOne(s, id);
            && SameSystems(s, t) && t.timers == s.timers && (TablesValid(s) ==> TablesValid(t))
            && (forall other | other != id :: s.Triggered(other) <==> t.Triggered(other))
            && !t.Triggered(id)
  {
    hide TablesValid;
    SetTriggeredFrame(s, id, false);
    hide SetTriggered;
    TablesOnly(SetTriggered(s, id, false), ResetOne(s, id));
  }

  lemma {:induction false} ResetAllFrame(s: State, ids: seq<string>)
    ensures var t := ResetAll(s, ids);
            && SameSystems(s, t) && t.timers == s.timers && (TablesValid(s) ==> TablesValid(t))
            && (forall id :: t.Triggered(id) <==> s.Triggered(id) && id !in ids)
    decreases |ids|
  {
    hide TablesValid, ResetOne;
    if ids != [] {
      var init, id := ids[..|ids| - 1], ids[|ids| - 1];
      ResetAllFrame(s, init);
      ResetOneFrame(ResetAll(s, init), id);
      assert forall other :: other in ids <==> other in init || other == id;
    }
  }

  lemma {:induction false} ScheduledAllFrame(s: State, alerts: seq<CachedAlertData>)
    ensures var t := ScheduledAll(s, alerts);
            && SameSystems(s, t) && t.db == s.db && t.cache == s.cache
            && (forall id :: id in t.timers <==> id in s.timers || id in Ids(alerts))
            && (forall id | id in s.timers :: t.timers[id] == s.timers[id])
            && (forall id | id in t.timers && id !in s.timers ::
                  exists i | 0 <= i < |alerts| :: alerts[i].id == id && t.timers[id].system == alerts[i].systemId)
    decreases |alerts|
  {
    if alerts != [] {
      ScheduledAllFrame(s, alerts[..|alerts| - 1]);
    }
  }

  /** The alerts of a list are copies of rows. */
  predicate Copies(alerts: seq<CachedAlertData>, table: Table) {
    && (forall i | 0 <= i < |alerts| :: alerts[i].id in table && alerts[i] == Snapshot(alerts[i].id, table[alerts[i].id]))
    && (forall i, j | 0 <= i < j < |alerts| :: alerts[i].id != alerts[j].id)
  }

  lemma {:induction false} UpAllFrame(s: State, alerts: seq<CachedAlertData>)
    requires Copies(alerts, s.db.table)
    ensures var t := UpAll(s, alerts);
            && SameSystems(s, t) && (TablesValid(s) ==> TablesValid(t))
            && (forall id | id !in Ids(alerts) :: Same(s, t, id))
            && (forall id | id in Ids(alerts) :: id !in t.timers && (t.Triggered(id) <==> s.Triggered(id) && id in s.timers))
    decreases |alerts|
  {
    hide TablesValid, UpOne;
    if alerts != [] {
      var init, data := alerts[..|alerts| - 1], alerts[|alerts| - 1];
      UpAllFrame(s, init);
      IdsOfDistinct(alerts);
      var mid := UpAll(s, init);
      assert Ids(alerts) == Ids(init) + {data.id};
      assert Same(s, mid, data.id) && data.triggered == s.Triggered(data.id);
      UpOneFrame(mid, data);
      var t := UpAll(s, alerts);
      forall id | id !in Ids(alerts)
        ensures Same(s, t, id)
      {
        assert Same(s, mid, id) && Same(mid, t, id);
      }
      forall id | id in Ids(alerts)
        ensures id !in t.timers && (t.Triggered(id) <==> s.Triggered(id) && id in s.timers)
      {
        if id != data.id {
          assert Same(mid, t, id);
        }
      }
    }
  }

  lemma {:induction false} IdsOfDistinct(alerts: seq<CachedAlertData>)
    requires forall i, j | 0 <= i < j < |alerts| :: alerts[i].id != alerts[j].id
    ensures forall id :: id in Ids(alerts) <==> exists i | 0 <= i < |alerts| :: alerts[i].id == id
    ensures alerts != [] ==> alerts[|alerts| - 1].id !in Ids(alerts[..|alerts| - 1])
    decreases |alerts|
  {
    if alerts != [] {
      var n := |alerts| - 1;
      IdsOfDistinct(alerts[..n]);
      forall id
        ensures id in Ids(alerts) <==> exists i | 0 <= i < |alerts| :: alerts[i].id == id
      {
        if i :| 0 <= i < |alerts| && alerts[i].id == id && i < n {
          assert alerts[..n][i].id == id;
        }
        if id in Ids(alerts[..n]) {
          var i :| 0 <= i < n && alerts[..n][i].id == id;
          assert alerts[i].id == id;
        }
      }
    }
  }

  predicate IsStatusOf(table: Table, system: string, id: string) {
    id in table && table[id].system == system && table[id].name == "Status"
  }

  lemma {:induction false} StatusDataIs(table: Table, system: string, order: seq<string>)
    requires Distinct(order)
    ensures var data := StatusData(Query(table, system), order);
            && Copies(data, table)
            && (forall id :: id in Ids(data) <==> id in order && IsStatusOf(table, system, id))
            && (forall i | 0 <= i < |data| :: data[i].systemId == system)
    decreases |order|
  {
    hide Query, Copies, Ids;
    NoCopies(table);
    if order != [] {
      var init, id := order[..|order| - 1], order[|order| - 1];
      StatusDataIs(table, system, init);
      QueryRow(table, system, id);
      assert forall other :: other in order <==> other in init || other == id;
      if IsStatusOf(table, system, id) {
        OneMoreCopy(StatusData(Query(table, system), init), Snapshot(id, table[id]), table);
      } else {
        assert StatusData(Query(table, system), order) == StatusData(Query(table, system), init);
      }
    }
  }

  lemma NoCopies(table: Table)
    ensures Copies([], table) && Ids([]) == {}
  {
  }

  lemma OneMoreCopy(alerts: seq<CachedAlertData>, data: CachedAlertData, table: Table)
    requires Copies(alerts, table) && data.id in table && data == Snapshot(data.id, table[data.id]) && data.id !in Ids(alerts)
    ensures Copies(alerts + [data], table) && Ids(alerts + [data]) == Ids(alerts) + {data.id}
  {
    IdsOfDistinct(alerts);
    assert (alerts + [data])[..|alerts|] == alerts;
  }

  lemma QueryRow(table: Table, system: string, id: string)
    ensures id in Query(table, system) <==> id in table && table[id].system == system
    ensures id in Query(table, system) ==> Query(table, system)[id] == Snapshot(id, table[id])
  {
  }

  lemma LoadedIsQuery(s: State, system: string)
    requires TablesValid(s) && system != ""
    ensures var t := s.(cache := C.Loaded(s.cache, s.db.table, system));
            TablesValid(t) && system in t.cache && t.cache[system] == Query(s.db.table, system)
  {
    hide Query, H.AtMostOne;
    C.StepKeepsValid(C.State(s.db.table, s.cache), C.Read(system));
  }

  /** A system that goes down from up gets a timer for each of its Status alerts that has none. */
  lemma WentDownFrame(s: State, system: string, order: seq<string>)
    requires TablesValid(s) && system != "" && Lists(s, system, order)
    ensures var t := WentDown(s, system, order);
            && TablesValid(t) && t.db == s.db
            && t.systems == s.systems && t.store == s.store && t.used == s.used && t.now == s.now
            && (forall id :: id in t.armed <==> id in s.armed || IsStatusOf(s.db.table, system, id))
            && (forall id :: id in t.timers <==> id in s.timers || IsStatusOf(s.db.table, system, id))
            && (forall id | id in t.timers ::
                  if id in s.timers then t.timers[id] == s.timers[id] else t.timers[id].system == system)
  {
    hide TablesValid, Query, StatusData;
    var u := s.(cache := C.Loaded(s.cache, s.db.table, system));
    LoadedIsQuery(s, system);
    StatusDataIs(s.db.table, system, order);
    ScheduledAllFrame(u, StatusData(u.cache[system], order));
    TablesOnly(u, WentDown(s, system, order));
  }

  /** A system that comes up from down: its pending Status alerts are cancelled, the triggered ones are reset with
      a notice. */
  lemma WentUpFrame(s: State, system: string, order: seq<string>)
    requires TablesValid(s) && system != "" && Lists(s, system, order)
    ensures var t := WentUp(s, system, order);
            && TablesValid(t) && SameSystems(s, t)
            && (forall id | !IsStatusOf(s.db.table, system, id) :: Same(s, t, id))
            && (forall id | IsStatusOf(s.db.table, system, id) ::
                  id !in t.timers && (t.Triggered(id) <==> s.Triggered(id) && id in s.timers))
  {
    hide TablesValid, Query, StatusData, UpAll;
    var u := s.(cache := C.Loaded(s.cache, s.db.table, system));
    LoadedIsQuery(s, system);
    StatusDataIs(s.db.table, system, order);
    UpAllFrame(u, StatusData(u.cache[system], order));
    forall id | !IsStatusOf(s.db.table, system, id)
      ensures Same(s, WentUp(s, system, order), id)
    {
      assert Same(u, WentUp(s, system, order), id);
    }
  }

  /** All the parts together. */
  ghost predicate Valid(s: State) {
    Structure(s) && TablesValid(s) && Covered(s)
  }

  /** Where the alerts of other systems stand does not change, if their systems, timers and `triggered` do not. */
  ghost predicate OthersSame(s: State, t: State, system: string) {
    && t.db.table.Keys == s.db.table.Keys
    && (forall id | id in s.db.table :: t.db.table[id] == s.db.table[id].(triggered := t.db.table[id].triggered))
    && (forall other | other != system ::
          (other in t.systems <==> other in s.systems) && (other in s.systems ==> t.systems[other] == s.systems[other]))
    && (forall id | id in s.db.table && s.db.table[id].system != system :: Same(s, t, id) && (id in t.armed <==> id in s.armed))
  }

  lemma CoveredByParts(s: State, t: State, system: string)
    requires Covered(s) && OthersSame(s, t, system)
    requires forall id | IsStatusOf(t.db.table, system, id) :: CoveredOne(t, id)
    ensures Covered(t)
  {
    forall id | t.IsStatusAlert(id)
      ensures CoveredOne(t, id)
    {
      if s.db.table[id].system != system {
        assert s.IsStatusAlert(id) && CoveredOne(s, id) && Same(s, t, id);
      }
    }
  }

  lemma SaveDownKeeps(s: State, system: string, order: seq<string>)
    requires Valid(s) && MayTurn(s, system, Down) && Lists(s, system, order)
    ensures Valid(OnSave(s, system, Down, true, order))
    ensures OnSave(s, system, Down, true, order) == OnSave(s, system, Down, false, order)
  {
    hide TablesValid, WentDown, Structure, Covered;
    assert system != "" by { StructureParts(s, system); }
    var u := Turn(s, system, Down);
    TurnKeepsStructure(s, system, Down);
    TablesOnly(s, u);
    var t := OnSave(s, system, Down, true, order);
    if system in s.store && s.store[system] == Up {
      WentDownFrame(u, system, order);
      StructureOfTimers(u, t);
    }
    StructureParts(s, system);
    forall id | IsStatusOf(t.db.table, system, id)
      ensures CoveredOne(t, id)
    {
      CoveredHas(s, id);
      ArmedIsDown(s, id);
    }
    CoveredByParts(s, t, system);
  }

  lemma ArmedIsDown(s: State, id: string)
    requires Structure(s) && id in s.db.table
    ensures id in s.armed ==> IsDown(s, s.db.table[id].system)
  {
  }

  lemma CoveredHas(s: State, id: string)
    requires Covered(s) && s.IsStatusAlert(id)
    ensures CoveredOne(s, id)
  {
  }

  lemma StructureParts(s: State, system: string)
    requires Structure(s) && system in s.systems
    ensures system != "" && (system in s.store ==> s.store[system] == s.systems[system])
  {
  }

  lemma TurnKeepsStructure(s: State, system: string, status: Status)
    requires Structure(s) && system in s.systems
    ensures Structure(Turn(s, system, status))
  {
  }

  /** Structure survives when only timers of existing Status alerts come in and only `triggered` changes. */
  lemma StructureOfTimers(s: State, t: State)
    requires Structure(s)
    requires t.systems == s.systems && t.store == s.store && t.used == s.used && t.db.table.Keys == s.db.table.Keys
    requires forall id | id in t.armed :: id in s.armed || (id in s.db.table && IsDown(s, s.db.table[id].system))
    requires forall id | id in s.db.table :: t.db.table[id] == s.db.table[id].(triggered := t.db.table[id].triggered)
    requires forall id | id in t.timers ::
               (id in s.timers && t.timers[id] == s.timers[id]) || (s.IsStatusAlert(id) && t.timers[id].system == s.db.table[id].system)
    ensures Structure(t)
  {
  }

  lemma SaveUpKeeps(s: State, system: string, order: seq<string>)
    requires Valid(s) && MayTurn(s, system, Up) && Lists(s, system, order)
    ensures Valid(OnSave(s, system, Up, true, order))
    ensures OnSave(s, system, Up, true, order) == OnSave(s, system, Up, false, order)
  {
    hide TablesValid, WentUp, Structure, Covered;
    StructureParts(s, system);
    var u := Turn(s, system, Up);
    TurnKeepsStructure(s, system, Up);
    TablesOnly(s, u);
    var t := OnSave(s, system, Up, true, order);
    if system in s.store && s.store[system] == Down {
      WentUpFrame(u, system, order);
      StructureAfterUp(u, t, system);
      forall id | id in s.db.table && s.db.table[id].system != system
        ensures Same(s, t, id)
      {
        assert Same(u, t, id);
      }
    }
    forall id | IsStatusOf(t.db.table, system, id)
      ensures CoveredOne(t, id)
    {
      CoveredHas(s, id);
    }
    CoveredByParts(s, t, system);
  }

  /** A save of up for a system that is not in the manager is not handled by the alerts. It keeps the invariant
      exactly if no Status alert of the system is pending or triggered, which is to say that the system is not down since
      it went down from up, or since a restart, with Status alerts that still exist. */
  lemma UnmanagedUpKeepsIff(s: State, system: string, connected: bool, order: seq<string>)
    requires Valid(s) && system in s.systems && system !in s.store
    ensures Valid(OnSave(s, system, Up, connected, order)) <==>
            forall id | IsStatusOf(s.db.table, system, id) :: id !in s.timers && !s.Triggered(id)
    ensures Valid(OnSave(s, system, Up, connected, order)) <==> Unarmed(s, system)
  {
    hide TablesValid, Structure, Covered;
    forall id | IsStatusOf(s.db.table, system, id)
      ensures id in s.armed <==> id in s.timers || s.Triggered(id)
    {
      CoveredHas(s, id);
      ArmedIsDown(s, id);
    }
    var t := OnSave(s, system, Up, connected, order);
    TurnKeepsStructure(s, system, Up);
    TablesOnly(s, t);
    if Covered(t) {
      forall id | IsStatusOf(s.db.table, system, id)
        ensures id !in s.timers && !s.Triggered(id)
      {
        CoveredHas(t, id);
      }
    } else if forall id | IsStatusOf(s.db.table, system, id) :: id !in s.timers && !s.Triggered(id) {
      CoveredByParts(s, t, system);
    }
  }

  lemma StructureAfterUp(u: State, t: State, system: string)
    requires Structure(u) && SameSystems(u, t)
    requires forall id :: if IsStatusOf(u.db.table, system, id) then id !in t.timers else Same(u, t, id)
    ensures Structure(t)
  {
    hide Structure;
    forall id | id in t.timers
      ensures id in u.timers && t.timers[id] == u.timers[id]
    {
      assert !IsStatusOf(u.db.table, system, id);
      assert Same(u, t, id);
    }
    StructureOfTimers(u, t);
  }

  lemma SavePausedKeeps(s: State, system: string, connected: bool, order: seq<string>)
    requires Valid(s) && system in s.systems && Lists(s, system, order)
    ensures Valid(OnSave(s, system, Paused, connected, order))
  {
    hide TablesValid, Structure, Covered, ResetAll;
    var u := Turn(s, system, Paused);
    TurnKeepsStructure(s, system, Paused);
    TablesOnly(s, u);
    ResetAllFrame(u, order);
    var t := OnSave(s, system, Paused, connected, order);
    TablesOnly(ResetAll(u, order), t);
    StructureOfTimers(u, t);
    TimersNameTheirSystem(s);
    forall id | id in s.db.table && s.db.table[id].system != system
      ensures Same(s, t, id)
    {
      assert id !in order && (ResetAll(u, order).Triggered(id) <==> u.Triggered(id));
    }
    forall id | IsStatusOf(t.db.table, system, id)
      ensures CoveredOne(t, id)
    {
      assert id in order && id in s.db.table;
      CancelledKeeps(ResetAll(u, order), system, id);
      assert !ResetAll(u, order).Triggered(id);
    }
    CoveredByParts(s, t, system);
  }

  lemma CancelledKeeps(s: State, system: string, id: string)
    ensures id in CancelledFor(s, system).timers <==> id in s.timers && s.timers[id].system != system
  {
  }

  lemma TimersNameTheirSystem(s: State)
    requires Structure(s)
    ensures forall id | id in s.timers && id in s.db.table :: s.timers[id].system == s.db.table[id].system
  {
  }

  lemma SavePendingKeeps(s: State, system: string, connected: bool, order: seq<string>)
    requires Valid(s) && MayTurn(s, system, Pending) && Lists(s, system, order)
    ensures Valid(OnSave(s, system, Pending, connected, order))
  {
    hide TablesValid, Structure, Covered, ResetAll;
    var u := Turn(s, system, Pending);
    TurnKeepsStructure(s, system, Pending);
    TablesOnly(s, u);
    ResetAllFrame(u, order);
    var t := OnSave(s, system, Pending, connected, order);
    StructureOfTimers(u, t);
    forall id | IsStatusOf(t.db.table, system, id)
      ensures CoveredOne(t, id)
    {
      CoveredHas(s, id);
    }
    CoveredByParts(s, t, system);
  }

  lemma OnSaveKeeps(s: State, system: string, status: Status, connected: bool, order: seq<string>)
    requires Valid(s) && MayTurn(s, system, status) && Lists(s, system, order)
    ensures Valid(OnSave(s, system, status, connected, order))
  {
    hide Valid, OnSave, Lists;
    match status {
      case Up => SaveUpKeeps(s, system, order);
      case Down => SaveDownKeeps(s, system, order);
      case Paused => SavePausedKeeps(s, system, connected, order);
      case Pending => SavePendingKeeps(s, system, connected, order);
    }
  }

  lemma RemovedKeeps(s: State, system: string)
    requires Valid(s)
    ensures Valid(Removed(s, system))
  {
    hide TablesValid, Covered;
    var t := Removed(s, system);
    TablesOnly(s, t);
    NothingCoveredChanges(s, t);
  }

  lemma NothingCoveredChanges(s: State, t: State)
    requires Covered(s) && t.systems == s.systems && t.db.table == s.db.table && t.timers == s.timers && t.armed == s.armed
    ensures Covered(t)
  {
    forall id | t.IsStatusAlert(id)
      ensures CoveredOne(t, id)
    {
      CoveredHas(s, id);
    }
  }

  lemma NewTokenKeeps(s: State, system: string, order: seq<string>)
    requires Valid(s) && system in s.systems && Lists(s, system, order)
    ensures Valid(OnNewToken(s, system, order))
  {
    hide OnSave, Lists, TablesValid, Covered;
    StructureParts(s, system);
    hide Valid, Structure;
    if system !in s.store {
      OnSaveKeeps(s, system, s.systems[system], false, order);
    } else {
      ManagerIsUpToDate(s, system, order);
      if s.store[system] in {Down, Paused} {
        RemovedKeeps(s, system);
      } else {
        OnSaveKeeps(s, system, Down, true, order);
        RemovedKeeps(OnSave(s, system, Down, true, order), system);
      }
    }
  }

  /** What a new token does to a system that is up in the manager: the system is down and out of the manager, and each of
      its Status alerts is armed and pending. */
  lemma NewTokenTakesDown(s: State, system: string, order: seq<string>)
    requires Valid(s) && Enabled(s, NewToken(system, order)) && system in s.store && s.store[system] == Up
    ensures var t := OnNewToken(s, system, order);
            && IsDown(t, system) && system !in t.store
            && forall id | IsStatusOf(s.db.table, system, id) ::
                 IsStatusOf(t.db.table, system, id) && id in t.armed && id in t.timers && !t.Triggered(id)
  {
    hide TablesValid, Covered, WentDown, Structure;
    StructureParts(s, system);
    ManagerIsUpToDate(s, system, order);
    TablesOnly(s, Turn(s, system, Down));
    WentDownFrame(Turn(s, system, Down), system, order);
    forall id | IsStatusOf(s.db.table, system, id)
      ensures id !in s.timers && !s.Triggered(id)
    {
      CoveredHas(s, id);
    }
  }

  /** In all other cases no timer starts and no Status alert changes: a pending system in the manager goes down and
      leaves it, a down or paused one just leaves it, and one that is not in the manager keeps its status. */
  lemma NewTokenOtherwise(s: State, system: string, order: seq<string>)
    requires Valid(s) && Enabled(s, NewToken(system, order)) && (system in s.store ==> s.store[system] != Up)
    ensures var t := OnNewToken(s, system, order);
            && system !in t.store
            && t.systems[system := s.systems[system]] == s.systems
            && IsDown(t, system) == (s.systems[system] == Down || (system in s.store && s.systems[system] == Pending))
            && (system in t.systems && (t.systems[system] == s.systems[system] || IsDown(t, system)))
            && forall id | s.IsStatusAlert(id) ::
                 SameTimer(s, t, id) && (s.Triggered(id) <==> t.Triggered(id)) && (id in s.armed <==> id in t.armed)
  {
    hide TablesValid, Covered, WentDown, Structure, ResetAll;
    StructureParts(s, system);
    if system in s.store {
      ManagerIsUpToDate(s, system, order);
      assert s.systems[system := s.systems[system]] == s.systems;
      assert s.systems[system := Down][system := s.systems[system]] == s.systems;
    } else {
      assert s.systems[system := s.systems[system]][system := s.systems[system]] == s.systems;
      var u := Turn(s, system, s.systems[system]);
      var r, t := ResetAll(u, order), OnNewToken(s, system, order);
      ResetAllFrame(u, order);
      TimersNameTheirSystem(s);
      forall id | s.IsStatusAlert(id)
        ensures SameTimer(s, t, id) && (s.Triggered(id) <==> t.Triggered(id)) && (id in s.armed <==> id in t.armed)
      {
        ArmedIsDown(s, id);
        CoveredHas(s, id);
        CancelledKeeps(r, system, id);
        assert r.Triggered(id) <==> u.Triggered(id) && id !in order;
      }
    }
  }

  lemma ManagerIsUpToDate(s: State, system: string, order: seq<string>)
    requires system in s.store && system in s.systems && s.store[system] == s.systems[system]
    ensures OnNewToken(s, system, order) == Removed(SetDown(s, system, order), system)
  {
    assert s.store[system := s.systems[system]] == s.store;
  }

  // ---------------------------------------------------------------------------------------------
  // Alert rows
  // ---------------------------------------------------------------------------------------------

  lemma CreateAlertKeeps(s: State, id: string, a: Alert)
    requires Valid(s) && Enabled(s, CreateAlert(id, a))
    ensures Valid(Apply(s, CreateAlert(id, a)))
  {
    hide H.AtMostOne, C.Agrees, C.Complete, Covered;
    var t := Apply(s, CreateAlert(id, a));
    assert id !in s.db.table;
    H.AtMostOneKept(s.db, H.Create(id, a));
    C.StepKeepsValid(C.State(s.db.table, s.cache), C.Create(id, a));
    forall other | t.IsStatusAlert(other)
      ensures CoveredOne(t, other)
    {
      if other != id {
        CoveredHas(s, other);
      }
    }
    CoveredAll(t);
  }

  lemma CoveredAll(s: State)
    requires forall id | s.IsStatusAlert(id) :: CoveredOne(s, id)
    ensures Covered(s)
  {
  }

  /** Alerts can only go; nothing about the others changes. */
  lemma DeletedOneFrame(s: State, id: string)
    requires TablesValid(s)
    ensures var t := DeletedOne(s, id);
            && TablesValid(t) && t == s.(db := t.db, cache := t.cache) && t.db.table == s.db.table - {id}
  {
    if id in s.db.table {
      hide H.AtMostOne, C.Agrees, C.Complete;
      H.AtMostOneKept(s.db, H.Delete(id));
      C.StepKeepsValid(C.State(s.db.table, s.cache), C.Delete(id));
    } else {
      assert s.db.table == s.db.table - {id};
    }
  }

  lemma {:induction false} DeletedAllFrame(s: State, ids: seq<string>)
    requires TablesValid(s)
    ensures var t := DeletedAll(s, ids);
            && TablesValid(t) && t == s.(db := t.db, cache := t.cache)
            && t.db.table == (map id | id in s.db.table && id !in ids :: s.db.table[id])
    decreases |ids|
  {
    hide TablesValid, DeletedOne;
    if ids == [] {
      assert s.db.table == (map id | id in s.db.table && id !in ids :: s.db.table[id]);
    } else {
      var init, id := ids[..|ids| - 1], ids[|ids| - 1];
      DeletedAllFrame(s, init);
      DeletedOneFrame(DeletedAll(s, init), id);
      assert forall other :: other in ids <==> other in init || other == id;
    }
  }

  lemma FewerRowsKeep(s: State, t: State)
    requires Valid(s) && TablesValid(t) && t == s.(db := t.db, cache := t.cache)
    requires forall id | id in t.db.table :: id in s.db.table && t.db.table[id] == s.db.table[id]
    ensures Valid(t)
  {
    hide TablesValid, Covered;
    forall id | t.IsStatusAlert(id)
      ensures CoveredOne(t, id)
    {
      CoveredHas(s, id);
    }
    CoveredAll(t);
  }

  lemma DroppedKeeps(s: State, system: string, order: seq<string>)
    requires Valid(s) && system in s.systems && Lists(s, system, order)
    ensures Valid(Dropped(s, system, order))
  {
    hide TablesValid, Covered, DeletedAll;
    var u := DeletedAll(s, order);
    DeletedAllFrame(s, order);
    FewerRowsKeep(s, u);
    var t := Dropped(s, system, order);
    DropHistory(u, t, system);
    forall id | t.IsStatusAlert(id)
      ensures CoveredOne(t, id)
    {
      CoveredHas(s, id);
    }
    CoveredAll(t);
  }

  lemma DropHistory(u: State, t: State, system: string)
    requires TablesValid(u) && forall id | id in u.db.table :: u.db.table[id].system != system
    requires t.db == H.Next(u.db, H.DropSystem(system)) && t.cache == u.cache
    ensures TablesValid(t) && t.db.table == u.db.table
  {
    assert t.db.table == u.db.table;
    hide H.AtMostOne, C.Valid;
    H.AtMostOneKept(u.db, H.DropSystem(system));
  }

  lemma EditKeeps(s: State, id: string, value: real, min: int)
    requires Valid(s) && id in s.db.table
    ensures Valid(Apply(s, EditAlert(id, value, min)))
  {
    hide Valid, Saved, TablesValid;
    var a := s.db.table[id].(value := value, min := min);
    SavedKeepsTables(s, id, a);
    RowsEdited(s, Saved(s, id, a));
  }

  lemma RowsEdited(s: State, t: State)
    requires Valid(s) && TablesValid(t) && t == s.(db := t.db, cache := t.cache) && t.db.table.Keys == s.db.table.Keys
    requires forall id | id in s.db.table ::
               var a, b := s.db.table[id], t.db.table[id]; a.system == b.system && a.name == b.name && a.triggered == b.triggered
    ensures Valid(t)
  {
    hide TablesValid, Covered;
    forall id | t.IsStatusAlert(id)
      ensures CoveredOne(t, id)
    {
      CoveredHas(s, id);
    }
    CoveredAll(t);
  }

  lemma SavedKeepsTables(s: State, id: string, a: Alert)
    requires Valid(s) && id in s.db.table && a.system == s.db.table[id].system
    ensures var t := Saved(s, id, a);
            TablesValid(t) && t == s.(db := t.db, cache := t.cache) && t.db.table == s.db.table[id := a]
  {
    hide H.AtMostOne, C.Agrees, C.Complete;
    H.AtMostOneKept(s.db, H.Update(id, a));
    C.WriteKeepsValid(C.State(s.db.table, s.cache), id, a);
  }

  lemma FlipOtherKeeps(s: State, id: string, triggered: bool)
    requires Valid(s) && Enabled(s, FlipOther(id, triggered))
    ensures Valid(Apply(s, FlipOther(id, triggered)))
  {
    hide TablesValid, Covered, SetTriggered;
    SetTriggeredFrame(s, id, triggered);
    var t := SetTriggered(s, id, triggered);
    forall other | t.IsStatusAlert(other)
      ensures CoveredOne(t, other)
    {
      CoveredHas(s, other);
    }
    CoveredAll(t);
  }

  /** A timer that fires turns a pending alert into a triggered one; the alert may also be gone. */
  lemma FiredFrame(s: State, id: string)
    requires Valid(s) && id in s.timers
    ensures var t := Fired(s, id);
            && SameSystems(s, t) && TablesValid(t) && t.timers == s.timers - {id}
            && (forall other | other != id :: s.Triggered(other) <==> t.Triggered(other))
            && (id in s.db.table ==> t.Triggered(id))
  {
    hide Covered, TablesValid, SetTriggered;
    if id in s.db.table {
      FoundInCache(s, id);
    }
    var u := s.(timers := s.timers - {id});
    TablesOnly(s, u);
    SetTriggeredFrame(u, id, true);
    TablesOnly(SetTriggered(u, id, true), SentDown(u, id, s.timers[id].since));
    var t := Fired(s, id);
    forall other | other != id
      ensures s.Triggered(other) <==> t.Triggered(other)
    {
      assert u.Triggered(other) <==> SetTriggered(u, id, true).Triggered(other);
    }
  }

  lemma FoundInCache(s: State, id: string)
    requires Structure(s) && TablesValid(s) && id in s.timers && id in s.db.table
    ensures id != "" && C.FindAlert(s.cache, s.timers[id].system, id) == Some(Snapshot(id, s.db.table[id]))
  {
    hide Query, H.AtMostOne;
    QueryRow(s.db.table, s.timers[id].system, id);
  }

  lemma FiredKeeps(s: State, id: string)
    requires Valid(s) && id in s.timers
    ensures Valid(Fired(s, id))
  {
    hide TablesValid, Covered, Fired;
    FiredFrame(s, id);
    var t := Fired(s, id);
    StructureOfTimers(s, t);
    forall other | t.IsStatusAlert(other)
      ensures CoveredOne(t, other)
    {
      CoveredHas(s, other);
    }
    CoveredAll(t);
  }

  lemma TrimKeeps(s: State)
    requires Valid(s)
    ensures Valid(Apply(s, TrimHistory))
  {
    hide H.AtMostOne, C.Valid, Covered;
    H.AtMostOneKept(s.db, H.Trim);
    NothingCoveredChanges(s, Apply(s, TrimHistory));
  }

  lemma OthersKeep(s: State, step: Step)
    requires Valid(s) && Enabled(s, step) && (step.CreateSystem? || step.Connect? || step.Tick?)
    ensures Valid(Apply(s, step))
  {
    hide TablesValid, Covered;
    var t := Apply(s, step);
    TablesOnly(s, t);
    forall id | t.IsStatusAlert(id)
      ensures CoveredOne(t, id)
    {
      CoveredHas(s, id);
    }
    CoveredAll(t);
  }

  lemma StoppedKeeps(s: State)
    requires Structure(s) && TablesValid(s)
    ensures Structure(Stopped(s)) && TablesValid(Stopped(s))
  {
    hide H.AtMostOne;
    C.PopulatedAgrees(s.db.table);
  }

  lemma {:induction false} RestoredAllFrame(s: State, ids: seq<string>)
    requires Structure(s) && TablesValid(s)
    requires forall i | 0 <= i < |ids| :: s.IsStatusAlert(ids[i])
    ensures var t := RestoredAll(s, ids);
            && SameSystems(s, t) && t.db == s.db && t.cache == s.cache
            && (forall id :: id in t.timers <==> id in s.timers || id in ids)
            && (forall id | id in t.timers ::
                  (id in s.timers && t.timers[id] == s.timers[id]) || (s.IsStatusAlert(id) && t.timers[id].system == s.db.table[id].system))
    decreases |ids|
  {
    hide Structure, TablesValid, RestoredOne;
    if ids != [] {
      var init, id := ids[..|ids| - 1], ids[|ids| - 1];
      RestoredAllFrame(s, init);
      assert s.IsStatusAlert(ids[|ids| - 1]);
      CacheHas(s, id);
      RestoredOneIs(RestoredAll(s, init), id);
      assert forall other :: other in ids <==> other in init || other == id;
    }
  }

  lemma RestoredOneIs(s: State, id: string)
    requires id in s.db.table && C.FindAlert(s.cache, s.db.table[id].system, id) == Some(Snapshot(id, s.db.table[id]))
    ensures var t := RestoredOne(s, id);
            && SameSystems(s, t) && t.db == s.db && t.cache == s.cache
            && t.timers.Keys == s.timers.Keys + {id}
            && (forall other | other in s.timers :: t.timers[other] == s.timers[other])
            && (id !in s.timers ==> t.timers[id].system == s.db.table[id].system)
  {
  }

  lemma CacheHas(s: State, id: string)
    requires Structure(s) && TablesValid(s) && id in s.db.table
    ensures C.FindAlert(s.cache, s.db.table[id].system, id) == Some(Snapshot(id, s.db.table[id]))
  {
    hide Query, H.AtMostOne;
    QueryRow(s.db.table, s.db.table[id].system, id);
  }

  lemma RestartFrame(s: State, resolve: seq<string>, restore: seq<string>)
    requires Structure(s) && TablesValid(s) && Enabled(s, Restart(resolve, restore))
    ensures var t := OnRestart(s, resolve, restore);
            && Structure(t) && TablesValid(t) && t.systems == s.systems && t.db.table.Keys == s.db.table.Keys
            && (forall id | id in s.db.table :: t.db.table[id] == s.db.table[id].(triggered := t.db.table[id].triggered))
            && (forall id :: t.Triggered(id) <==> s.Triggered(id) && id !in resolve)
            && (forall id :: id in t.timers <==> id in restore)
            && (forall id :: id in t.armed <==> t.IsStatusAlert(id) && IsDown(t, t.db.table[id].system))
  {
    hide TablesValid, Structure, RestoredAll, ResetAll;
    ResolveFrame(s, resolve);
    var v := ResetAll(Stopped(s), resolve);
    assert forall i | 0 <= i < |restore| :: restore[i] in restore && ToRestore(s, restore[i]);
    RestoredAllFrame(v, restore);
    var t := OnRestart(s, resolve, restore);
    StructureOfTimers(v, t);
    TablesOnly(v, t);
    assert forall id :: v.Triggered(id) <==> t.Triggered(id);
  }

  lemma ResolveFrame(s: State, resolve: seq<string>)
    requires Structure(s) && TablesValid(s)
    ensures var v := ResetAll(Stopped(s), resolve);
            && Structure(v) && TablesValid(v) && v.systems == s.systems && v.timers == map[] && v.armed == {}
            && v.db.table.Keys == s.db.table.Keys
            && (forall id | id in s.db.table :: v.db.table[id] == s.db.table[id].(triggered := v.db.table[id].triggered))
            && (forall id :: v.Triggered(id) <==> s.Triggered(id) && id !in resolve)
  {
    hide TablesValid, Structure, ResetAll;
    var u := Stopped(s);
    StoppedKeeps(s);
    ResetAllFrame(u, resolve);
    StructureOfTimers(u, ResetAll(u, resolve));
    assert forall id :: u.Triggered(id) <==> s.Triggered(id);
  }

  /** A restart sets the Status alerts right whatever the table says: afterwards none is triggered or pending
      while its system is up, and while its system is down it is pending exactly if it is not triggered. */
  lemma RestartRepairs(s: State, resolve: seq<string>, restore: seq<string>, id: string)
    requires Structure(s) && TablesValid(s) && Enabled(s, Restart(resolve, restore)) && s.IsStatusAlert(id)
    ensures var t := OnRestart(s, resolve, restore);
            && t.IsStatusAlert(id) && t.systems == s.systems && s.db.table[id].system in s.systems
            && match s.systems[s.db.table[id].system]
               case Up => id !in t.timers && !t.Triggered(id)
               case Down => id in t.armed && (id in t.timers <==> !t.Triggered(id))
               case _ => id !in t.timers && id !in t.armed && (t.Triggered(id) <==> s.Triggered(id))
  {
    hide TablesValid, Structure, OnRestart;
    RestartFrame(s, resolve, restore);
    SystemOf(s, id);
    assert id in resolve <==> ToResolve(s, id);
    assert id in restore <==> ToRestore(s, id);
  }

  lemma SystemOf(s: State, id: string)
    requires Structure(s) && id in s.db.table
    ensures s.db.table[id].system in s.systems
  {
  }

  lemma RestartKeeps(s: State, resolve: seq<string>, restore: seq<string>)
    requires Valid(s) && Enabled(s, Restart(resolve, restore))
    ensures Valid(OnRestart(s, resolve, restore))
  {
    hide TablesValid, Structure, Covered, OnRestart;
    var t := OnRestart(s, resolve, restore);
    RestartFrame(s, resolve, restore);
    forall id | t.IsStatusAlert(id)
      ensures CoveredOne(t, id)
    {
      RestartRepairs(s, resolve, restore, id);
      CoveredHas(s, id);
    }
    CoveredAll(t);
  }

  lemma StepKeepsValid(s: State, step: Step)
    requires Valid(s) && Enabled(s, step)
    ensures Valid(Apply(s, step))
  {
    hide Valid, OnSave, OnNewToken, Dropped, Fired, OnRestart, Lists, MayTurn;
    match step {
      case Save(system, status, connected, order) => OnSaveKeeps(s, system, status, connected, order);
      case NewToken(system, order) => NewTokenKeeps(s, system, order);
      case DeleteSystem(system, order) => DroppedKeeps(s, system, order);
      case CreateAlert(id, a) => CreateAlertKeeps(s, id, a);
      case EditAlert(id, value, min) => EditKeeps(s, id, value, min);
      case DeleteAlert(id) => DeleteAlertKeeps(s, id);
      case FlipOther(id, triggered) => FlipOtherKeeps(s, id, triggered);
      case Fire(id) => FiredKeeps(s, id);
      case Restart(resolve, restore) => RestartKeeps(s, resolve, restore);
      case TrimHistory => TrimKeeps(s);
      case Disconnect(system) => RemovedKeeps(s, system);
      case _ => OthersKeep(s, step);
    }
  }

  lemma DeleteAlertKeeps(s: State, id: string)
    requires Valid(s)
    ensures Valid(DeletedOne(s, id))
  {
    hide TablesValid, Covered, DeletedOne;
    DeletedOneFrame(s, id);
    FewerRowsKeep(s, DeletedOne(s, id));
  }

  // ---------------------------------------------------------------------------------------------
  // Runs
  // ---------------------------------------------------------------------------------------------

  lemma InitIsValid(now: int)
    ensures Valid(Init(now))
  {
    assert forall id :: H.OpenCount([], id) == 0;
  }

  lemma EnabledStepKeepsValid(s: State, step: Step)
    ensures Valid(s) && Enabled(s, step) ==> Valid(Apply(s, step))
  {
    hide Valid, Enabled, Apply;
    if Valid(s) && Enabled(s, step) {
      StepKeepsValid(s, step);
    }
  }

  /** The state after any sequence of steps; a step that is not enabled does not happen. */
  ghost function Next(s: State, step: Step): (t: State)
    requires Valid(s)
    ensures Valid(t)
  {
    if Enabled(s, step) then StepKeepsValid(s, step); Apply(s, step) else s
  }

  ghost function After(now: int, steps: seq<Step>): (s: State)
    ensures Valid(s)
    decreases |steps|
  {
    if steps == [] then InitIsValid(now); Init(now) else Next(After(now, steps[..|steps| - 1]), steps[|steps| - 1])
  }

  /** In every reachable state a Status alert of a system that is not down is neither pending nor triggered, and an
      armed one of a system that is down is exactly one of the two. */
  lemma AlertsAreCovered(now: int, steps: seq<Step>, id: string)
    requires After(now, steps).IsStatusAlert(id)
    ensures var s := After(now, steps);
            && s.db.table[id].system in s.systems
            && match s.systems[s.db.table[id].system]
               case Down =>
                 if id in s.armed then id in s.timers <==> !s.Triggered(id) else id !in s.timers && !s.Triggered(id)
               case _ => id !in s.timers && !s.Triggered(id)
  {
    hide After, TablesValid;
    CoveredHas(After(now, steps), id);
  }

  /** The Status alerts that are there when their system goes down from up are armed. */
  lemma GoingDownArms(s: State, system: string, connected: bool, order: seq<string>, id: string)
    requires Valid(s) && Enabled(s, Save(system, Down, connected, order)) && system in s.store && s.store[system] == Up
    requires IsStatusOf(s.db.table, system, id)
    ensures var t := Next(s, Save(system, Down, connected, order));
            id in t.armed && id in t.timers && !t.Triggered(id) && IsDown(t, system)
  {
    hide TablesValid, Covered, WentDown;
    StructureParts(s, system);
    TablesOnly(s, Turn(s, system, Down));
    WentDownFrame(Turn(s, system, Down), system, order);
    CoveredHas(s, id);
  }

  /** An armed alert stays armed until it is deleted or its system is no longer down, even across a restart. */
  lemma ArmedStays(s: State, step: Step, id: string)
    requires Valid(s) && s.IsStatusAlert(id) && id in s.armed
    ensures var t := Next(s, step);
            id in t.armed || id !in t.db.table || !IsDown(t, s.db.table[id].system)
  {
    hide TablesValid, Covered, Structure, OnSave, OnNewToken, Dropped, Fired, OnRestart, Lists, MayTurn, SetTriggered, DeletedOne, Saved;
    ArmedIsDown(s, id);
    if Enabled(s, step) {
      match step {
        case Save(system, status, connected, order) =>
          OnSaveArmed(s, system, status, connected, order);
        case NewToken(system, order) =>
          NewTokenArmed(s, system, order);
        case DeleteSystem(system, order) =>
          DroppedArmed(s, system, order);
        case _ =>
          ArmedElsewhere(s, step, id);
      }
    }
  }

  /** No other step disarms an alert. */
  lemma ArmedElsewhere(s: State, step: Step, id: string)
    requires Valid(s) && Enabled(s, step) && s.IsStatusAlert(id) && id in s.armed && IsDown(s, s.db.table[id].system)
    requires !step.Save? && !step.NewToken? && !step.DeleteSystem?
    ensures id in Apply(s, step).armed || id !in Apply(s, step).db.table
  {
    hide TablesValid, Covered, Structure, Fired, OnRestart, SetTriggered, DeletedOne;
    match step {
      case Fire(timer) => FiredFrame(s, timer);
      case Restart(resolve, restore) => RestartFrame(s, resolve, restore);
      case DeleteAlert(other) => DeletedOneFrame(s, other);
      case FlipOther(other, triggered) => SetTriggeredFrame(s, other, triggered);
      case _ =>
    }
  }

  lemma {:induction false} UpAllSame(s: State, alerts: seq<CachedAlertData>)
    ensures SameSystems(s, UpAll(s, alerts))
    decreases |alerts|
  {
    hide UpOne;
    if alerts != [] {
      UpAllSame(s, alerts[..|alerts| - 1]);
      UpOneFrame(UpAll(s, alerts[..|alerts| - 1]), alerts[|alerts| - 1]);
    }
  }

  lemma OnSaveArmed(s: State, system: string, status: Status, connected: bool, order: seq<string>)
    ensures var t, u := OnSave(s, system, status, connected, order), Turn(s, system, status);
            t.systems == u.systems && u.armed <= t.armed
  {
    var u := Turn(s, system, status);
    ResetAllFrame(u, order);
    var v := u.(cache := C.Loaded(u.cache, u.db.table, system));
    UpAllSame(v, StatusData(v.cache[system], order));
    ScheduledAllFrame(v, StatusData(v.cache[system], order));
  }

  lemma NewTokenArmed(s: State, system: string, order: seq<string>)
    requires Structure(s) && system in s.systems
    ensures var t := OnNewToken(s, system, order);
            && (forall id | id in s.armed :: id in t.armed || (id in s.db.table && s.db.table[id].system == system))
            && (forall other | other in s.systems && other != system :: other in t.systems && t.systems[other] == s.systems[other])
            && (s.systems[system] == Down ==> system in t.systems && t.systems[system] == Down && s.armed <= t.armed)
  {
    StructureParts(s, system);
    hide OnSave;
    if system in s.store {
      ManagerIsUpToDate(s, system, order);
    }
    OnSaveArmed(s, system, s.systems[system], false, order);
    OnSaveArmed(s, system, Down, true, order);
  }

  lemma DroppedArmed(s: State, system: string, order: seq<string>)
    requires TablesValid(s)
    ensures var t := Dropped(s, system, order);
            t.armed == s.armed && t.systems == s.systems - {system}
  {
    hide TablesValid, DeletedAll;
    DeletedAllFrame(s, order);
  }

  /** The state after further steps. */
  ghost function From(s: State, steps: seq<Step>): (t: State)
    requires Valid(s)
    ensures Valid(t)
    decreases |steps|
  {
    if steps == [] then s else Next(From(s, steps[..|steps| - 1]), steps[|steps| - 1])
  }

  /** A row that stays keeps its system and its name. */
  lemma RowKept(s: State, step: Step, id: string)
    requires Valid(s) && id in s.db.table && id in Next(s, step).db.table
    ensures var a, b := s.db.table[id], Next(s, step).db.table[id];
            a.system == b.system && a.name == b.name
  {
    hide TablesValid, Covered, Structure, OnSave, OnNewToken, Dropped, Fired, OnRestart, Lists, MayTurn, SetTriggered, DeletedOne;
    if Enabled(s, step) {
      match step {
        case Save(system, status, connected, order) => OnSaveSameRows(s, system, status, connected, order);
        case NewToken(system, order) => NewTokenSameRows(s, system, order);
        case DeleteSystem(system, order) => DroppedRows(s, system, order);
        case DeleteAlert(other) => DeletedOneFrame(s, other);
        case FlipOther(other, triggered) => SetTriggeredFrame(s, other, triggered);
        case Fire(timer) => FiredFrame(s, timer);
        case Restart(resolve, restore) => RestartFrame(s, resolve, restore);
        case _ =>
      }
    }
  }

  lemma OnSaveSameRows(s: State, system: string, status: Status, connected: bool, order: seq<string>)
    ensures var t := OnSave(s, system, status, connected, order);
            && t.db.table.Keys == s.db.table.Keys
            && forall id | id in s.db.table :: t.db.table[id] == s.db.table[id].(triggered := t.db.table[id].triggered)
  {
    hide ResetAll, UpAll, ScheduledAll, StatusData, Query;
    var u := Turn(s, system, status);
    ResetAllFrame(u, order);
    var v := u.(cache := C.Loaded(u.cache, u.db.table, system));
    UpAllSame(v, StatusData(v.cache[system], order));
    ScheduledAllFrame(v, StatusData(v.cache[system], order));
  }

  lemma NewTokenSameRows(s: State, system: string, order: seq<string>)
    requires Structure(s) && system in s.systems
    ensures var t := OnNewToken(s, system, order);
            && t.db.table.Keys == s.db.table.Keys
            && forall id | id in s.db.table :: t.db.table[id] == s.db.table[id].(triggered := t.db.table[id].triggered)
  {
    StructureParts(s, system);
    hide OnSave, Structure;
    if system in s.store {
      ManagerIsUpToDate(s, system, order);
    }
    OnSaveSameRows(s, system, s.systems[system], false, order);
    OnSaveSameRows(s, system, Down, true, order);
  }

  lemma DroppedRows(s: State, system: string, order: seq<string>)
    requires TablesValid(s)
    ensures forall id | id in Dropped(s, system, order).db.table ::
              id in s.db.table && Dropped(s, system, order).db.table[id] == s.db.table[id]
  {
    hide TablesValid, DeletedAll;
    DeletedAllFrame(s, order);
  }

  /** Through all the steps the alert exists and its system is down. */
  ghost predicate StaysDown(s: State, steps: seq<Step>, id: string)
    requires Valid(s)
    decreases |steps|
  {
    var t := From(s, steps);
    id in t.db.table && IsDown(t, t.db.table[id].system) && (steps == [] || StaysDown(s, steps[..|steps| - 1], id))
  }

  lemma {:induction false} ArmedThroughout(s: State, steps: seq<Step>, id: string)
    requires Valid(s) && s.IsStatusAlert(id) && id in s.armed && StaysDown(s, steps, id)
    ensures var t := From(s, steps);
            t.IsStatusAlert(id) && id in t.armed && (id in t.timers <==> !t.Triggered(id))
    decreases |steps|
  {
    hide Valid, Structure, TablesValid, Covered, Next;
    var t := From(s, steps);
    if steps != [] {
      var before, step := steps[..|steps| - 1], steps[|steps| - 1];
      ArmedThroughout(s, before, id);
      RowKept(From(s, before), step, id);
      ArmedStays(From(s, before), step, id);
    }
    ArmedIsOneOfTwo(t, id);
  }

  lemma ArmedIsOneOfTwo(s: State, id: string)
    requires Valid(s) && s.IsStatusAlert(id) && id in s.armed
    ensures id in s.timers <==> !s.Triggered(id)
  {
    CoveredHas(s, id);
    ArmedIsDown(s, id);
  }

  /** Throughout a down period each Status alert that was there when the system went down, and that is not deleted, is
      pending or triggered, and never both: whatever happens, restarts included. */
  lemma WholeDownPeriod(s: State, system: string, connected: bool, order: seq<string>, steps: seq<Step>, id: string)
    requires Valid(s) && Enabled(s, Save(system, Down, connected, order)) && system in s.store && s.store[system] == Up
    requires IsStatusOf(s.db.table, system, id)
    requires StaysDown(Next(s, Save(system, Down, connected, order)), steps, id)
    ensures var t := From(Next(s, Save(system, Down, connected, order)), steps);
            t.IsStatusAlert(id) && (id in t.timers <==> !t.Triggered(id))
  {
    hide Valid, Structure, TablesValid, Covered, WentDown;
    var t := Next(s, Save(system, Down, connected, order));
    GoingDownArms(s, system, connected, order, id);
    OnSaveSameRows(s, system, Down, connected, order);
    ArmedThroughout(t, steps, id);
  }

  /** A system goes up, gets an alert, and then a new token, so that it is down and out of the manager. */
  function LateUpdate(): seq<Step> {
    [CreateSystem("s"), Connect("s"), Save("s", Up, true, []), CreateAlert("a", Alert("s", "Status", 0.0, false, 1)), NewToken("s", ["a"])]
  }

  lemma SystemIsUp(now: int)
    ensures var s := After(now, LateUpdate()[..3]);
            s.systems == map["s" := Up] == s.store && s.db.table == map[] && s.used == {}
  {
    hide Valid, Structure, TablesValid, Covered;
    var steps := LateUpdate();
    assert steps[..1][..0] == [] && steps[..2][..1] == steps[..1] && steps[..3][..2] == steps[..2];
    var s0 := Init(now);
    assert After(now, steps[..1][..0]) == s0;
    var s1 := After(now, steps[..1]);
    assert s1 == Next(s0, steps[0]) == s0.(systems := map["s" := Pending]);
    var s2 := After(now, steps[..2]);
    assert s2 == Next(s1, steps[1]) == s1.(store := map["s" := Pending]);
    assert After(now, steps[..3]) == Next(s2, steps[2]);
  }

  lemma SystemHasAlert(now: int)
    ensures var s := After(now, LateUpdate()[..4]);
            && s.systems == map["s" := Up] == s.store
            && s.db.table == map["a" := Alert("s", "Status", 0.0, false, 1)] && Lists(s, "s", ["a"])
  {
    hide Valid, Structure, TablesValid, Covered, C.Updated, After;
    var steps := LateUpdate();
    SystemIsUp(now);
    AfterOneMore(now, steps[..3], steps[3]);
    assert steps[..4] == steps[..3] + [steps[3]];
  }

  lemma AfterOneMore(now: int, steps: seq<Step>, step: Step)
    ensures After(now, steps + [step]) == Next(After(now, steps), step)
  {
    assert (steps + [step])[..|steps|] == steps;
  }

  /** An update that was still in flight then saves up: the alert is pending while its system is up. */
  lemma LateUpdateLeavesAlert(now: int)
    ensures var s := After(now, LateUpdate());
            && "s" in s.systems && "s" !in s.store && "a" in s.timers && IsStatusOf(s.db.table, "s", "a")
            && !Valid(OnSave(s, "s", Up, true, ["a"]))
  {
    hide Valid, Structure, TablesValid, Covered, OnNewToken, After, Lists;
    var steps := LateUpdate();
    SystemHasAlert(now);
    AfterOneMore(now, steps[..4], steps[4]);
    assert steps == steps[..4] + [steps[4]];
    NewTokenTakesDown(After(now, steps[..4]), "s", ["a"]);
    UnmanagedUpKeepsIff(After(now, steps), "s", true, ["a"]);
  }
}
