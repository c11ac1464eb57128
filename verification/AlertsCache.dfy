/** Alert records: internal/alerts/alerts_cache.go lines 10-29 and the alerts collection. */
module Alerts {

  /** A row of the alerts table. `min` is the number of minutes as stored. */
  datatype Alert = Alert(system: string, name: string, value: real, triggered: bool, min: int)

  /** What the cache keeps of it; `min` is a uint8 there. */
  datatype CachedAlertData = CachedAlertData(id: string, systemId: string, name: string, value: real, triggered: bool, min: int)

  /** PopulateFromRecord. */
  function Snapshot(id: string, a: Alert): CachedAlertData {
    CachedAlertData(id, a.system, a.name, a.value, a.triggered, a.min % 256)
  }

  type Table = map<string, Alert>

  /** The alerts of one system, by a direct query. */
  function Query(table: Table, system: string): map<string, CachedAlertData> {
    map id | id in table && table[id].system == system :: Snapshot(id, table[id])
  }
}

/** The cache of alert records and its agreement with the table: internal/alerts/alerts_cache.go lines 32-139. */
module AlertsCacheSpec {
  import opened Common
  import opened Alerts

  type Contents = map<string, map<string, CachedAlertData>>

  function Updated(c: Contents, id: string, a: Alert): Contents {
    if a.system == "" then c
    else c[a.system := (if a.system in c then c[a.system] else map[])[id := Snapshot(id, a)]]
  }

  function Deleted(c: Contents, id: string, a: Alert): Contents {
    if a.system == "" || a.system !in c then c else c[a.system := c[a.system] - {id}]
  }

  /** GetSystemAlerts fills in a system that is not in the store. */
  function Loaded(c: Contents, table: Table, system: string): Contents {
    if system in c then c else c[system := Query(table, system)]
  }

  /** PopulateFromDB: all rows of the table, except those without a system. */
  function Populated(table: Table): Contents {
    map system | system in (set id | id in table && table[id].system != "" :: table[id].system) :: Query(table, system)
  }

  function SystemAlerts(c: Contents, table: Table, system: string): map<string, CachedAlertData> {
    Loaded(c, table, system)[system]
  }

  function FindAlert(c: Contents, system: string, id: string): Option<CachedAlertData> {
    if system in c && id in c[system] then Some(c[system][id]) else None
  }

  /** Every system in the store has exactly the alerts of the table, but for the system with the empty name. */
  predicate Agrees(table: Table, c: Contents) {
    forall system | system in c && system != "" :: c[system] == Query(table, system)
  }

  /** A system that is missing from the store has no alerts. */
  predicate Complete(table: Table, c: Contents) {
    forall id | id in table && table[id].system != "" :: table[id].system in c
  }

  /** The table and the cache change together: each write runs its hook. */
  datatype State = State(table: Table, cache: Contents)

  datatype Event =
    | Create(id: string, alert: Alert)
    | Update(id: string, alert: Alert)
    | Delete(id: string)
    | Read(system: string)
    | Populate

  /** IDs are not reused while a row has them. */
  predicate Possible(s: State, e: Event) {
    match e
    case Create(id, _) => id !in s.table
    case Update(id, _) => id in s.table
    case Delete(id) => id in s.table
    case Read(_) => true
    case Populate => true
  }

  /** An update does not take an alert away from a system. The user interface never changes the system field, and
      the update hook relies on it (alerts_cache.go line 49). */
  predicate Loyal(s: State, e: Event) {
    e.Update? && e.id in s.table ==> s.table[e.id].system == e.alert.system || s.table[e.id].system == ""
  }

  function Next(s: State, e: Event): State {
    if !Possible(s, e) then s else
    match e
    case Create(id, a) => State(s.table[id := a], Updated(s.cache, id, a))
    case Update(id, a) => State(s.table[id := a], Updated(s.cache, id, a))
    case Delete(id) => State(s.table - {id}, Deleted(s.cache, id, s.table[id]))
    case Read(system) => s.(cache := Loaded(s.cache, s.table, system))
    case Populate => s.(cache := Populated(s.table))
  }

  function After(s: State, events: seq<Event>): State {
    if events == [] then s else Next(After(s, events[..|events| - 1]), events[|events| - 1])
  }

  ghost predicate LoyalRun(s: State, events: seq<Event>) {
    events == [] || (LoyalRun(s, events[..|events| - 1]) && Loyal(After(s, events[..|events| - 1]), events[|events| - 1]))
  }

  lemma QueryAfterWrite(table: Table, id: string, a: Alert, system: string)
    requires id in table && table[id].system != a.system ==> table[id].system != system
    ensures Query(table[id := a], system) ==
            if system == a.system then Query(table, system)[id := Snapshot(id, a)] else Query(table, system)
  {
  }

  lemma QueryAfterDelete(table: Table, id: string, system: string)
    requires id in table
    ensures Query(table - {id}, system) == if system == table[id].system then Query(table, system) - {id} else Query(table, system)
  {
  }

  lemma UpdatedAgrees(table: Table, c: Contents, id: string, a: Alert)
    requires Agrees(table, c) && (id in table ==> table[id].system == a.system || table[id].system == "")
    requires a.system in c || a.system == "" || Query(table, a.system) == map[]
    ensures Agrees(table[id := a], Updated(c, id, a))
  {
    hide Query;
    forall system | system != ""
      ensures Query(table[id := a], system) ==
              if system == a.system then Query(table, system)[id := Snapshot(id, a)] else Query(table, system)
    {
      QueryAfterWrite(table, id, a, system);
    }
  }

  lemma DeletedAgrees(table: Table, c: Contents, id: string)
    requires Agrees(table, c) && id in table
    ensures Agrees(table - {id}, Deleted(c, id, table[id]))
  {
    hide Query;
    forall system
      ensures Query(table - {id}, system) == if system == table[id].system then Query(table, system) - {id} else Query(table, system)
    {
      QueryAfterDelete(table, id, system);
    }
  }

  lemma PopulatedAgrees(table: Table)
    ensures Agrees(table, Populated(table)) && Complete(table, Populated(table))
  {
    hide Query;
  }

  /** A system that is missing from a complete store has no alerts. */
  lemma MissingHasNone(table: Table, c: Contents, system: string)
    requires Complete(table, c) && system !in c && system != ""
    ensures Query(table, system) == map[]
  {
  }

  predicate Valid(s: State) {
    Agrees(s.table, s.cache) && Complete(s.table, s.cache)
  }

  lemma StepKeepsValid(s: State, e: Event)
    requires Valid(s) && Loyal(s, e)
    ensures Valid(Next(s, e))
  {
    hide Query, Agrees, Populated;
    if Possible(s, e) {
      match e {
        case Create(id, a) =>
          WriteKeepsValid(s, id, a);
        case Update(id, a) =>
          WriteKeepsValid(s, id, a);
        case Delete(id) =>
          DeletedAgrees(s.table, s.cache, id);
        case Read(system) =>
          LoadedAgrees(s.table, s.cache, system);
        case Populate =>
          PopulatedAgrees(s.table);
      }
    }
  }

  /** An update keeps store and table in agreement exactly if it takes the alert away from no system: the old
      system's store keeps an alert that moved. */
  lemma StepKeepsValidIff(s: State, e: Event)
    requires Valid(s) && Possible(s, e)
    ensures Valid(Next(s, e)) <==> Loyal(s, e)
  {
    if Loyal(s, e) {
      StepKeepsValid(s, e);
    } else {
      MovedAlertStays(s, e.id, e.alert);
    }
  }

  lemma MovedAlertStays(s: State, id: string, a: Alert)
    requires Valid(s) && id in s.table && s.table[id].system != "" && s.table[id].system != a.system
    ensures !Agrees(s.table[id := a], Updated(s.cache, id, a))
  {
    hide Query;
    var old_ := s.table[id].system;
    QueryHas(s.table, old_, id);
    QueryHas(s.table[id := a], old_, id);
    assert s.cache[old_] == Query(s.table, old_);
    assert Updated(s.cache, id, a)[old_] == s.cache[old_];
  }

  lemma WriteKeepsValid(s: State, id: string, a: Alert)
    requires Valid(s) && (id in s.table ==> s.table[id].system == a.system || s.table[id].system == "")
    ensures Valid(State(s.table[id := a], Updated(s.cache, id, a)))
  {
    hide Query, Agrees;
    if a.system !in s.cache && a.system != "" {
      MissingHasNone(s.table, s.cache, a.system);
    }
    UpdatedAgrees(s.table, s.cache, id, a);
  }

  lemma LoadedAgrees(table: Table, c: Contents, system: string)
    requires Agrees(table, c)
    ensures Agrees(table, Loaded(c, table, system))
  {
    hide Query;
  }

  lemma {:induction false} RunIsValid(table: Table, events: seq<Event>)
    requires LoyalRun(State(table, Populated(table)), events)
    ensures Valid(After(State(table, Populated(table)), events))
    decreases |events|
  {
    hide Valid;
    var s := State(table, Populated(table));
    if events == [] {
      assert Valid(s) by { StartsValid(table); }
    } else {
      RunIsValid(table, events[..|events| - 1]);
      StepKeepsValid(After(s, events[..|events| - 1]), events[|events| - 1]);
    }
  }

  lemma StartsValid(table: Table)
    ensures Valid(State(table, Populated(table)))
  {
    PopulatedAgrees(table);
  }

  lemma QueryHas(table: Table, system: string, id: string)
    ensures id in Query(table, system) <==> id in table && table[id].system == system
  {
  }

  /** After PopulateFromDB and any creates, updates, deletes and reads, the cache answers every question about a
      system as the table would. */
  lemma CacheAnswersLikeTable(table: Table, events: seq<Event>, system: string, id: string)
    requires system != "" && LoyalRun(State(table, Populated(table)), events)
    ensures var s := After(State(table, Populated(table)), events);
            && SystemAlerts(s.cache, s.table, system) == Query(s.table, system)
            && FindAlert(s.cache, system, id) ==
                 (if id in s.table && s.table[id].system == system then Some(Snapshot(id, s.table[id])) else None)
  {
    hide After, Populated;
    RunIsValid(table, events);
    var s := After(State(table, Populated(table)), events);
    if system !in s.cache {
      MissingHasNone(s.table, s.cache, system);
      QueryHas(s.table, system, id);
    }
  }

  /** The entry holds what the row holds; of the minutes it has the last eight bits. */
  predicate Shows(d: CachedAlertData, id: string, a: Alert) {
    d.id == id && d.systemId == a.system && d.name == a.name && d.value == a.value && d.triggered == a.triggered && d.min == a.min % 256
  }

  lemma QueryShowsRows(table: Table, system: string)
    ensures forall id | id in table && table[id].system == system ::
              id in Query(table, system) && Shows(Query(table, system)[id], id, table[id])
    ensures forall id | id in Query(table, system) :: id in table && table[id].system == system
  {
  }

  /** So what the cache answers for a system is exactly its rows, field by field. */
  lemma CacheShowsRows(table: Table, events: seq<Event>, system: string, id: string)
    requires system != "" && LoyalRun(State(table, Populated(table)), events)
    ensures var s := After(State(table, Populated(table)), events);
            var all, one := SystemAlerts(s.cache, s.table, system), FindAlert(s.cache, system, id);
            if id in s.table && s.table[id].system == system
            then id in all && Shows(all[id], id, s.table[id]) && one.Some? && Shows(one.value, id, s.table[id])
            else id !in all && one.None?
  {
    hide After, Populated, Query, SystemAlerts, FindAlert;
    CacheAnswersLikeTable(table, events, system, id);
    QueryShowsRows(After(State(table, Populated(table)), events).table, system);
  }

  /** A write puts just its own row into its system's entries, field by field. */
  lemma UpdatedShowsRow(c: Contents, id: string, a: Alert)
    ensures a.system == "" ==> Updated(c, id, a) == c
    ensures a.system != "" ==>
              var t := Updated(c, id, a);
              && t.Keys == c.Keys + {a.system}
              && (forall other | other in c && other != a.system :: t[other] == c[other])
              && id in t[a.system] && Shows(t[a.system][id], id, a)
              && (forall other | other in t[a.system] && other != id ::
                    a.system in c && other in c[a.system] && t[a.system][other] == c[a.system][other])
              && (a.system in c ==> forall other | other in c[a.system] :: other in t[a.system])
  {
  }

  /** Over the runs whose updates move no alert away, the alerts without a system are the only exception: the hooks
      ignore them, so what a read stored would go stale. No caller asks for the alerts of an empty system. Updates that
      do move an alert break the agreement at once (StepKeepsValidIff). */
  lemma CacheAgreesIff(system: string)
    ensures (forall table: Table, events: seq<Event> | LoyalRun(State(table, Populated(table)), events) ::
               var s := After(State(table, Populated(table)), events); SystemAlerts(s.cache, s.table, system) == Query(s.table, system))
       <==> system != ""
  {
    hide After, Populated, SystemAlerts, Query, LoyalRun;
    forall table: Table, events: seq<Event> | system != "" && LoyalRun(State(table, Populated(table)), events)
      ensures var s := After(State(table, Populated(table)), events); SystemAlerts(s.cache, s.table, system) == Query(s.table, system)
    {
      CacheAnswersLikeTable(table, events, system, "");
    }
    NoSystemGoesStale();
  }

  lemma NoSystemGoesStale()
    ensures exists events: seq<Event> | LoyalRun(State(map[], Populated(map[])), events) ::
              var s := After(State(map[], Populated(map[])), events); SystemAlerts(s.cache, s.table, "") != Query(s.table, "")
  {
    hide Query;
    var alert := Alert("", "Status", 0.0, false, 1);
    var events := [Read(""), Create("a", alert)];
    var table: Table := map[];
    var start := State(table, Populated(table));
    assert events[..1] == [Read("")] && events[..1][..0] == [];
    var first := Next(start, Read(""));
    assert LoyalRun(start, events[..1][..0]) && LoyalRun(start, events[..1]) && LoyalRun(start, events);
    assert After(start, events[..1][..0]) == start;
    assert After(start, events[..1]) == first;
    var s := Next(first, events[1]);
    assert After(start, events) == s;
    NothingToQuery();
    assert Query(s.table, "")["a"] == Snapshot("a", alert) by { QueryAfterWrite(map[], "a", alert, ""); }
    assert Populated(table) == map[];
    assert first.cache[""] == map[];
    assert "a" !in SystemAlerts(s.cache, s.table, "");
  }

  lemma NothingToQuery()
    ensures Query(map[], "") == map[]
  {
  }
}

/** The cache itself, with one nested store per system. */
module AlertsCaches {
  import opened Common
  import opened Alerts
  import opened AlertsCacheSpec

  /** store.Store[string, CachedAlertData]. */
  class SystemStore {
    var data: map<string, CachedAlertData>

    constructor (data: map<string, CachedAlertData>)
      ensures this.data == data
    {
      this.data := data;
    }
  }

  /** A row as read from the table. */
  datatype Record = Record(id: string, alert: Alert)

  function RowsOf(records: seq<Record>): Table {
    if records == [] then map[] else RowsOf(records[..|records| - 1])[records[|records| - 1].id := records[|records| - 1].alert]
  }

  /** All rows of the table, in some order. */
  predicate Enumerates(records: seq<Record>, table: Table) {
    && (forall i, j | 0 <= i < j < |records| :: records[i].id != records[j].id)
    && RowsOf(records) == table
  }

  lemma {:induction false} RowIsLater(records: seq<Record>, n: nat, i: nat)
    requires n <= i < |records| && forall i, j | 0 <= i < j < |records| :: records[i].id != records[j].id
    ensures records[i].id !in RowsOf(records[..n])
    decreases n
  {
    if n > 0 {
      assert records[..n][..n - 1] == records[..n - 1];
      RowIsLater(records, n - 1, i);
    }
  }

  class AlertsCache {
    var store: map<string, SystemStore>
    var populated: bool

    ghost predicate Valid()
      reads this
    {
      forall x, y | x in store && y in store && x != y :: store[x] != store[y]
    }

    ghost function Contents(): Contents
      reads this, store.Values
    {
      map system | system in store :: store[system].data
    }

    constructor ()
      ensures Valid() && Contents() == map[] && !populated && fresh(store.Values)
    {
      store, populated := map[], false;
    }

    /** Update, on the hooks of a create and of an update. */
    method Update(id: string, alert: Alert)
      requires Valid()
      modifies this`store, store.Values
      ensures Valid() && Contents() == Updated(old(Contents()), id, alert)
      ensures fresh(store.Values - old(store.Values))
    {
      if alert.system == "" {
        return;
      }
      var systemStore;
      if alert.system in store {
        systemStore := store[alert.system];
      } else {
        systemStore := new SystemStore(map[]);
        store := store[alert.system := systemStore];
      }
      systemStore.data := systemStore.data[id := Snapshot(id, alert)];
    }

    /** Delete, on the hook of a delete. */
    method Delete(id: string, alert: Alert)
      requires Valid()
      modifies store.Values
      ensures Valid() && Contents() == Deleted(old(Contents()), id, alert)
    {
      if alert.system == "" {
        return;
      }
      if alert.system in store {
        var systemStore := store[alert.system];
        systemStore.data := systemStore.data - {id};
      }
    }

    /** PopulateFromDB; `records` are all rows of the table, in any order. */
    method PopulateFromDB(force: bool, records: seq<Record>, ghost table: Table)
      requires Valid() && Enumerates(records, table)
      modifies this, store.Values
      ensures Valid() && populated
      ensures Contents() == if force || !old(populated) then Populated(table) else old(Contents())
      ensures fresh(store.Values - old(store.Values))
    {
      if !force && populated {
        return;
      }
      store := map[];
      PopulatedNothing();
      UpdateAll(records);
      populated := true;
    }

    method UpdateAll(records: seq<Record>)
      requires Valid() && store == map[]
      requires forall i, j | 0 <= i < j < |records| :: records[i].id != records[j].id
      modifies this`store
      ensures Valid() && Contents() == Populated(RowsOf(records)) && fresh(store.Values)
    {
      hide Populated, Query, Updated;
      PopulatedNothing();
      assert Contents() == map[];
      for i := 0 to |records|
        invariant Valid() && fresh(store.Values)
        invariant Contents() == Populated(RowsOf(records[..i]))
      {
        RowIsLater(records, i, i);
        PopulatedOneMore(RowsOf(records[..i]), records[i].id, records[i].alert);
        assert records[..i + 1][..i] == records[..i];
        Update(records[i].id, records[i].alert);
      }
      assert records[..|records|] == records;
    }

    /** GetSystemAlerts; `order` is the order in which the store lists its entries. */
    method GetSystemAlerts(system: string, table: Table, order: seq<string>) returns (alerts: seq<CachedAlertData>)
      requires Valid()
      requires forall i, j | 0 <= i < j < |order| :: order[i] != order[j]
      requires forall id :: id in order <==> id in SystemAlerts(Contents(), table, system)
      modifies this`store
      ensures Valid() && Contents() == Loaded(old(Contents()), table, system)
      ensures fresh(store.Values - old(store.Values))
      ensures |alerts| == |order|
      ensures forall i | 0 <= i < |order| :: alerts[i] == SystemAlerts(old(Contents()), table, system)[order[i]]
    {
      if system !in store {
        var systemStore := new SystemStore(Query(table, system));
        store := store[system := systemStore];
      }
      var all := store[system].data;
      assert all == SystemAlerts(old(Contents()), table, system);
      alerts := [];
      for i := 0 to |order|
        invariant |alerts| == i && forall j | 0 <= j < i :: alerts[j] == all[order[j]]
      {
        alerts := alerts + [all[order[i]]];
      }
    }

    /** GetAlert. */
    method GetAlert(system: string, id: string) returns (alert: Option<CachedAlertData>)
      ensures alert == FindAlert(Contents(), system, id)
    {
      alert := None;
      if system in store && id in store[system].data {
        alert := Some(store[system].data[id]);
      }
    }

    /** Refresh. */
    method Refresh(alert: CachedAlertData) returns (current: Option<CachedAlertData>)
      ensures current == if alert.id == "" then None else FindAlert(Contents(), alert.systemId, alert.id)
    {
      if alert.id == "" {
        return None;
      }
      current := GetAlert(alert.systemId, alert.id);
    }
  }

  /** GetAlertsByName keeps the alerts with the name, in order. */
  method ByName(all: seq<CachedAlertData>, name: string) returns (alerts: seq<CachedAlertData>)
    ensures alerts == Named(all, name)
  {
    alerts := [];
    for i := 0 to |all|
      invariant alerts == Named(all[..i], name)
    {
      assert all[..i + 1][..i] == all[..i];
      if all[i].name == name {
        alerts := alerts + [all[i]];
      }
    }
    assert all[..|all|] == all;
  }

  /** Exactly the alerts with the name, each as often as it was listed. */
  lemma {:induction false} NamedKeepsThose(all: seq<CachedAlertData>, name: string, d: CachedAlertData)
    ensures multiset(Named(all, name))[d] == if d.name == name then multiset(all)[d] else 0
    decreases |all|
  {
    if all != [] {
      var init, last := all[..|all| - 1], all[|all| - 1];
      NamedKeepsThose(init, name, d);
      assert all == init + [last];
    }
  }

  function Named(all: seq<CachedAlertData>, name: string): seq<CachedAlertData> {
    if all == [] then []
    else Named(all[..|all| - 1], name) + if all[|all| - 1].name == name then [all[|all| - 1]] else []
  }

  lemma PopulatedNothing()
    ensures Populated(map[]) == map[]
  {
  }

  lemma PopulatedOneMore(rows: Table, id: string, alert: Alert)
    requires id !in rows
    ensures Populated(rows[id := alert]) == Updated(Populated(rows), id, alert)
  {
    forall system
      ensures Query(rows[id := alert], system) ==
              if system == alert.system then Query(rows, system)[id := Snapshot(id, alert)] else Query(rows, system)
    {
      QueryAfterWrite(rows, id, alert, system);
    }
    if alert.system != "" && alert.system !in Populated(rows) {
      assert Query(rows, alert.system) == map[];
    }
    PopulatedKeys(rows, id, alert);
  }

  lemma PopulatedKeys(rows: Table, id: string, alert: Alert)
    requires id !in rows
    ensures Populated(rows[id := alert]).Keys == Populated(rows).Keys + if alert.system == "" then {} else {alert.system}
  {
    var more := rows[id := alert];
    forall system | system in Populated(rows)
      ensures system in Populated(more)
    {
      var other :| other in rows && rows[other].system == system;
      assert more[other].system == system;
    }
    assert more[id].system == alert.system;
  }
}
