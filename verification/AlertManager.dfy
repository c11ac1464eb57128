/** The alert manager and the status hook of the system manager as one object: internal/alerts/alerts_status.go
    and internal/hub/systems/system_manager.go lines 104-185 and 254-270. It works on the cache and the history as the
    objects of their own models; the alerts and systems tables and the manager's systems are fields. Every method is
    tied to the function of the run model that it makes. */
module AlertManagers {
  import opened Common
  import opened Alerts
  import opened StatusAlerts
  import C = AlertsCacheSpec
  import H = AlertsHistorySpec
  import AlertsCaches
  import AlertsHistories

  class AlertManager {
    var systems: map<string, Status>
    var store: map<string, Status>
    var alerts: Table
    var pendingAlerts: map<string, Timer>
    var log: seq<LogEntry>
    var now: int
    const alertsCache: AlertsCaches.AlertsCache
    const alertsHistory: AlertsHistories.AlertsHistory
    ghost var used: set<string>
    ghost var armed: set<string>

    ghost predicate Linked()
      reads alertsCache
    {
      alertsCache.Valid()
    }

    /** The invariant of all runs; the methods that make a whole step keep it. */
    ghost predicate Valid()
      reads this, alertsHistory, alertsCache, alertsCache.store.Values
    {
      Linked() && StatusAlerts.Valid(State())
    }

    /** What a method promises that makes a step: from a valid state in which the step is enabled, the step and a valid
        state. */
    twostate predicate Makes(step: Step)
      reads this, alertsHistory, alertsCache, alertsCache.store.Values
    {
      old(Valid()) && Enabled(old(State()), step) ==> Valid() && State() == Apply(old(State()), step)
    }

    /** The objects that change with the manager. */
    ghost function Parts(): set<object>
      reads alertsCache
    {
      {alertsHistory, alertsCache} + alertsCache.store.Values
    }

    ghost function State(): State
      reads this, alertsHistory, alertsCache, alertsCache.store.Values
    {
      StatusAlerts.State(systems, store, H.Db(alerts, alertsHistory.records), alertsCache.Contents(), pendingAlerts, log, now, used, armed)
    }

    twostate lemma MakesStep(step: Step)
      requires Linked() && (Enabled(old(State()), step) ==> State() == Apply(old(State()), step))
      ensures Makes(step)
    {
      hide StatusAlerts.Valid, Enabled, Apply;
      EnabledStepKeepsValid(old(State()), step);
    }

    constructor (now: int)
      ensures Valid() && State() == Init(now) && fresh(Parts())
    {
      InitIsValid(now);
      alertsCache := new AlertsCaches.AlertsCache();
      alertsHistory := new AlertsHistories.AlertsHistory();
      systems, store, alerts, pendingAlerts, log := map[], map[], map[], map[], [];
      this.now := now;
      used, armed := {}, {};
    }

    /** A save of a new alert, with the cache's hook. */
    method CreateAlert(id: string, alert: Alert)
      requires Linked() && id !in alerts
      modifies this`alerts, this`used, Parts()
      ensures Linked() && fresh(Parts() - old(Parts()))
      ensures State() == old(State()).(db := H.Next(old(State()).db, H.Create(id, alert)),
                                       cache := C.Updated(old(State()).cache, id, alert), used := old(used) + {id})
      ensures Makes(Step.CreateAlert(id, alert))
    {
      hide C.Updated, StatusAlerts.Valid, H.Next, Enabled;
      alerts := alerts[id := alert];
      used := used + {id};
      alertsCache.Update(id, alert);
      CreateOnlyAdds(old(State()).db, id, alert);
      assert State().db == H.Next(old(State()).db, H.Create(id, alert));
      MakesStep(Step.CreateAlert(id, alert));
    }

    lemma CreateOnlyAdds(db: H.Db, id: string, alert: Alert)
      requires id !in db.table
      ensures H.Next(db, H.Create(id, alert)) == db.(table := db.table[id := alert])
    {
    }

    /** The deletion of an alert, with the hooks of the history and of the cache. */
    method DeleteAlert(id: string)
      requires Linked() && id in alerts
      modifies this`alerts, Parts()
      ensures Linked() && fresh(Parts() - old(Parts())) && State() == DeletedOne(old(State()), id)
      ensures Makes(Step.DeleteAlert(id))
    {
      hide C.Deleted, H.AfterDelete, StatusAlerts.Valid;
      var alert := alerts[id];
      alerts := alerts - {id};
      alertsHistory.ResolveHistoryOnAlertDelete(id, alert);
      alertsCache.Delete(id, alert);
      assert State() == DeletedOne(old(State()), id);
      MakesStep(Step.DeleteAlert(id));
    }

    method SetAlertTriggered(id: string, triggered: bool) returns (ok: bool)
      requires Linked()
      modifies this`alerts, Parts()
      ensures Linked() && fresh(Parts() - old(Parts()))
      ensures State() == SetTriggered(old(State()), id, triggered) && (ok <==> id in old(alerts))
      ensures Makes(FlipOther(id, triggered))
    {
      hide C.Updated, H.AfterUpdate, StatusAlerts.Valid;
      if id !in alerts {
        MakesStep(FlipOther(id, triggered));
        return false;
      }
      var original := alerts[id];
      var alert := original.(triggered := triggered);
      alerts := alerts[id := alert];
      alertsHistory.UpdateHistoryOnAlertUpdate(id, original, alert);
      alertsCache.Update(id, alert);
      ok := true;
      assert State() == SetTriggered(old(State()), id, triggered);
      MakesStep(FlipOther(id, triggered));
    }

    method SendStatusAlert(up: bool, id: string, since: nat)
      requires Linked()
      modifies this`alerts, this`log, Parts()
      ensures Linked() && fresh(Parts() - old(Parts()))
      ensures State() == if up then SentUp(old(State()), id) else SentDown(old(State()), id, since)
    {
      hide SetTriggered;
      var ok := SetAlertTriggered(id, !up);
      if !ok {
        GoneIsUnset(old(State()), id, !up);
        return;
      }
      log := log + [if up then UpSent(id, now) else DownSent(id, now, since)];
    }

    lemma GoneIsUnset(s: State, id: string, triggered: bool)
      requires id !in s.db.table
      ensures SetTriggered(s, id, triggered) == s
    {
    }

    method SchedulePendingStatusAlert(data: CachedAlertData, delay: int) returns (scheduled: bool)
      requires delay == Max(1, data.min) * MINUTE
      modifies this`pendingAlerts, this`log
      ensures State() == ScheduledOne(old(State()), data) && (scheduled <==> data.id !in old(pendingAlerts))
    {
      if data.id in pendingAlerts {
        return false;
      }
      pendingAlerts := pendingAlerts[data.id := Timer(data.systemId, now + delay, |log|)];
      log := log + [Scheduled(data.id, data.systemId, now, data.min)];
      scheduled := true;
    }

    method HandleSystemDown(list: seq<CachedAlertData>)
      modifies this`pendingAlerts, this`log
      ensures State() == ScheduledAll(old(State()), list)
    {
      hide ScheduledOne;
      for i := 0 to |list|
        invariant State() == ScheduledAll(old(State()), list[..i])
      {
        assert list[..i + 1][..i] == list[..i];
        var min := Max(1, list[i].min);
        var _ := SchedulePendingStatusAlert(list[i], min * MINUTE);
      }
      assert list[..|list|] == list;
    }

    method CancelPendingAlert(id: string) returns (found: bool)
      modifies this`pendingAlerts
      ensures found <==> id in old(pendingAlerts)
      ensures pendingAlerts == old(pendingAlerts) - {id}
    {
      found := id in pendingAlerts;
      pendingAlerts := pendingAlerts - {id};
    }

    method HandleSystemUp(list: seq<CachedAlertData>)
      requires Linked()
      modifies this`alerts, this`pendingAlerts, this`log, Parts()
      ensures Linked() && fresh(Parts() - old(Parts()))
      ensures State() == UpAll(old(State()), list)
    {
      hide UpOne;
      for i := 0 to |list|
        invariant Linked() && fresh(Parts() - old(Parts()))
        invariant State() == UpAll(old(State()), list[..i])
      {
        assert list[..i + 1][..i] == list[..i];
        HandleOneUp(list[i]);
      }
      assert list[..|list|] == list;
    }

    method HandleOneUp(data: CachedAlertData)
      requires Linked()
      modifies this`alerts, this`pendingAlerts, this`log, Parts()
      ensures Linked() && fresh(Parts() - old(Parts()))
      ensures State() == UpOne(old(State()), data)
    {
      hide SentUp;
      var cancelled := CancelPendingAlert(data.id);
      if cancelled {
        return;
      }
      assert pendingAlerts == old(pendingAlerts);
      if !data.triggered {
        return;
      }
      SendStatusAlert(true, data.id, 0);
    }

    /** CancelPendingStatusAlerts: the map is walked and entries of the system are deleted on the way. */
    method CancelPendingStatusAlerts(system: string)
      modifies this`pendingAlerts
      ensures State() == CancelledFor(old(State()), system)
    {
      var rest := pendingAlerts.Keys;
      while rest != {}
        invariant rest <= pendingAlerts.Keys <= old(pendingAlerts).Keys
        invariant forall id | id in old(pendingAlerts) ::
                    if id in rest || old(pendingAlerts)[id].system != system
                    then id in pendingAlerts && pendingAlerts[id] == old(pendingAlerts)[id]
                    else id !in pendingAlerts
        decreases |rest|
      {
        var id :| id in rest;
        if pendingAlerts[id].system == system {
          var _ := CancelPendingAlert(id);
        }
        rest := rest - {id};
      }
    }

    /** processPendingAlert, called by the timer. */
    method ProcessPendingAlert(id: string)
      requires Linked()
      modifies this`alerts, this`pendingAlerts, this`log, Parts()
      ensures Linked() && fresh(Parts() - old(Parts()))
      ensures State() == if id in old(pendingAlerts) then Fired(old(State()), id) else old(State())
    {
      hide SentDown;
      if id !in pendingAlerts {
        return;
      }
      var info := pendingAlerts[id];
      pendingAlerts := pendingAlerts - {id};
      var refreshed := None;
      if id != "" {
        refreshed := alertsCache.GetAlert(info.system, id);
      }
      if refreshed.None? || refreshed.value.triggered {
        return;
      }
      SendStatusAlert(false, id, info.since);
    }

    /** The callback of the timer of an alert. */
    method TimerExpired(id: string)
      requires Linked()
      modifies this`alerts, this`pendingAlerts, this`log, Parts()
      ensures Linked() && fresh(Parts() - old(Parts())) && Makes(Fire(id))
      ensures State() == if id in old(pendingAlerts) then Fired(old(State()), id) else old(State())
    {
      hide Fired, StatusAlerts.Valid;
      ProcessPendingAlert(id);
      MakesStep(Fire(id));
    }

    /** The order is one in which the cache can list the alerts of the system. */
    ghost predicate IsOrder(system: string, order: seq<string>)
      reads this, alertsCache, alertsCache.store.Values
    {
      Distinct(order) && forall id :: id in order <==> id in C.SystemAlerts(alertsCache.Contents(), alerts, system)
    }

    /** GetAlertsByName(system, "Status"). */
    method StatusAlertsOf(system: string, order: seq<string>) returns (list: seq<CachedAlertData>)
      requires Linked() && IsOrder(system, order)
      modifies Parts()
      ensures Linked() && fresh(Parts() - old(Parts()))
      ensures State() == old(State()).(cache := C.Loaded(old(State()).cache, alerts, system))
      ensures list == StatusData(State().cache[system], order)
    {
      var all := alertsCache.GetSystemAlerts(system, alerts, order);
      list := AlertsCaches.ByName(all, "Status");
      NamedIsStatusData(all, State().cache[system], order);
    }

    lemma {:induction false} NamedIsStatusData(all: seq<CachedAlertData>, entries: map<string, CachedAlertData>, order: seq<string>)
      requires |all| == |order| && forall i | 0 <= i < |order| :: order[i] in entries && all[i] == entries[order[i]]
      ensures AlertsCaches.Named(all, "Status") == StatusData(entries, order)
      decreases |all|
    {
      if all != [] {
        NamedIsStatusData(all[..|all| - 1], entries, order[..|order| - 1]);
      }
    }

    method HandleStatusAlerts(newStatus: Status, system: string, order: seq<string>)
      requires Linked() && IsOrder(system, order)
      modifies this`alerts, this`pendingAlerts, this`log, this`armed, Parts()
      ensures Linked() && fresh(Parts() - old(Parts()))
      ensures State() ==
              match newStatus
              case Down => WentDown(old(State()), system, order)
              case Up => WentUp(old(State()), system, order)
              case _ => old(State())
    {
      hide C.Loaded, ScheduledAll, UpAll, StatusData;
      if newStatus != Up && newStatus != Down {
        return;
      }
      var list := StatusAlertsOf(system, order);
      if newStatus == Down {
        HandleSystemDown(list);
        armed := armed + Ids(list);
      } else {
        HandleSystemUp(list);
      }
    }

    /** deactivateAlerts. */
    method DeactivateAlerts(ids: seq<string>)
      requires Linked()
      modifies this`alerts, this`log, Parts()
      ensures Linked() && fresh(Parts() - old(Parts()))
      ensures State() == ResetAll(old(State()), ids)
    {
      hide ResetOne;
      for i := 0 to |ids|
        invariant Linked() && fresh(Parts() - old(Parts()))
        invariant State() == ResetAll(old(State()), ids[..i])
      {
        assert ids[..i + 1][..i] == ids[..i];
        DeactivateAlert(ids[i]);
      }
      assert ids[..|ids|] == ids;
    }

    method DeactivateAlert(id: string)
      requires Linked()
      modifies this`alerts, this`log, Parts()
      ensures Linked() && fresh(Parts() - old(Parts()))
      ensures State() == ResetOne(old(State()), id)
    {
      hide SetTriggered;
      if id in alerts && alerts[id].triggered {
        var isStatus := alerts[id].name == "Status";
        var _ := SetAlertTriggered(id, false);
        if isStatus {
          log := log + [Reset(id)];
        }
      }
    }

    method RemoveSystem(system: string)
      requires Linked()
      modifies this`store
      ensures Linked() && State() == Removed(old(State()), system) && Makes(Disconnect(system))
    {
      hide StatusAlerts.Valid;
      store := store - {system};
      assert State() == Removed(old(State()), system);
      MakesStep(Disconnect(system));
    }

    /** AddWebSocketSystem: the manager takes the status from the table. */
    method AddWebSocketSystem(system: string)
      requires Linked() && system in systems
      modifies this`store
      ensures Linked() && store == old(store)[system := systems[system]] && Makes(Connect(system))
    {
      hide StatusAlerts.Valid;
      store := store[system := systems[system]];
      assert State() == old(State()).(store := store);
      MakesStep(Connect(system));
    }

    /** setDown, of a system in the manager. */
    method SetDown(system: string, order: seq<string>)
      requires Linked() && system in store && IsOrder(system, order)
      modifies this, Parts()
      ensures Linked() && fresh(Parts() - old(Parts()))
      ensures State() == StatusAlerts.SetDown(old(State()), system, order)
    {
      if store[system] == Down || store[system] == Paused {
        return;
      }
      SaveStatus(system, Down, true, order);
    }

    /** A save of the status, with the part of onRecordAfterUpdateSuccess for an unchanged token. */
    method SaveStatus(system: string, newStatus: Status, connected: bool, order: seq<string>)
      requires Linked() && IsOrder(system, order)
      modifies this, Parts()
      ensures Linked() && fresh(Parts() - old(Parts()))
      ensures State() == OnSave(old(State()), system, newStatus, connected, order)
      ensures Makes(Save(system, newStatus, connected, order))
    {
      hide WentDown, WentUp, ResetAll, CancelledFor, Turn, StatusAlerts.Valid;
      var ok := system in store;
      var prevStatus := if ok then store[system] else Pending;
      TakeStatus(system, newStatus);
      React(system, newStatus, ok, prevStatus, connected, order);
      assert State() == OnSave(old(State()), system, newStatus, connected, order);
      MakesStep(Save(system, newStatus, connected, order));
    }

    /** The new status, in the table and in the manager. */
    method TakeStatus(system: string, newStatus: Status)
      modifies this`systems, this`store, this`log, this`armed
      ensures State() == Turn(old(State()), system, newStatus)
    {
      systems := systems[system := newStatus];
      log := log + [Turned(system, newStatus)];
      armed := if newStatus == Down then armed else armed - AlertsOf(alerts, system);
      if system in store {
        store := store[system := newStatus];
      }
    }

    /** The switch on the new status and what follows it. */
    method React(system: string, newStatus: Status, ok: bool, prevStatus: Status, connected: bool, order: seq<string>)
      requires Linked() && IsOrder(system, order)
      modifies this`alerts, this`pendingAlerts, this`log, this`armed, Parts()
      ensures Linked() && fresh(Parts() - old(Parts()))
      ensures State() ==
              match newStatus
              case Paused => CancelledFor(ResetAll(old(State()), order), system)
              case Pending => if ok && connected then old(State()) else ResetAll(old(State()), order)
              case Down => if ok && prevStatus == Up then WentDown(old(State()), system, order) else old(State())
              case Up => if ok && prevStatus == Down then WentUp(old(State()), system, order) else old(State())
    {
      hide WentDown, WentUp, ResetAll, CancelledFor;
      if newStatus == Paused {
        DeactivateAlerts(order);
        CancelPendingStatusAlerts(system);
        return;
      }
      if newStatus == Pending {
        if ok && connected {
          return;
        }
        DeactivateAlerts(order);
        return;
      }
      if !ok {
        return;
      }
      if (newStatus == Down && prevStatus == Up) || (newStatus == Up && prevStatus == Down) {
        HandleStatusAlerts(newStatus, system, order);
      }
    }

    /** onRecordAfterUpdateSuccess when the token changed. */
    method SaveToken(system: string, order: seq<string>)
      requires Linked() && system in systems && IsOrder(system, order)
      modifies this, Parts()
      ensures Linked() && fresh(Parts() - old(Parts()))
      ensures State() == OnNewToken(old(State()), system, order) && Makes(NewToken(system, order))
    {
      hide OnSave, StatusAlerts.Valid, Makes;
      if system !in store {
        SaveStatus(system, systems[system], false, order);
      } else {
        store := store[system := systems[system]];
        SetDown(system, order);
        RemoveSystem(system);
      }
      assert State() == OnNewToken(old(State()), system, order);
      MakesStep(NewToken(system, order));
    }

    /** PopulateFromDB, resolveStatusAlerts and restorePendingStatusAlerts, after the process lost its memory; `rows`,
        `resolve` and `restore` are the results of the queries. */
    method Start(rows: seq<AlertsCaches.Record>, resolve: seq<string>, restore: seq<string>)
      requires Linked() && AlertsCaches.Enumerates(rows, alerts)
      modifies this, Parts()
      ensures Linked() && fresh(Parts() - old(Parts()))
      ensures State() == OnRestart(old(State()), resolve, restore) && Makes(Restart(resolve, restore))
    {
      hide OnRestart, AlertsCaches.Enumerates, StatusAlerts.Valid;
      Recover(rows, resolve, restore);
      MakesStep(Restart(resolve, restore));
    }

    method Recover(rows: seq<AlertsCaches.Record>, resolve: seq<string>, restore: seq<string>)
      requires Linked() && AlertsCaches.Enumerates(rows, alerts)
      modifies this, Parts()
      ensures Linked() && fresh(Parts() - old(Parts()))
      ensures State() == OnRestart(old(State()), resolve, restore)
    {
      hide ResetAll, RestoredAll, Stopped, AlertsCaches.Enumerates;
      Reload(rows);
      DeactivateAlerts(resolve);
      ghost var t := State();
      RestorePendingStatusAlerts(restore);
      armed := set id | id in t.db.table && t.IsStatusAlert(id) && IsDown(t, t.db.table[id].system);
    }

    /** Nothing is left in memory, and the cache is populated. */
    method Reload(rows: seq<AlertsCaches.Record>)
      requires Linked() && AlertsCaches.Enumerates(rows, alerts)
      modifies this`pendingAlerts, this`store, this`log, this`armed, Parts()
      ensures Linked() && fresh(Parts() - old(Parts())) && State() == Stopped(old(State()))
    {
      hide C.Populated, AlertsCaches.Enumerates;
      log := log + [Restarted];
      pendingAlerts, store := map[], map[];
      armed := {};
      alertsCache.PopulateFromDB(true, rows, alerts);
    }

    method RestorePendingStatusAlerts(ids: seq<string>)
      modifies this`pendingAlerts, this`log
      ensures State() == RestoredAll(old(State()), ids)
    {
      hide ScheduledOne;
      for i := 0 to |ids|
        invariant State() == RestoredAll(old(State()), ids[..i])
      {
        assert ids[..i + 1][..i] == ids[..i];
        if ids[i] in alerts {
          var data := alertsCache.GetAlert(alerts[ids[i]].system, ids[i]);
          if data.Some? {
            var min := Max(1, data.value.min);
            var _ := SchedulePendingStatusAlert(data.value, min * MINUTE);
          }
        }
      }
      assert ids[..|ids|] == ids;
    }
  }
}
