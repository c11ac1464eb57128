/** The history of alerts: internal/alerts/alerts_history.go, the cascades of the systems table, and the trimming
    of internal/records/records_deletion.go lines 37-49. */
module AlertsHistorySpec {
  import opened Alerts

  /** A row of alerts_history; `open` means that `resolved` is null. */
  datatype Entry = Entry(alertId: string, system: string, name: string, value: real, open: bool)

  /** Both tables; the history is in order of creation. */
  datatype Db = Db(table: Table, history: seq<Entry>)

  const KEEP: nat := 200
  const LIMIT: nat := 250

  /** resolveAlertHistoryRecord: the first open record of the alert is resolved. */
  function Resolved(history: seq<Entry>, id: string): seq<Entry> {
    if history == [] then []
    else if history[0].open && history[0].alertId == id then [history[0].(open := false)] + history[1..]
    else [history[0]] + Resolved(history[1..], id)
  }

  function Opened(id: string, a: Alert): Entry {
    Entry(id, a.system, a.name, a.value, true)
  }

  /** updateHistoryOnAlertUpdate. */
  function AfterUpdate(history: seq<Entry>, id: string, original: Alert, new_: Alert): seq<Entry> {
    if original.triggered == new_.triggered then history
    else if new_.triggered then history + [Opened(id, new_)]
    else Resolved(history, id)
  }

  /** resolveHistoryOnAlertDelete. */
  function AfterDelete(history: seq<Entry>, id: string, a: Alert): seq<Entry> {
    if a.triggered then Resolved(history, id) else history
  }

  /** The rows of other systems: what a cascading delete of the system leaves. */
  function WithoutSystem(history: seq<Entry>, system: string): seq<Entry> {
    if history == [] then []
    else WithoutSystem(history[..|history| - 1], system) +
         if history[|history| - 1].system == system then [] else [history[|history| - 1]]
  }

  /** deleteOldAlertsHistory: nothing up to 250 rows, otherwise the newest 200 stay. */
  function Trimmed(history: seq<Entry>): seq<Entry> {
    if |history| <= LIMIT then history else history[|history| - KEEP..]
  }

  datatype Event =
    | Create(id: string, alert: Alert)
    | Update(id: string, alert: Alert)
    | Delete(id: string)
    | DropSystem(system: string)
    | Trim
    | RemoveRow(i: nat)    // the user deletes a history record

  predicate Possible(db: Db, e: Event) {
    match e
    case Create(id, _) => id !in db.table
    case Update(id, a) => id in db.table && a.system == db.table[id].system
    case Delete(id) => id in db.table
    case RemoveRow(i) => i < |db.history|
    case _ => true
  }

  function Next(db: Db, e: Event): Db {
    if !Possible(db, e) then db else
    match e
    case Create(id, a) => db.(table := db.table[id := a])
    case Update(id, a) => Db(db.table[id := a], AfterUpdate(db.history, id, db.table[id], a))
    case Delete(id) => Db(db.table - {id}, AfterDelete(db.history, id, db.table[id]))
    case DropSystem(system) =>
      Db(map id | id in db.table && db.table[id].system != system :: db.table[id], WithoutSystem(db.history, system))
    case Trim => db.(history := Trimmed(db.history))
    case RemoveRow(i) => db.(history := db.history[..i] + db.history[i + 1..])
  }

  function After(events: seq<Event>): Db {
    if events == [] then Db(map[], []) else Next(After(events[..|events| - 1]), events[|events| - 1])
  }

  /** Number of open records of an alert. */
  function OpenCount(history: seq<Entry>, id: string): nat {
    if history == [] then 0
    else OpenCount(history[..|history| - 1], id) + if IsOpen(history[|history| - 1], id) then 1 else 0
  }

  predicate IsOpen(e: Entry, id: string) {
    e.open && e.alertId == id
  }

  predicate Triggered(table: Table, id: string) {
    id in table && table[id].triggered
  }

  /** At most one open record per alert, and none if it is not triggered or does not exist. */
  ghost predicate AtMostOne(db: Db) {
    && (forall id :: OpenCount(db.history, id) <= if Triggered(db.table, id) then 1 else 0)
    && OwnSystem(db)
  }

  /** Exactly one open record, if and only if the alert is triggered. */
  ghost predicate ExactlyOne(db: Db) {
    && (forall id :: OpenCount(db.history, id) == if Triggered(db.table, id) then 1 else 0)
    && OwnSystem(db)
  }

  /** An open record names the system of its alert. */
  ghost predicate OwnSystem(db: Db) {
    forall i | 0 <= i < |db.history| && db.history[i].open ::
      var id := db.history[i].alertId; id in db.table ==> db.table[id].system == db.history[i].system
  }

  lemma {:induction false} OpenCountConcat(a: seq<Entry>, b: seq<Entry>, id: string)
    ensures OpenCount(a + b, id) == OpenCount(a, id) + OpenCount(b, id)
    decreases |b|
  {
    if b == [] {
      assert a + b == a;
    } else {
      assert (a + b)[..|a + b| - 1] == a + b[..|b| - 1];
      OpenCountConcat(a, b[..|b| - 1], id);
    }
  }

  lemma OpenCountOne(e: Entry, id: string)
    ensures OpenCount([e], id) == if IsOpen(e, id) then 1 else 0
  {
    assert [e][..0] == [];
  }

  /** Resolving closes one record of the alert, if there is an open one, and touches no other alert. */
  lemma {:induction false} ResolvedCount(history: seq<Entry>, id: string, other: string)
    ensures OpenCount(Resolved(history, id), other) ==
            OpenCount(history, other) - if other == id && OpenCount(history, id) > 0 then 1 else 0
    ensures |Resolved(history, id)| == |history|
    ensures forall i | 0 <= i < |history| :: var r := Resolved(history, id)[i]; r == history[i] || r == history[i].(open := false)
    decreases |history|
  {
    if history != [] {
      var e, rest := history[0], history[1..];
      assert history == [e] + rest;
      OpenCountConcat([e], rest, other);
      OpenCountConcat([e], rest, id);
      OpenCountOne(e, other);
      OpenCountOne(e, id);
      if IsOpen(e, id) {
        OpenCountConcat([e.(open := false)], rest, other);
        OpenCountOne(e.(open := false), other);
      } else {
        ResolvedCount(rest, id, other);
        OpenCountConcat([e], Resolved(rest, id), other);
      }
    }
  }

  lemma {:induction false} WithoutSystemCount(history: seq<Entry>, system: string, id: string)
    ensures OpenCount(WithoutSystem(history, system), id) <= OpenCount(history, id)
    ensures (forall i | 0 <= i < |history| :: IsOpen(history[i], id) ==> history[i].system != system) ==>
              OpenCount(WithoutSystem(history, system), id) == OpenCount(history, id)
    ensures (forall i | 0 <= i < |history| :: IsOpen(history[i], id) ==> history[i].system == system) ==>
              OpenCount(WithoutSystem(history, system), id) == 0
    decreases |history|
  {
    hide IsOpen;
    if history != [] {
      var init, e := history[..|history| - 1], history[|history| - 1];
      WithoutSystemCount(init, system, id);
      var more := if e.system == system then [] else [e];
      OpenCountConcat(WithoutSystem(init, system), more, id);
      OpenCountOne(e, id);
    }
  }

  lemma {:induction false} WithoutSystemSubset(history: seq<Entry>, system: string)
    ensures forall i | 0 <= i < |WithoutSystem(history, system)| :: WithoutSystem(history, system)[i] in history
    decreases |history|
  {
    if history != [] {
      WithoutSystemSubset(history[..|history| - 1], system);
    }
  }

  lemma {:induction false} SomethingOpen(history: seq<Entry>, id: string)
    ensures OpenCount(history, id) > 0 <==> exists i | 0 <= i < |history| :: IsOpen(history[i], id)
    decreases |history|
  {
    if history != [] {
      var n := |history| - 1;
      SomethingOpen(history[..n], id);
      if OpenCount(history, id) > 0 {
        if IsOpen(history[n], id) {
        } else {
          var i :| 0 <= i < n && IsOpen(history[..n][i], id);
          assert IsOpen(history[i], id);
        }
      }
      if i :| 0 <= i < |history| && IsOpen(history[i], id) {
        if i < n {
          assert IsOpen(history[..n][i], id);
        }
      }
    }
  }

  /** What one event does to the number of open records of an alert. */
  lemma EventCount(db: Db, e: Event, id: string)
    requires Possible(db, e) && OwnSystem(db)
    requires OpenCount(db.history, id) <= if Triggered(db.table, id) then 1 else 0
    ensures var after := Next(db, e);
            match e
            case Create(_, _) => OpenCount(after.history, id) == OpenCount(db.history, id)
            case Update(i, a) =>
              if i == id && a.triggered != db.table[i].triggered then OpenCount(after.history, id) == (if a.triggered then 1 else 0)
              else OpenCount(after.history, id) == OpenCount(db.history, id)
            case Delete(i) => OpenCount(after.history, id) == if i == id then 0 else OpenCount(db.history, id)
            case DropSystem(system) =>
              OpenCount(after.history, id) == if id in db.table && db.table[id].system == system then 0 else OpenCount(db.history, id)
            case _ => OpenCount(after.history, id) <= OpenCount(db.history, id)
  {
    match e {
      case Create(_, _) =>
      case Update(i, a) =>
        ResolvedCount(db.history, i, id);
        OpenCountConcat(db.history, [Opened(i, a)], id);
        OpenCountOne(Opened(i, a), id);
      case Delete(i) =>
        ResolvedCount(db.history, i, id);
      case DropSystem(system) =>
        DropCount(db, system, id);
      case Trim =>
        TrimCount(db.history, id);
      case RemoveRow(i) =>
        RemoveCount(db.history, i, id);
    }
  }

  lemma DropCount(db: Db, system: string, id: string)
    requires OwnSystem(db) && OpenCount(db.history, id) <= if Triggered(db.table, id) then 1 else 0
    ensures OpenCount(WithoutSystem(db.history, system), id) ==
            if id in db.table && db.table[id].system == system then 0 else OpenCount(db.history, id)
  {
    WithoutSystemCount(db.history, system, id);
    SomethingOpen(db.history, id);
  }

  lemma TrimCount(history: seq<Entry>, id: string)
    ensures OpenCount(Trimmed(history), id) <= OpenCount(history, id)
    ensures |history| > LIMIT ==>
              OpenCount(history, id) == OpenCount(history[..|history| - KEEP], id) + OpenCount(Trimmed(history), id)
  {
    if |history| > LIMIT {
      var n := |history| - KEEP;
      assert history == history[..n] + history[n..];
      OpenCountConcat(history[..n], history[n..], id);
    }
  }

  lemma RemoveCount(history: seq<Entry>, i: nat, id: string)
    requires i < |history|
    ensures OpenCount(history[..i] + history[i + 1..], id) == OpenCount(history, id) - if IsOpen(history[i], id) then 1 else 0
  {
    var e := history[i];
    assert history == history[..i] + ([e] + history[i + 1..]);
    OpenCountConcat(history[..i], [e] + history[i + 1..], id);
    OpenCountConcat([e], history[i + 1..], id);
    OpenCountConcat(history[..i], history[i + 1..], id);
    OpenCountOne(e, id);
  }

  lemma OwnSystemKept(db: Db, e: Event)
    requires Possible(db, e) && AtMostOne(db)
    ensures OwnSystem(Next(db, e))
  {
    match e {
      case Create(id, _) =>
        SomethingOpen(db.history, id);
      case Update(id, _) =>
        ResolvedCount(db.history, id, id);
      case Delete(id) =>
        ResolvedCount(db.history, id, id);
      case DropSystem(system) =>
        WithoutSystemSubset(db.history, system);
      case _ =>
    }
  }

  /** Every event keeps it, whatever the history rows that trimming or the user removes. */
  lemma AtMostOneKept(db: Db, e: Event)
    requires AtMostOne(db)
    ensures AtMostOne(Next(db, e))
  {
    if Possible(db, e) {
      OwnSystemKept(db, e);
      forall id
        ensures OpenCount(Next(db, e).history, id) <= if Triggered(Next(db, e).table, id) then 1 else 0
      {
        hide OwnSystem;
        EventCount(db, e, id);
        hide Next;
        TriggeredAfter(db, e, id);
      }
    }
  }

  lemma TriggeredAfter(db: Db, e: Event, id: string)
    requires Possible(db, e)
    ensures Triggered(Next(db, e).table, id) ==
            match e
            case Create(i, a) => if i == id then a.triggered else Triggered(db.table, id)
            case Update(i, a) => if i == id then a.triggered else Triggered(db.table, id)
            case Delete(i) => i != id && Triggered(db.table, id)
            case DropSystem(system) => Triggered(db.table, id) && db.table[id].system != system
            case _ => Triggered(db.table, id)
  {
  }

  /** In every reachable state an alert has at most one open record, and none if it is not triggered or gone. */
  lemma {:induction false} OpenRecordsAreUnique(events: seq<Event>)
    ensures AtMostOne(After(events))
    decreases |events|
  {
    if events == [] {
      assert After(events).history == [];
    } else {
      OpenRecordsAreUnique(events[..|events| - 1]);
      AtMostOneKept(After(events[..|events| - 1]), events[|events| - 1]);
    }
  }

  /** The events that keep the exact form: alerts are created untriggered, and a row of history that is removed is
      not the open one. */
  predicate Orderly(db: Db, e: Event) {
    match e
    case Create(_, a) => !a.triggered
    case Trim => |db.history| <= LIMIT || forall i | 0 <= i < |db.history| - KEEP :: !db.history[i].open
    case RemoveRow(i) => i < |db.history| ==> !db.history[i].open
    case _ => true
  }

  /** The exact form is kept by an event if and only if the event is orderly. */
  lemma ExactlyOneKeptIff(db: Db, e: Event)
    requires ExactlyOne(db) && Possible(db, e)
    ensures ExactlyOne(Next(db, e)) <==> Orderly(db, e)
  {
    OwnSystemKept(db, e);
    forall id
      ensures Orderly(db, e) ==> OpenCount(Next(db, e).history, id) == if Triggered(Next(db, e).table, id) then 1 else 0
    {
      OrderlyCount(db, e, id);
    }
    if !Orderly(db, e) {
      LosesRecord(db, e);
    }
  }

  lemma OrderlyCount(db: Db, e: Event, id: string)
    requires ExactlyOne(db) && Possible(db, e)
    ensures Orderly(db, e) ==> OpenCount(Next(db, e).history, id) == if Triggered(Next(db, e).table, id) then 1 else 0
  {
    TriggeredAfter(db, e, id);
    EventCount(db, e, id);
    if Orderly(db, e) {
      if e.Trim? && |db.history| > LIMIT {
        TrimCount(db.history, id);
        SomethingOpen(db.history[..|db.history| - KEEP], id);
      } else if e.RemoveRow? {
        RemoveCount(db.history, e.i, id);
      }
    }
  }

  lemma LosesRecord(db: Db, e: Event)
    requires ExactlyOne(db) && Possible(db, e) && !Orderly(db, e)
    ensures !ExactlyOne(Next(db, e))
  {
    match e {
      case Create(id, a) =>
        assert OpenCount(db.history, id) == 0;
      case Trim =>
        var i :| 0 <= i < |db.history| - KEEP && db.history[i].open;
        var id := db.history[i].alertId;
        TrimCount(db.history, id);
        assert IsOpen(db.history[..|db.history| - KEEP][i], id);
        SomethingOpen(db.history[..|db.history| - KEEP], id);
        TriggeredAfter(db, e, id);
      case RemoveRow(i) =>
        var id := db.history[i].alertId;
        RemoveCount(db.history, i, id);
        TriggeredAfter(db, e, id);
        SomethingOpen(db.history, id);
      case _ =>
    }
  }

  ghost predicate OrderlyRun(events: seq<Event>) {
    events == [] ||
    (OrderlyRun(events[..|events| - 1]) && Orderly(After(events[..|events| - 1]), events[|events| - 1]))
  }

  /** Without trimming open records, and with alerts created untriggered, an alert has exactly one open record if
      it is triggered and none otherwise. */
  lemma {:induction false} OpenExactlyWhenTriggered(events: seq<Event>, id: string)
    requires OrderlyRun(events)
    ensures ExactlyOne(After(events))
    ensures OpenCount(After(events).history, id) == if Triggered(After(events).table, id) then 1 else 0
    decreases |events|
  {
    if events != [] {
      var before, e := events[..|events| - 1], events[|events| - 1];
      OpenExactlyWhenTriggered(before, id);
      if Possible(After(before), e) {
        hide ExactlyOne;
        ExactlyOneKeptIff(After(before), e);
      }
    }
  }

  // ---------------------------------------------------------------------------------------------
  // What the rows say, and which there are
  // ---------------------------------------------------------------------------------------------

  /** The row is one that was there before, open or not, or the event triggered its alert and it says what that was. */
  ghost predicate FromBefore(db: Db, e: Event, row: Entry) {
    || (exists old_ <- db.history :: row == old_.(open := row.open))
    || (&& e.Update? && e.id in db.table && !db.table[e.id].triggered && e.alert.triggered
        && row == Entry(e.id, e.alert.system, e.alert.name, e.alert.value, true))
  }

  lemma RowsComeFromBefore(db: Db, e: Event)
    ensures forall row <- Next(db, e).history :: FromBefore(db, e, row)
  {
    forall row | row in Next(db, e).history
      ensures FromBefore(db, e, row)
    {
      if row in db.history {
        assert row == row.(open := row.open);
      } else {
        ChangedRow(db, e, row);
      }
    }
  }

  lemma ChangedRow(db: Db, e: Event, row: Entry)
    requires row in Next(db, e).history && row !in db.history
    ensures FromBefore(db, e, row)
  {
    match e {
      case Update(id, a) =>
        ResolvedRow(db.history, id, row);
      case Delete(id) =>
        ResolvedRow(db.history, id, row);
      case DropSystem(system) =>
        WithoutSystemRows(db.history, system, row);
        MultisetHas(db.history, WithoutSystem(db.history, system), row);
      case _ =>
    }
  }

  lemma ResolvedRow(history: seq<Entry>, id: string, row: Entry)
    ensures row in Resolved(history, id) ==> exists old_ <- history :: row == old_.(open := row.open)
  {
    ResolvedCount(history, id, id);
    if i :| 0 <= i < |Resolved(history, id)| && Resolved(history, id)[i] == row {
      assert history[i] in history && row == history[i].(open := row.open);
    }
  }

  lemma MultisetHas(a: seq<Entry>, b: seq<Entry>, row: Entry)
    requires multiset(b)[row] <= multiset(a)[row]
    ensures row in b ==> row in a
  {
    assert row in b <==> row in multiset(b);
    assert row in a <==> row in multiset(a);
  }

  /** Every row of the history tells of an event that triggered its alert, with the system, name and value that the alert
      had then. */
  lemma {:induction false} RecordTellsTheAlert(events: seq<Event>, row: Entry) returns (n: nat)
    requires row in After(events).history
    ensures n < |events| && events[n].Update? && events[n].id == row.alertId
    ensures var table, a := After(events[..n]).table, events[n].alert;
            && row.alertId in table && !table[row.alertId].triggered && a.triggered
            && row == Entry(row.alertId, a.system, a.name, a.value, row.open)
    decreases |events|
  {
    hide Next;
    assert events != [] by { NoRecords(events); }
    var last := |events| - 1;
    var db := After(events[..last]);
    RowsComeFromBefore(db, events[last]);
    if old_ :| old_ in db.history && row == old_.(open := row.open) {
      n := RecordTellsTheAlert(events[..last], old_);
      assert events[..last][..n] == events[..n];
    } else {
      n := last;
    }
  }

  lemma NoRecords(events: seq<Event>)
    ensures events == [] ==> After(events).history == []
  {
  }

  lemma {:induction false} WithoutSystemRows(history: seq<Entry>, system: string, row: Entry)
    ensures multiset(WithoutSystem(history, system))[row] == if row.system == system then 0 else multiset(history)[row]
    decreases |history|
  {
    if history != [] {
      var init, last := history[..|history| - 1], history[|history| - 1];
      WithoutSystemRows(init, system, row);
      assert history == init + [last];
    }
  }

  /** Which rows an event leaves: trimming the newest 200 if there are more than 250, the deletion of a system those of the
      other systems, and every other event but the user's removal all of them, with one more if it triggers an alert. */
  lemma RowsLeft(db: Db, e: Event)
    requires Possible(db, e)
    ensures var before, after := db.history, Next(db, e).history;
            match e
            case Trim => after == if |before| > 250 then before[|before| - 200..] else before
            case DropSystem(system) => forall row :: multiset(after)[row] == if row.system == system then 0 else multiset(before)[row]
            case RemoveRow(i) => after == before[..i] + before[i + 1..]
            case Update(id, a) => |after| == |before| + if a.triggered && !db.table[id].triggered then 1 else 0
            case _ => |after| == |before|
  {
    match e {
      case Update(id, _) =>
        ResolvedCount(db.history, id, id);
      case Delete(id) =>
        ResolvedCount(db.history, id, id);
      case DropSystem(system) =>
        forall row
          ensures multiset(WithoutSystem(db.history, system))[row] == if row.system == system then 0 else multiset(db.history)[row]
        {
          WithoutSystemRows(db.history, system, row);
        }
      case _ =>
    }
  }
}

/** The hooks on the history table. */
module AlertsHistories {
  import opened Alerts
  import opened AlertsHistorySpec

  class AlertsHistory {
    var records: seq<Entry>

    constructor ()
      ensures records == []
    {
      records := [];
    }

    /** resolveAlertHistoryRecord. */
    method ResolveAlertHistoryRecord(alertId: string)
      modifies this
      ensures records == Resolved(old(records), alertId)
    {
      hide Resolved;
      var i := 0;
      assert records[..0] + Resolved(records[0..], alertId) == Resolved(records, alertId) by { assert records[0..] == records; }
      while i < |records| && !(records[i].open && records[i].alertId == alertId)
        invariant records == old(records) && i <= |records|
        invariant Resolved(records, alertId) == records[..i] + Resolved(records[i..], alertId)
      {
        ResolvedSkips(records, i, alertId);
        i := i + 1;
      }
      ResolvedHits(records, i, alertId);
      if i < |records| {
        assert Resolved(records, alertId) == records[i := records[i].(open := false)];
        records := records[i := records[i].(open := false)];
      }
    }

    lemma ResolvedSkips(records: seq<Entry>, i: nat, alertId: string)
      requires i < |records| && !(records[i].open && records[i].alertId == alertId)
      ensures records[..i] + Resolved(records[i..], alertId) == records[..i + 1] + Resolved(records[i + 1..], alertId)
    {
      assert records[i..][1..] == records[i + 1..];
      assert records[..i + 1] == records[..i] + [records[i]];
    }

    lemma ResolvedHits(records: seq<Entry>, i: nat, alertId: string)
      requires i < |records| ==> records[i].open && records[i].alertId == alertId
      requires i <= |records|
      ensures records[..i] + Resolved(records[i..], alertId) ==
              if i < |records| then records[i := records[i].(open := false)] else records
    {
      if i < |records| {
        assert records[i..][1..] == records[i + 1..];
      }
    }

    /** createAlertHistoryRecord. */
    method CreateAlertHistoryRecord(id: string, alert: Alert)
      modifies this
      ensures records == old(records) + [Opened(id, alert)]
    {
      records := records + [Entry(id, alert.system, alert.name, alert.value, true)];
    }

    method UpdateHistoryOnAlertUpdate(id: string, original: Alert, new_: Alert)
      modifies this
      ensures records == AfterUpdate(old(records), id, original, new_)
    {
      if original.triggered == new_.triggered {
        return;
      }
      if new_.triggered {
        CreateAlertHistoryRecord(id, new_);
        return;
      }
      ResolveAlertHistoryRecord(id);
    }

    method ResolveHistoryOnAlertDelete(id: string, alert: Alert)
      modifies this
      ensures records == AfterDelete(old(records), id, alert)
    {
      if !alert.triggered {
        return;
      }
      ResolveAlertHistoryRecord(id);
    }

    /** deleteOldAlertsHistory. */
    method DeleteOldAlertsHistory()
      modifies this
      ensures records == Trimmed(old(records))
    {
      if |records| <= LIMIT {
        return;
      }
      records := records[|records| - KEEP..];
    }
  }
}
