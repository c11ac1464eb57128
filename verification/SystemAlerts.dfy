/** Alerts on CPU, memory and load: internal/alerts/alerts_system.go lines 16-263. Times are in milliseconds. */
module SystemAlertsSpec {
  import opened Common

  datatype Name = CPU | Memory | LoadAvg1 | LoadAvg5 | LoadAvg15

  type Byte = x: int | 0 <= x < 256

  /** One alert as the cache has it. */
  datatype Alert = Alert(id: string, name: Name, threshold: real, triggered: bool, min: Byte)

  /** The numbers of one record, or of the latest data. */
  datatype Numbers = Numbers(cpu: real, mem: real, load1: real, load5: real, load15: real)
  {
    function Of(name: Name): real {
      match name
      case CPU => cpu
      case Memory => mem
      case LoadAvg1 => load1
      case LoadAvg5 => load5
      case LoadAvg15 => load15
    }
  }

  /** A 1m record of the system. */
  datatype Record = Record(created: int, numbers: Numbers)

  /** A call of sendSystemAlert: the new state of the alert and the value shown. */
  datatype Sent = Sent(id: string, triggered: bool, val: real)

  const MINUTE: int := 60_000
  const QUERY_BUFFER: int := 90_000
  const RECORD_BUFFER: int := 10_000

  /** The current value is on the side that could flip the alert. */
  predicate Crosses(a: Alert, current: Numbers) {
    if a.triggered then current.Of(a.name) <= a.threshold else current.Of(a.name) > a.threshold
  }

  function Minutes(a: Alert): nat {
    if a.min == 0 then 1 else a.min
  }

  /** Alerts of one minute are sent at once. */
  predicate IsImmediate(a: Alert, current: Numbers) {
    Crosses(a, current) && Minutes(a) == 1
  }

  predicate IsWindowed(a: Alert, current: Numbers) {
    Crosses(a, current) && Minutes(a) != 1
  }

  function Immediate(alerts: seq<Alert>, current: Numbers): seq<Sent> {
    if alerts == [] then []
    else
      var a := alerts[|alerts| - 1];
      Immediate(alerts[..|alerts| - 1], current) +
      if IsImmediate(a, current) then [Sent(a.id, current.Of(a.name) > a.threshold, current.Of(a.name))] else []
  }

  function Windowed(alerts: seq<Alert>, current: Numbers): seq<Alert> {
    if alerts == [] then []
    else
      var a := alerts[|alerts| - 1];
      Windowed(alerts[..|alerts| - 1], current) + if IsWindowed(a, current) then [a] else []
  }

  /** The start of an alert's window. */
  function Start(a: Alert, now: int): int {
    now - Minutes(a) * MINUTE
  }

  /** The earliest start. */
  function Oldest(alerts: seq<Alert>, now: int): int {
    if alerts == [] then now
    else
      var before, t := Oldest(alerts[..|alerts| - 1], now), Start(alerts[|alerts| - 1], now);
      if t < before then t else before
  }

  predicate Ordered(records: seq<Record>) {
    forall i, j | 0 <= i < j < |records| :: records[i].created <= records[j].created
  }

  /** The query: records since a time, in order. */
  function Since(records: seq<Record>, t: int): seq<Record> {
    if records == [] then []
    else Since(records[..|records| - 1], t) + if records[|records| - 1].created > t then [records[|records| - 1]] else []
  }

  /** A record belongs to the window that starts at `t`. */
  predicate InWindow(r: Record, t: int) {
    r.created - RECORD_BUFFER >= t
  }

  /** Number and sum of the records in a window. */
  function Count(records: seq<Record>, t: int): nat {
    if records == [] then 0 else Count(records[..|records| - 1], t) + if InWindow(records[|records| - 1], t) then 1 else 0
  }

  function Sum(records: seq<Record>, name: Name, t: int): real {
    if records == [] then 0.0
    else Sum(records[..|records| - 1], name, t) + if InWindow(records[|records| - 1], t) then records[|records| - 1].numbers.Of(name) else 0.0
  }

  /** An alert keeps its place only if some record that the query found is older than its window. */
  predicate IsKept(records: seq<Record>, t: int, oldest: int) {
    exists r | r in records :: oldest - QUERY_BUFFER < r.created < t
  }

  /** What becomes of one windowed alert: judged on its own window over all records, with an 8-bit count. */
  function Verdict(a: Alert, now: int, oldest: int, records: seq<Record>): Option<Sent> {
    var t := Start(a, now);
    var count := Count(records, t) % 256;
    if !IsKept(records, t, oldest) || 6 * count < 5 * Minutes(a) then None
    else Flip(a, Sum(records, a.name, t), count)
  }

  function Flip(a: Alert, sum: real, count: nat): Option<Sent> {
    if count == 0 then None
    else
      var mean := sum / count as real;
      if !a.triggered && mean > a.threshold then Some(Sent(a.id, true, mean))
      else if a.triggered && mean <= a.threshold then Some(Sent(a.id, false, mean))
      else None
  }

  function Verdicts(alerts: seq<Alert>, now: int, oldest: int, records: seq<Record>): seq<Sent> {
    if alerts == [] then []
    else
      var v := Verdict(alerts[|alerts| - 1], now, oldest, records);
      Verdicts(alerts[..|alerts| - 1], now, oldest, records) + if v.Some? then [v.value] else []
  }

  /** All that HandleSystemAlerts sends. */
  function AllSent(alerts: seq<Alert>, current: Numbers, now: int, records: seq<Record>): seq<Sent> {
    var windowed := Windowed(alerts, current);
    Immediate(alerts, current) + Verdicts(windowed, now, Oldest(windowed, now), records)
  }

  // ---------------------------------------------------------------------------------------------
  // What a flip means
  // ---------------------------------------------------------------------------------------------

  /** The alert is windowed and is sent `on`. */
  predicate Flips(a: Alert, current: Numbers, now: int, oldest: int, records: seq<Record>, on: bool) {
    IsWindowed(a, current) && Verdict(a, now, oldest, records).Some? && Verdict(a, now, oldest, records).value.triggered == on
  }

  /** With at most 255 records in the window, an alert turns on exactly if the current value and the mean over its
      own window both exceed the threshold and the window has records for five sixths of its minutes; it
      turns off exactly if both are at most the threshold, under the same condition. */
  lemma FlipsIff(a: Alert, current: Numbers, now: int, oldest: int, records: seq<Record>)
    requires Minutes(a) > 1 && Count(records, Start(a, now)) <= 255
    ensures var n, sum := Count(records, Start(a, now)), Sum(records, a.name, Start(a, now));
            && (Flips(a, current, now, oldest, records, true) <==>
                  !a.triggered && IsKept(records, Start(a, now), oldest) && 6 * n >= 5 * Minutes(a) &&
                  current.Of(a.name) > a.threshold && sum > a.threshold * n as real)
            && (Flips(a, current, now, oldest, records, false) <==>
                  a.triggered && IsKept(records, Start(a, now), oldest) && 6 * n >= 5 * Minutes(a) &&
                  current.Of(a.name) <= a.threshold && sum <= a.threshold * n as real)
  {
    hide Count, Sum, IsKept;
    var n := Count(records, Start(a, now));
    if 6 * n >= 5 * Minutes(a) {
      MeanAbove(Sum(records, a.name, Start(a, now)), n, a.threshold);
    }
  }

  lemma MeanAbove(sum: real, n: nat, threshold: real)
    requires n > 0
    ensures sum / n as real > threshold <==> sum > threshold * n as real
  {
    var mean := sum / n as real;
    assert mean * n as real == sum;
    Compare(mean, threshold, n);
  }

  lemma Compare(x: real, y: real, n: nat)
    requires n > 0
    ensures x > y <==> x * n as real > y * n as real
  {
    if x > y {
      assert x * n as real > y * n as real;
    } else {
      assert x * n as real <= y * n as real;
    }
  }

  // ---------------------------------------------------------------------------------------------
  // The query does not matter to the windows
  // ---------------------------------------------------------------------------------------------

  /** The records that the query leaves out are in no window, so each alert is judged on its own window whatever
      the other alerts are. */
  lemma {:induction false} QueryKeepsWindows(records: seq<Record>, name: Name, t: int, from: int)
    requires from < t + RECORD_BUFFER
    ensures Count(Since(records, from), t) == Count(records, t) && Sum(Since(records, from), name, t) == Sum(records, name, t)
    decreases |records|
  {
    if records != [] {
      var init, r := records[..|records| - 1], records[|records| - 1];
      QueryKeepsWindows(init, name, t, from);
      var found := Since(records, from);
      if r.created > from {
        assert found[..|found| - 1] == Since(init, from);
      } else {
        assert found == Since(init, from);
      }
    }
  }

  lemma {:induction false} SinceIsOrdered(records: seq<Record>, from: int)
    requires Ordered(records)
    ensures Ordered(Since(records, from))
    ensures forall r :: r in Since(records, from) <==> r in records && r.created > from
    decreases |records|
  {
    if records != [] {
      var init, r := records[..|records| - 1], records[|records| - 1];
      SinceIsOrdered(init, from);
      assert records == init + [r];
      forall i | 0 <= i < |Since(init, from)|
        ensures Since(init, from)[i].created <= r.created
      {
        assert Since(init, from)[i] in init;
        var k :| 0 <= k < |init| && init[k] == Since(init, from)[i];
        assert records[k] == init[k];
      }
    }
  }

  /** The first record found is older than the window, if any is. */
  lemma KeptByFirst(records: seq<Record>, t: int, oldest: int)
    requires Ordered(records) && Since(records, oldest - QUERY_BUFFER) != []
    ensures IsKept(records, t, oldest) <==> Since(records, oldest - QUERY_BUFFER)[0].created < t
  {
    var found := Since(records, oldest - QUERY_BUFFER);
    SinceIsOrdered(records, oldest - QUERY_BUFFER);
    assert found[0] in found;
    if IsKept(records, t, oldest) {
      var r :| r in records && oldest - QUERY_BUFFER < r.created < t;
      assert r in found;
      var k :| 0 <= k < |found| && found[k] == r;
      assert found[0].created <= found[k].created;
    }
  }

  lemma {:induction false} OldestIsLeast(alerts: seq<Alert>, now: int, i: nat)
    requires i < |alerts|
    ensures Oldest(alerts, now) <= Start(alerts[i], now)
    decreases |alerts|
  {
    if i < |alerts| - 1 {
      OldestIsLeast(alerts[..|alerts| - 1], now, i);
    }
  }

  lemma {:induction false} OldestOfMore(alerts: seq<Alert>, more: seq<Alert>, now: int)
    ensures Oldest(alerts + more, now) <= Oldest(alerts, now)
    decreases |more|
  {
    if more == [] {
      assert alerts + more == alerts;
    } else {
      assert (alerts + more)[..|alerts + more| - 1] == alerts + more[..|more| - 1];
      OldestOfMore(alerts, more[..|more| - 1], now);
    }
  }

  /** Other alerts share the query, and can matter in one way only: they may let an alert be judged that would have
      been left out alone. What is sent for it without them is sent for it with them. */
  lemma OthersOnlyAdmit(a: Alert, alerts: seq<Alert>, more: seq<Alert>, now: int, records: seq<Record>)
    ensures var alone, together := Verdict(a, now, Oldest(alerts, now), records), Verdict(a, now, Oldest(alerts + more, now), records);
            && (alone.Some? ==> together == alone)
            && (alone != together ==> alone.None? && !IsKept(records, Start(a, now), Oldest(alerts, now)))
  {
    OldestOfMore(alerts, more, now);
    var t := Start(a, now);
    if IsKept(records, t, Oldest(alerts, now)) {
      var r :| r in records && Oldest(alerts, now) - QUERY_BUFFER < r.created < t;
      assert IsKept(records, t, Oldest(alerts + more, now));
    }
  }

  /** The alert would be sent if it were kept. */
  predicate WouldSend(a: Alert, now: int, records: seq<Record>) {
    var count := Count(records, Start(a, now)) % 256;
    6 * count >= 5 * Minutes(a) && Flip(a, Sum(records, a.name, Start(a, now)), count).Some?
  }

  lemma SentIff(a: Alert, now: int, oldest: int, records: seq<Record>)
    ensures Verdict(a, now, oldest, records).Some? <==> IsKept(records, Start(a, now), oldest) && WouldSend(a, now, records)
  {
  }

  /** Exactly when given other alerts make no difference: when the alert is kept without them, or not even with them, or
      would not be sent if it were kept. */
  lemma CompanyMattersIff(a: Alert, alerts: seq<Alert>, more: seq<Alert>, now: int, records: seq<Record>)
    ensures var alone, together := Oldest(alerts, now), Oldest(alerts + more, now);
            Verdict(a, now, together, records) == Verdict(a, now, alone, records) <==>
              IsKept(records, Start(a, now), alone) || !IsKept(records, Start(a, now), together) || !WouldSend(a, now, records)
  {
    hide Verdict, WouldSend, IsKept;
    OthersOnlyAdmit(a, alerts, more, now, records);
    SentIff(a, now, Oldest(alerts, now), records);
    SentIff(a, now, Oldest(alerts + more, now), records);
    VerdictIfKept(a, now, Oldest(alerts, now), Oldest(alerts + more, now), records);
  }

  lemma VerdictIfKept(a: Alert, now: int, oldest: int, other: int, records: seq<Record>)
    ensures (IsKept(records, Start(a, now), oldest) <==> IsKept(records, Start(a, now), other)) ==>
              Verdict(a, now, oldest, records) == Verdict(a, now, other, records)
  {
  }

  /** How far back the window of any alert can start. */
  function Reach(now: int): int {
    now - 255 * MINUTE
  }

  lemma {:induction false} OldestIsInReach(alerts: seq<Alert>, now: int)
    ensures Oldest(alerts, now) >= Reach(now)
    decreases |alerts|
  {
    if alerts != [] {
      OldestIsInReach(alerts[..|alerts| - 1], now);
    }
  }

  /** Exactly when no other alerts whatever can make a difference: when the alert is kept alone, or no record before its
      window is in reach of any alert, or it would not be sent if it were kept. */
  lemma IndependentIff(a: Alert, now: int, records: seq<Record>)
    ensures (forall more: seq<Alert> ::
               Verdict(a, now, Oldest([a] + more, now), records) == Verdict(a, now, Oldest([a], now), records))
       <==> IsKept(records, Start(a, now), Oldest([a], now)) || !IsKept(records, Start(a, now), Reach(now)) || !WouldSend(a, now, records)
  {
    hide Verdict, WouldSend, Oldest;
    var t := Start(a, now);
    forall more: seq<Alert>
      ensures IsKept(records, t, Oldest([a] + more, now)) ==> IsKept(records, t, Reach(now))
      ensures Verdict(a, now, Oldest([a] + more, now), records) == Verdict(a, now, Oldest([a], now), records) <==>
                IsKept(records, t, Oldest([a], now)) || !IsKept(records, t, Oldest([a] + more, now)) || !WouldSend(a, now, records)
    {
      CompanyMattersIff(a, [a], more, now, records);
      OldestIsInReach([a] + more, now);
    }
    var far := Alert("", CPU, 0.0, false, 255);
    FarCompany(a, far, now);
    assert Oldest([a] + [far], now) == Reach(now);
  }

  lemma FarCompany(a: Alert, far: Alert, now: int)
    requires far.min == 255
    ensures Oldest([a] + [far], now) == Reach(now)
  {
    OldestIsInReach([a], now);
    assert [a] + [far] == [a, far] && [a, far][..1] == [a];
  }

  /** Two minutes of high load after a gap in the records: the alert on it fires only if there is another alert with a
      longer window. */
  lemma CompanyCanMatter()
    ensures var high := Numbers(90.0, 0.0, 0.0, 0.0, 0.0);
            var records := [Record(-300_000, high), Record(-60_000, high), Record(-10_000, high)];
            var a, other := Alert("a", CPU, 80.0, false, 2), Alert("b", Memory, 80.0, false, 10);
            && Ordered(records) && IsWindowed(a, high)
            && Verdict(a, 0, Oldest([a], 0), records).None?
            && Verdict(a, 0, Oldest([a, other], 0), records) == Some(Sent("a", true, 90.0))
  {
    var high := Numbers(90.0, 0.0, 0.0, 0.0, 0.0);
    var records := [Record(-300_000, high), Record(-60_000, high), Record(-10_000, high)];
    var a, other := Alert("a", CPU, 80.0, false, 2), Alert("b", Memory, 80.0, false, 10);
    var t := Start(a, 0);
    assert [a][..0] == [] && [a, other][..1] == [a];
    assert Oldest([], 0) == 0;
    assert Oldest([a], 0) == t == -120_000 && Oldest([a, other], 0) == -600_000;
    assert records[0] in records;
    assert IsKept(records, t, -600_000);
    OneMore([], records[0], CPU, t);
    OneMore([records[0]], records[1], CPU, t);
    OneMore([records[0], records[1]], records[2], CPU, t);
    assert [] + [records[0]] == [records[0]];
    assert [records[0]] + [records[1]] == [records[0], records[1]];
    assert [records[0], records[1]] + [records[2]] == records;
  }

  lemma OneMore(records: seq<Record>, r: Record, name: Name, t: int)
    ensures Count(records + [r], t) == Count(records, t) + if InWindow(r, t) then 1 else 0
    ensures Sum(records + [r], name, t) == Sum(records, name, t) + if InWindow(r, t) then r.numbers.Of(name) else 0.0
  {
    assert (records + [r])[..|records|] == records;
  }

  // ---------------------------------------------------------------------------------------------
  // What is sent for each alert
  // ---------------------------------------------------------------------------------------------

  /** What is sent for one alert. */
  function For(sent: seq<Sent>, id: string): seq<Sent> {
    if sent == [] then []
    else For(sent[..|sent| - 1], id) + if sent[|sent| - 1].id == id then [sent[|sent| - 1]] else []
  }

  predicate Distinct(alerts: seq<Alert>) {
    forall i, j | 0 <= i < j < |alerts| :: alerts[i].id != alerts[j].id
  }

  /** The value is not where the state of the alert says that it is. */
  predicate Contradicts(a: Alert, val: real) {
    if a.triggered then val <= a.threshold else val > a.threshold
  }

  /** An alert of at most one minute is sent exactly if the current value contradicts its state, once, with the opposite
      state and that value; nothing that the other alerts or the records hold matters. */
  lemma MinuteAlertIsSent(alerts: seq<Alert>, current: Numbers, now: int, records: seq<Record>, i: nat)
    requires Distinct(alerts) && i < |alerts| && alerts[i].min <= 1
    ensures var a := alerts[i];
            var val := match a.name
                       case CPU => current.cpu
                       case Memory => current.mem
                       case LoadAvg1 => current.load1
                       case LoadAvg5 => current.load5
                       case LoadAvg15 => current.load15;
            For(AllSent(alerts, current, now, records), a.id) == if Contradicts(a, val) then [Sent(a.id, !a.triggered, val)] else []
  {
    hide Immediate, Windowed, Verdicts, For;
    var a, oldest := alerts[i], Oldest(Windowed(alerts, current), now);
    ForConcat(Immediate(alerts, current), Verdicts(Windowed(alerts, current), now, oldest, records), a.id);
    ImmediateFor(alerts, current, i);
    VerdictsFor(alerts, current, now, oldest, records, i);
  }

  /** The records created from a time on. */
  function From(records: seq<Record>, time: int): seq<Record> {
    if records == [] then []
    else From(records[..|records| - 1], time) + if records[|records| - 1].created >= time then [records[|records| - 1]] else []
  }

  function Total(records: seq<Record>, name: Name): real {
    if records == [] then 0.0 else Total(records[..|records| - 1], name) + records[|records| - 1].numbers.Of(name)
  }

  /** The query reaches back to a record before the alert's window: up to 90 seconds before the window of any alert that is
      to be judged. */
  predicate HasEarlier(a: Alert, alerts: seq<Alert>, current: Numbers, now: int, records: seq<Record>) {
    exists b, r | b in alerts && r in records ::
      b.min > 1 && Contradicts(b, current.Of(b.name)) && now - 60_000 * b.min - 90_000 < r.created < now - 60_000 * a.min
  }

  /** An alert of more minutes is sent exactly if the current value contradicts its state, the records reach back before its
      window, there are five records in it for six minutes, counted in 8 bits, and their mean, the sum by that count,
      contradicts its state too; it is sent once, with the opposite state and the mean. The window starts ten seconds late. */
  lemma WindowedAlertIsSent(alerts: seq<Alert>, current: Numbers, now: int, records: seq<Record>, i: nat)
    requires Distinct(alerts) && i < |alerts| && alerts[i].min > 1
    ensures var a := alerts[i];
            var window := From(records, now - 60_000 * a.min + 10_000);
            var n := |window| % 256;
            For(AllSent(alerts, current, now, records), a.id) ==
            if && Contradicts(a, current.Of(a.name)) && HasEarlier(a, alerts, current, now, records) && 6 * n >= 5 * a.min
               && Contradicts(a, Total(window, a.name) / n as real)
            then [Sent(a.id, !a.triggered, Total(window, a.name) / n as real)] else []
  {
    hide Immediate, Windowed, Verdicts, For, Verdict, HasEarlier, IsKept, From, Total;
    var a, oldest := alerts[i], Oldest(Windowed(alerts, current), now);
    ForConcat(Immediate(alerts, current), Verdicts(Windowed(alerts, current), now, oldest, records), a.id);
    ImmediateFor(alerts, current, i);
    VerdictsFor(alerts, current, now, oldest, records, i);
    VerdictIs(a, now, oldest, records);
    if IsWindowed(a, current) {
      KeptIff(alerts, current, now, records, i);
    }
  }

  /** Nothing is sent for anything else. */
  lemma OnlyAlertsAreSent(alerts: seq<Alert>, current: Numbers, now: int, records: seq<Record>, id: string)
    requires forall i | 0 <= i < |alerts| :: alerts[i].id != id
    ensures For(AllSent(alerts, current, now, records), id) == []
  {
    hide Immediate, Windowed, Verdicts, For;
    var oldest := Oldest(Windowed(alerts, current), now);
    ForConcat(Immediate(alerts, current), Verdicts(Windowed(alerts, current), now, oldest, records), id);
    NothingFor(alerts, current, now, oldest, records, id);
  }

  lemma {:induction false} ForConcat(a: seq<Sent>, b: seq<Sent>, id: string)
    ensures For(a + b, id) == For(a, id) + For(b, id)
    decreases |b|
  {
    if b == [] {
      assert a + b == a;
    } else {
      assert (a + b)[..|a + b| - 1] == a + b[..|b| - 1];
      ForConcat(a, b[..|b| - 1], id);
    }
  }

  lemma ForOne(s: Sent, id: string)
    ensures For([s], id) == if s.id == id then [s] else []
    ensures For([], id) == []
  {
    assert [s][..0] == [];
  }

  lemma {:induction false} NothingFor(alerts: seq<Alert>, current: Numbers, now: int, oldest: int, records: seq<Record>, id: string)
    requires forall i | 0 <= i < |alerts| :: alerts[i].id != id
    ensures For(Immediate(alerts, current), id) == [] && For(Verdicts(Windowed(alerts, current), now, oldest, records), id) == []
    decreases |alerts|
  {
    hide For, Verdict;
    if alerts == [] {
      ForOne(Sent("", false, 0.0), id);
    } else {
      NothingFor(alerts[..|alerts| - 1], current, now, oldest, records, id);
      LastImmediate(alerts, current, id);
      LastVerdict(alerts, current, now, oldest, records, id);
    }
  }

  lemma LastImmediate(alerts: seq<Alert>, current: Numbers, id: string)
    requires alerts != []
    ensures var a := alerts[|alerts| - 1];
            For(Immediate(alerts, current), id) == For(Immediate(alerts[..|alerts| - 1], current), id) +
              if a.id == id && IsImmediate(a, current) then [Sent(a.id, !a.triggered, current.Of(a.name))] else []
  {
    hide For;
    var init, a := Immediate(alerts[..|alerts| - 1], current), alerts[|alerts| - 1];
    var s := Sent(a.id, !a.triggered, current.Of(a.name));
    ForOne(s, id);
    ForConcat(init, [s], id);
    if !IsImmediate(a, current) {
      assert Immediate(alerts, current) == init;
    }
  }

  lemma LastVerdict(alerts: seq<Alert>, current: Numbers, now: int, oldest: int, records: seq<Record>, id: string)
    requires alerts != []
    ensures var a := alerts[|alerts| - 1];
            For(Verdicts(Windowed(alerts, current), now, oldest, records), id) ==
            For(Verdicts(Windowed(alerts[..|alerts| - 1], current), now, oldest, records), id) +
              if a.id == id && IsWindowed(a, current) && Verdict(a, now, oldest, records).Some?
              then [Verdict(a, now, oldest, records).value] else []
  {
    hide For, Verdict;
    var init, a := Windowed(alerts[..|alerts| - 1], current), alerts[|alerts| - 1];
    VerdictNames(a, now, oldest, records);
    if IsWindowed(a, current) {
      assert Windowed(alerts, current) == init + [a];
      assert (init + [a])[..|init|] == init;
      var v := Verdict(a, now, oldest, records);
      if v.Some? {
        ForOne(v.value, id);
        ForConcat(Verdicts(init, now, oldest, records), [v.value], id);
      } else {
        assert Verdicts(init + [a], now, oldest, records) == Verdicts(init, now, oldest, records);
      }
    } else {
      assert Windowed(alerts, current) == init;
    }
  }

  lemma VerdictNames(a: Alert, now: int, oldest: int, records: seq<Record>)
    ensures Verdict(a, now, oldest, records).Some? ==> Verdict(a, now, oldest, records).value.id == a.id
  {
  }

  lemma {:induction false} ImmediateFor(alerts: seq<Alert>, current: Numbers, i: nat)
    requires Distinct(alerts) && i < |alerts|
    ensures var a := alerts[i];
            For(Immediate(alerts, current), a.id) ==
            if IsImmediate(a, current) then [Sent(a.id, !a.triggered, current.Of(a.name))] else []
    decreases |alerts|
  {
    hide For, IsImmediate;
    LastImmediate(alerts, current, alerts[i].id);
    if i == |alerts| - 1 {
      NothingFor(alerts[..i], current, 0, 0, [], alerts[i].id);
    } else {
      ImmediateFor(alerts[..|alerts| - 1], current, i);
    }
  }

  lemma {:induction false} VerdictsFor(alerts: seq<Alert>, current: Numbers, now: int, oldest: int, records: seq<Record>, i: nat)
    requires Distinct(alerts) && i < |alerts|
    ensures var a := alerts[i];
            For(Verdicts(Windowed(alerts, current), now, oldest, records), a.id) ==
            if IsWindowed(a, current) && Verdict(a, now, oldest, records).Some? then [Verdict(a, now, oldest, records).value] else []
    decreases |alerts|
  {
    hide For, IsWindowed, Verdict;
    LastVerdict(alerts, current, now, oldest, records, alerts[i].id);
    if i == |alerts| - 1 {
      NothingFor(alerts[..i], current, now, oldest, records, alerts[i].id);
    } else {
      VerdictsFor(alerts[..|alerts| - 1], current, now, oldest, records, i);
    }
  }

  lemma {:induction false} WindowIs(records: seq<Record>, name: Name, t: int)
    ensures Count(records, t) == |From(records, t + 10_000)| && Sum(records, name, t) == Total(From(records, t + 10_000), name)
    decreases |records|
  {
    if records != [] {
      var init, r := records[..|records| - 1], records[|records| - 1];
      WindowIs(init, name, t);
      var found := From(records, t + 10_000);
      if r.created >= t + 10_000 {
        assert found[..|found| - 1] == From(init, t + 10_000);
      } else {
        assert found == From(init, t + 10_000);
      }
    }
  }

  lemma VerdictIs(a: Alert, now: int, oldest: int, records: seq<Record>)
    requires a.min > 1
    ensures var window := From(records, now - 60_000 * a.min + 10_000);
            var n := |window| % 256;
            Verdict(a, now, oldest, records) ==
            if && IsKept(records, now - 60_000 * a.min, oldest) && 6 * n >= 5 * a.min
               && Contradicts(a, Total(window, a.name) / n as real)
            then Some(Sent(a.id, !a.triggered, Total(window, a.name) / n as real)) else None
  {
    hide IsKept, Count, Sum, From, Total;
    WindowIs(records, a.name, now - 60_000 * a.min);
  }

  lemma {:induction false} OldestIsSome(alerts: seq<Alert>, now: int)
    ensures Oldest(alerts, now) == now || exists a | a in alerts :: Oldest(alerts, now) == Start(a, now)
    ensures forall a | a in alerts :: Oldest(alerts, now) <= Start(a, now)
    decreases |alerts|
  {
    if alerts != [] {
      OldestIsSome(alerts[..|alerts| - 1], now);
      assert alerts[|alerts| - 1] in alerts;
    }
  }

  lemma {:induction false} WindowedAre(alerts: seq<Alert>, current: Numbers, a: Alert)
    ensures a in Windowed(alerts, current) <==> a in alerts && a.min > 1 && Contradicts(a, current.Of(a.name))
    decreases |alerts|
  {
    if alerts != [] {
      WindowedAre(alerts[..|alerts| - 1], current, a);
      assert alerts == alerts[..|alerts| - 1] + [alerts[|alerts| - 1]];
    }
  }

  lemma KeptIff(alerts: seq<Alert>, current: Numbers, now: int, records: seq<Record>, i: nat)
    requires i < |alerts| && IsWindowed(alerts[i], current)
    ensures IsKept(records, now - 60_000 * alerts[i].min, Oldest(Windowed(alerts, current), now)) <==>
            HasEarlier(alerts[i], alerts, current, now, records)
  {
    hide Windowed, Oldest;
    var a, windowed := alerts[i], Windowed(alerts, current);
    var oldest := Oldest(windowed, now);
    OldestIsSome(windowed, now);
    forall b
      ensures b in windowed <==> b in alerts && b.min > 1 && Contradicts(b, current.Of(b.name))
    {
      WindowedAre(alerts, current, b);
    }
    assert a in windowed;
    if IsKept(records, now - 60_000 * a.min, oldest) {
      var r :| r in records && oldest - QUERY_BUFFER < r.created < now - 60_000 * a.min;
      var b :| b in windowed && oldest == Start(b, now);
      assert b in alerts && r in records;
    }
    if HasEarlier(a, alerts, current, now, records) {
      var b, r :| b in alerts && r in records && b.min > 1 && Contradicts(b, current.Of(b.name))
                  && now - 60_000 * b.min - 90_000 < r.created < now - 60_000 * a.min;
      assert b in windowed;
      assert oldest - QUERY_BUFFER < r.created;
    }
  }
}

/** The method itself, with the nested loop over records and alerts. */
module SystemAlerts {
  import opened Common
  import opened SystemAlertsSpec

  /** SystemAlertData: the fields that change while the windows are summed up. */
  datatype Data = Data(alert: Alert, time: int, val: real, count: nat)

  method HandleSystemAlerts(alerts: seq<Alert>, current: Numbers, now: int, records: seq<Record>) returns (sent: seq<Sent>)
    requires Ordered(records)
    ensures sent == AllSent(alerts, current, now, records)
  {
    var pending, oldestTime;
    sent, pending, oldestTime := Select(alerts, current, now);
    var systemStats := Since(records, oldestTime - QUERY_BUFFER);
    if |systemStats| == 0 {
      NoneKept(pending, now, oldestTime, records);
      return;
    }
    var validAlerts := Filter(pending, systemStats[0].created, now);
    WindowedMinutes(alerts, current);
    KeptIsPending(pending, systemStats[0].created, now);
    var data := new Data[|validAlerts|](i requires 0 <= i < |validAlerts| => Fresh(validAlerts[i], current, now));
    Accumulate(data, systemStats);
    assert data[..] == Summeds(validAlerts, systemStats, current, now);
    forall j | 0 <= j < data.Length
      ensures Minutes(data[j].alert) > 1
    {
      SummedAlert(Fresh(validAlerts[j], current, now), systemStats);
      assert validAlerts[j] in validAlerts;
    }
    var flips := Judge(data);
    JudgedIsVerdicts(pending, |pending|, now, oldestTime, records, current);
    assert pending[..|pending|] == pending;
    sent := sent + flips;
  }

  function Fresh(a: Alert, current: Numbers, now: int): Data {
    Data(a, Start(a, now), current.Of(a.name), 0)
  }

  function Summeds(kept: seq<Alert>, records: seq<Record>, current: Numbers, now: int): seq<Data> {
    seq(|kept|, i requires 0 <= i < |kept| => Summed(Fresh(kept[i], current, now), records))
  }

  /** Lines 26-109: what is sent at once, and the alerts whose windows have to be summed up. */
  method Select(alerts: seq<Alert>, current: Numbers, now: int) returns (sent: seq<Sent>, pending: seq<Alert>, oldestTime: int)
    ensures sent == Immediate(alerts, current) && pending == Windowed(alerts, current) && oldestTime == Oldest(pending, now)
  {
    sent, pending, oldestTime := [], [], now;
    for i := 0 to |alerts|
      invariant sent == Immediate(alerts[..i], current) && pending == Windowed(alerts[..i], current)
      invariant oldestTime == Oldest(pending, now)
    {
      assert alerts[..i + 1][..i] == alerts[..i];
      var a := alerts[i];
      var val := current.Of(a.name);
      if (!a.triggered && val <= a.threshold) || (a.triggered && val > a.threshold) {
        continue;
      }
      var min := if a.min > 1 then a.min else 1;
      if min == 1 {
        sent := sent + [Sent(a.id, val > a.threshold, val)];
        continue;
      }
      var time := now - min * MINUTE;
      if time < oldestTime {
        oldestTime := time;
      }
      assert (pending + [a])[..|pending|] == pending;
      pending := pending + [a];
    }
    assert alerts[..|alerts|] == alerts;
  }

  /** Lines 137-142. */
  method Filter(pending: seq<Alert>, oldestRecordTime: int, now: int) returns (kept: seq<Alert>)
    ensures kept == KeptOf(pending, oldestRecordTime, now)
  {
    kept := [];
    for i := 0 to |pending|
      invariant kept == KeptOf(pending[..i], oldestRecordTime, now)
    {
      assert pending[..i + 1][..i] == pending[..i];
      if Start(pending[i], now) > oldestRecordTime {
        kept := kept + [pending[i]];
      }
    }
    assert pending[..|pending|] == pending;
  }

  function KeptOf(pending: seq<Alert>, oldestRecordTime: int, now: int): seq<Alert> {
    if pending == [] then []
    else KeptOf(pending[..|pending| - 1], oldestRecordTime, now) +
         if Start(pending[|pending| - 1], now) > oldestRecordTime then [pending[|pending| - 1]] else []
  }

  /** An alert's data after the first records: the reset comes with the first one. */
  function Summed(d: Data, records: seq<Record>): Data {
    if records == [] then d
    else d.(val := Sum(records, d.alert.name, d.time), count := Count(records, d.time) % 256)
  }

  /** The 8-bit counter of an alert holds the number of records in its window. */
  predicate CountsRight(d: Data, records: seq<Record>) {
    d.count == Count(records, d.time)
  }

  /** Lines 152-221: the nested loop. Every alert ends with the sum of its own window, and with its
      count exactly if that is at most 255. */
  method Accumulate(data: array<Data>, systemStats: seq<Record>)
    requires forall j | 0 <= j < data.Length :: data[j].count == 0
    modifies data
    ensures forall j | 0 <= j < data.Length :: data[j] == Summed(old(data[j]), systemStats)
    ensures forall j | 0 <= j < data.Length :: CountsRight(data[j], systemStats) <==> Count(systemStats, data[j].time) <= 255
  {
    for i := 0 to |systemStats|
      invariant forall j | 0 <= j < data.Length :: data[j] == Summed(old(data[j]), systemStats[..i])
    {
      for j := 0 to data.Length
        invariant forall k | 0 <= k < data.Length :: data[k] == Summed(old(data[k]), systemStats[..if k < j then i + 1 else i])
      {
        assert data[j] == Summed(old(data[j]), systemStats[..i]);
        OneMoreRecord(old(data[j]), systemStats, i);
        if i == 0 {
          data[j] := data[j].(val := 0.0);
        }
        if systemStats[i].created - RECORD_BUFFER < data[j].time {
          continue;
        }
        data[j] := data[j].(val := data[j].val + systemStats[i].numbers.Of(data[j].alert.name), count := (data[j].count + 1) % 256);
      }
    }
    assert systemStats[..|systemStats|] == systemStats;
  }

  lemma OneMoreRecord(d: Data, records: seq<Record>, i: nat)
    requires i < |records| && d.count == 0
    ensures var before := Summed(d, records[..i]);
            var reset := if i == 0 then before.(val := 0.0) else before;
            Summed(d, records[..i + 1]) ==
            if InWindow(records[i], d.time) then
              reset.(val := reset.val + records[i].numbers.Of(d.alert.name), count := (reset.count + 1) % 256)
            else reset
  {
    var before, after := records[..i], records[..i + 1];
    assert after[..|after| - 1] == before && after[|after| - 1] == records[i];
    CountWraps(Count(before, d.time));
    assert Count(after, d.time) == Count(before, d.time) + if InWindow(records[i], d.time) then 1 else 0;
    assert Sum(after, d.alert.name, d.time) ==
           Sum(before, d.alert.name, d.time) + if InWindow(records[i], d.time) then records[i].numbers.Of(d.alert.name) else 0.0;
  }

  lemma CountWraps(n: nat)
    ensures (n % 256 + 1) % 256 == (n + 1) % 256
  {
  }

  /** Lines 223-261: means, the count condition and the flips. */
  method Judge(data: array<Data>) returns (sent: seq<Sent>)
    requires forall j | 0 <= j < data.Length :: Minutes(data[j].alert) > 1
    ensures sent == Judged(data[..])
  {
    sent := [];
    for j := 0 to data.Length
      invariant sent == Judged(data[..j])
    {
      assert data[..j + 1][..j] == data[..j];
      var d := data[j];
      if 6 * d.count >= 5 * Minutes(d.alert) {
        var mean := d.val / d.count as real;
        if !d.alert.triggered && mean > d.alert.threshold {
          sent := sent + [Sent(d.alert.id, true, mean)];
        } else if d.alert.triggered && mean <= d.alert.threshold {
          sent := sent + [Sent(d.alert.id, false, mean)];
        }
      }
    }
    assert data[..data.Length] == data[..];
  }

  function Judged(data: seq<Data>): seq<Sent> {
    if data == [] then []
    else
      var d := data[|data| - 1];
      var v := if 6 * d.count >= 5 * Minutes(d.alert) then Flip(d.alert, d.val, d.count) else None;
      Judged(data[..|data| - 1]) + if v.Some? then [v.value] else []
  }

  lemma {:induction false} NoneKept(pending: seq<Alert>, now: int, oldest: int, records: seq<Record>)
    requires Ordered(records) && Since(records, oldest - QUERY_BUFFER) == []
    ensures Verdicts(pending, now, oldest, records) == []
    decreases |pending|
  {
    if pending != [] {
      NoneKept(pending[..|pending| - 1], now, oldest, records);
      SinceIsOrdered(records, oldest - QUERY_BUFFER);
    }
  }

  lemma {:induction false} WindowedMinutes(alerts: seq<Alert>, current: Numbers)
    ensures forall i | 0 <= i < |Windowed(alerts, current)| :: Minutes(Windowed(alerts, current)[i]) > 1
    decreases |alerts|
  {
    if alerts != [] {
      WindowedMinutes(alerts[..|alerts| - 1], current);
    }
  }

  lemma {:induction false} KeptIsPending(pending: seq<Alert>, first: int, now: int)
    ensures forall a | a in KeptOf(pending, first, now) :: a in pending
    decreases |pending|
  {
    if pending != [] {
      KeptIsPending(pending[..|pending| - 1], first, now);
    }
  }

  /** The sums over the query's records give each alert the verdict on its own window. */
  lemma JudgedOne(a: Alert, now: int, oldest: int, records: seq<Record>, current: Numbers)
    requires Ordered(records) && Since(records, oldest - QUERY_BUFFER) != [] && oldest <= Start(a, now)
    ensures var found := Since(records, oldest - QUERY_BUFFER);
            var d := Summed(Fresh(a, current, now), found);
            && (IsKept(records, Start(a, now), oldest) <==> Start(a, now) > found[0].created)
            && Verdict(a, now, oldest, records) ==
               if Start(a, now) > found[0].created && 6 * d.count >= 5 * Minutes(a) then Flip(a, d.val, d.count) else None
  {
    hide IsKept, Flip;
    KeptByFirst(records, Start(a, now), oldest);
    QueryKeepsWindows(records, a.name, Start(a, now), oldest - QUERY_BUFFER);
  }

  lemma {:induction false} JudgedIsVerdicts(pending: seq<Alert>, n: nat, now: int, oldest: int, records: seq<Record>, current: Numbers)
    requires n <= |pending| && Ordered(records) && Since(records, oldest - QUERY_BUFFER) != []
    requires oldest == Oldest(pending, now)
    ensures var found := Since(records, oldest - QUERY_BUFFER);
            Judged(Summeds(KeptOf(pending[..n], found[0].created, now), found, current, now)) == Verdicts(pending[..n], now, oldest, records)
    decreases n
  {
    hide Verdict, Flip, Summed, Oldest;
    if n > 0 {
      var found := Since(records, oldest - QUERY_BUFFER);
      var a, init := pending[n - 1], pending[..n - 1];
      assert pending[..n][..n - 1] == init;
      JudgedIsVerdicts(pending, n - 1, now, oldest, records, current);
      OldestIsLeast(pending, now, n - 1);
      JudgedOne(a, now, oldest, records, current);
      var kept := KeptOf(init, found[0].created, now);
      if Start(a, now) > found[0].created {
        assert Summeds(kept + [a], found, current, now) == Summeds(kept, found, current, now) + [Summed(Fresh(a, current, now), found)];
        JudgedSnoc(Summeds(kept, found, current, now), Summed(Fresh(a, current, now), found));
        SummedAlert(Fresh(a, current, now), found);
      } else {
        assert KeptOf(pending[..n], found[0].created, now) == kept;
      }
    }
  }

  lemma SummedAlert(d: Data, records: seq<Record>)
    ensures Summed(d, records).alert == d.alert
  {
  }

  lemma JudgedSnoc(data: seq<Data>, d: Data)
    ensures Judged(data + [d]) == Judged(data) +
              var v := if 6 * d.count >= 5 * Minutes(d.alert) then Flip(d.alert, d.val, d.count) else None;
              if v.Some? then [v.value] else []
  {
    assert (data + [d])[..|data|] == data;
  }
}
