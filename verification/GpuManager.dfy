/** The GPU manager: agent/gpu.go lines 235-268 and 305-440, agent/gpu_intel.go lines 25-50, with the
    cards and their engine maps as objects that samples update in place. */
module GpuManagers {
  import opened Common
  import opened Rounding
  import opened GpuSpec

  /** A mutable map from engine names to numbers. */
  class Engines {
    var m: map<string, real>

    constructor ()
      ensures m == map[]
    {
      m := map[];
    }

    method Add(more: map<string, real>)
      modifies this
      ensures m == AddAll(old(m), more)
    {
      ghost var had := m;
      var rest := more.Keys;
      AddNone(had, more);
      while rest != {}
        invariant rest <= more.Keys && m == AddAll(had, more - rest)
        decreases |rest|
      {
        var name :| name in rest;
        AddOne(had, more, rest, name);
        m := m[name := Get(m, name) + more[name]];
        rest := rest - {name};
      }
      AddEvery(had, more);
    }
  }

  /** The running total of one card. */
  class Card {
    var name: string
    var temperature: real
    var memoryUsed: real
    var memoryTotal: real
    var usage: real
    var power: real
    var powerPkg: real
    var count: nat
    var engines: Engines?

    ghost function View(): GpuData
      reads this, engines
    {
      GpuData(name, temperature, memoryUsed, memoryTotal, usage, power, powerPkg, count,
              if engines == null then None else Some(engines.m))
    }

    constructor (name: string, engines: Engines?)
      ensures this.name == name && this.engines == engines
      ensures View() == Blank(name).(engines := if engines == null then None else Some(engines.m))
    {
      this.name, this.engines := name, engines;
      temperature, memoryUsed, memoryTotal, usage, power, powerPkg, count := 0.0, 0.0, 0.0, 0.0, 0.0, 0.0, 0;
    }

    /** parseNvidiaData, lines 259-266. */
    method AddCardSample(s: Sample)
      requires s.CardSample?
      modifies this
      ensures View() == Accumulated(old(View()), s) && engines == old(engines)
    {
      temperature := s.temperature;
      memoryUsed := s.memoryUsed / MEBIBYTES_IN_A_MEGABYTE;
      memoryTotal := s.memoryTotal / MEBIBYTES_IN_A_MEGABYTE;
      usage := usage + s.usage;
      power := power + s.power;
      count := count + 1;
    }

    /** updateIntelFromStats, lines 38-48. */
    method AddEngineSample(s: Sample)
      requires s.EngineSample?
      modifies this, engines
      ensures View() == Accumulated(old(View()), s)
      ensures if old(engines) == null then engines != null && fresh(engines) else engines == old(engines)
    {
      power := power + s.power;
      powerPkg := powerPkg + s.powerPkg;
      if engines == null {
        engines := new Engines();
      }
      engines.Add(s.engines);
      count := count + 1;
    }
  }

  lemma AddNone(had: map<string, real>, more: map<string, real>)
    ensures AddAll(had, more - more.Keys) == had
  {
  }

  lemma AddEvery(had: map<string, real>, more: map<string, real>)
    ensures AddAll(had, more - {}) == AddAll(had, more)
  {
    assert more - {} == more;
  }

  lemma AddOne(had: map<string, real>, more: map<string, real>, rest: set<string>, name: string)
    requires name in rest && rest <= more.Keys
    ensures var sum := AddAll(had, more - rest);
            AddAll(had, more - (rest - {name})) == sum[name := Get(sum, name) + more[name]]
  {
  }

  class GpuManager {
    var gpuDataMap: map<string, Card>
    var lastAvgData: map<string, GpuData>
    var lastSnapshots: map<Key, map<string, Snapshot>>
    ghost var live: set<object>  // the cards and their engine maps

    ghost predicate Valid()
      reads this`gpuDataMap, this`live, live
    {
      && this !in live
      && (forall id :: id in gpuDataMap ==> gpuDataMap[id] in live && (gpuDataMap[id].engines != null ==> gpuDataMap[id].engines in live))
      && (forall i, j :: i in gpuDataMap && j in gpuDataMap && i != j ==>
                           gpuDataMap[i] != gpuDataMap[j] &&
                           (gpuDataMap[i].engines != null ==> gpuDataMap[i].engines != gpuDataMap[j].engines))
    }

    ghost function Totals(): (totals: map<string, GpuData>)
      requires Valid()
      reads this`gpuDataMap, this`live, live
      ensures totals.Keys == gpuDataMap.Keys
    {
      map id | id in gpuDataMap :: gpuDataMap[id].View()
    }

    ghost function View(): Gpus
      requires Valid()
      reads this, live
    {
      Gpus(Totals(), lastAvgData, lastSnapshots)
    }

    constructor ()
      ensures Valid() && View() == Gpus(map[], map[], map[]) && live == {}
    {
      gpuDataMap, lastAvgData, lastSnapshots, live := map[], map[], map[], {};
    }

    /** A new card under an id that has none. */
    method AddCard(id: string, card: Card)
      requires Valid() && id !in gpuDataMap && card !in live && (card.engines != null ==> card.engines !in live)
      modifies this`gpuDataMap, this`live
      ensures Valid() && live == old(live) + {card} + (if card.engines == null then {} else {card.engines})
      ensures gpuDataMap == old(gpuDataMap)[id := card]
      ensures View() == old(View()).(totals := old(View()).totals[id := card.View()])
    {
      live := live + {card} + if card.engines == null then {} else {card.engines};
      gpuDataMap := gpuDataMap[id := card];
    }

    /** Changing one card changes one total. */
    twostate lemma OneCardChanged(id: string)
      requires old(Valid()) && Valid() && id in gpuDataMap && gpuDataMap == old(gpuDataMap)
      requires lastAvgData == old(lastAvgData) && lastSnapshots == old(lastSnapshots)
      requires forall i :: i in gpuDataMap && i != id ==>
                             unchanged(gpuDataMap[i]) && (gpuDataMap[i].engines != null ==> unchanged(gpuDataMap[i].engines))
      ensures View() == old(View()).(totals := old(View()).totals[id := gpuDataMap[id].View()])
    {
    }

    /** Lines 254-258, and agent/gpu_intel.go lines 32-36. */
    method EnsureCard(id: string, name: string, withEngines: bool)
      requires Valid()
      modifies this`gpuDataMap, this`live
      ensures Valid() && fresh(live - old(live)) && old(live) <= live && id in gpuDataMap
      ensures id in old(gpuDataMap) ==> View() == old(View())
      ensures id !in old(gpuDataMap) ==>
                View() == old(View()).(totals := old(View()).totals[id := Blank(name).(engines := if withEngines then Some(map[]) else None)])
    {
      if id !in gpuDataMap {
        if withEngines {
          var engines := new Engines();
          var card := new Card(name, engines);
          AddCard(id, card);
        } else {
          var card := new Card(name, null);
          AddCard(id, card);
        }
      }
    }

    method AddToCard(id: string, s: Sample)
      requires Valid() && id in gpuDataMap
      modifies this`live, live
      ensures Valid() && fresh(live - old(live)) && old(live) <= live
      ensures View() == old(View()).(totals := old(View()).totals[id := Accumulated(old(View()).totals[id], s)])
    {
      if s.CardSample? {
        gpuDataMap[id].AddCardSample(s);
      } else {
        gpuDataMap[id].AddEngineSample(s);
        live := live + {gpuDataMap[id].engines};
      }
      OneCardChanged(id);
    }

    /** One line of nvidia-smi output. */
    method ApplyCardSample(id: string, s: Sample)
      requires Valid() && s.CardSample?
      modifies this`gpuDataMap, this`live, live
      ensures Valid() && fresh(live - old(live)) && old(live) <= live
      ensures View() == Sampled(old(View()), id, s)
    {
      EnsureCard(id, s.name, false);
      AddToCard(id, s);
      SampledTwice(old(View()).totals, id, s);
    }

    /** One row of intel_gpu_top output; the card's id is always "i0". */
    method UpdateIntelFromStats(s: Sample)
      requires Valid() && s.EngineSample?
      modifies this`gpuDataMap, this`live, live
      ensures Valid() && fresh(live - old(live)) && old(live) <= live
      ensures View() == Sampled(old(View()), "i0", s)
    {
      EnsureCard("i0", "GPU", true);
      AddToCard("i0", s);
      SampledTwice(old(View()).totals, "i0", s);
    }

    /** The lines of one nvidia-smi run; None stands for a line with fewer than seven fields. */
    method ParseNvidiaData(lines: seq<Option<CardLine>>) returns (valid: bool)
      requires Valid() && forall l <- lines :: l.Some? ==> l.value.sample.CardSample?
      modifies this`gpuDataMap, this`live, live
      ensures Valid() && View() == SampledAll(old(View()), lines)
      ensures valid <==> exists l <- lines :: l.Some?
    {
      valid := false;
      for i := 0 to |lines|
        invariant Valid() && fresh(live - old(live)) && old(live) <= live
        invariant View() == SampledAll(old(View()), lines[..i])
        invariant valid <==> exists l <- lines[..i] :: l.Some?
      {
        assert lines[..i + 1][..i] == lines[..i];
        assert lines[..i + 1] == lines[..i] + [lines[i]];
        if lines[i].None? {
          continue;
        }
        valid := true;
        ApplyCardSample(lines[i].value.id, lines[i].value.sample);
      }
      assert lines[..|lines|] == lines;
    }

    // -------------------------------------------------------------------------------------------
    // Polls: nothing here may write to a card or to a card's engine map
    // -------------------------------------------------------------------------------------------

    method InitializeSnapshots(cacheKey: Key)
      modifies this`lastSnapshots
      ensures lastSnapshots == if cacheKey in old(lastSnapshots) then old(lastSnapshots) else old(lastSnapshots)[cacheKey := map[]]
    {
      if cacheKey !in lastSnapshots {
        lastSnapshots := lastSnapshots[cacheKey := map[]];
      }
    }

    method CountGpuNames() returns (nameCounts: map<string, nat>)
      requires Valid()
      ensures Counted(Totals(), {}, nameCounts)
    {
      hide Counted;
      nameCounts := map[];
      ghost var totals := Totals();
      var rest := gpuDataMap.Keys;
      CountedNone(totals);
      assert totals.Keys == rest;
      while rest != {}
        invariant rest <= gpuDataMap.Keys
        invariant Counted(totals, rest, nameCounts)
        decreases |rest|
      {
        var id :| id in rest;
        var name := gpuDataMap[id].name;
        assert totals[id].name == name;
        CountedOne(totals, rest, nameCounts, id);
        nameCounts := nameCounts[name := CountOf(nameCounts, name) + 1];
        rest := rest - {id};
      }
    }

    method CalculateIntelGpuUsage(avgEngines: Engines, gpu: Card, last: Option<Snapshot>, deltaCount: nat) returns (usage: real)
      requires gpu.engines != null && avgEngines != gpu.engines && avgEngines.m == map[] && deltaCount > 0
      modifies avgEngines
      ensures var means := map e | e in gpu.engines.m :: EngineDelta(gpu.View(), last, e) / deltaCount as real;
              && usage == TwoDecimals(Peak(means.Values))
              && avgEngines.m == map e | e in means :: TwoDecimals(means[e])
    {
      ghost var means := map e | e in gpu.engines.m :: EngineDelta(gpu.View(), last, e) / deltaCount as real;
      var maxEngineUsage := 0.0;
      var rest := gpu.engines.m.Keys;
      while rest != {}
        invariant rest <= means.Keys
        invariant avgEngines.m == map e | e in means && e !in rest :: TwoDecimals(means[e])
        invariant IsPeak((means - rest).Values, maxEngineUsage)
        decreases |rest|
      {
        var name :| name in rest;
        var engine := gpu.engines.m[name];
        var deltaEngine := engine;
        if last.Some? && last.value.engines.Some? {
          deltaEngine := engine - Get(last.value.engines.value, name);
        }
        var mean := deltaEngine / deltaCount as real;
        assert mean == means[name];
        PeakGrows(means, rest, name, maxEngineUsage);
        avgEngines.m := avgEngines.m[name := TwoDecimals(mean)];
        maxEngineUsage := if mean > maxEngineUsage then mean else maxEngineUsage;
        rest := rest - {name};
      }
      assert means - {} == means;
      PeakIsUnique(means.Values, maxEngineUsage);
      usage := TwoDecimals(maxEngineUsage);
    }

    method CalculateGpuAverage(id: string, gpu: Card, cacheKey: Key) returns (avg: GpuData)
      requires Valid() && cacheKey in lastSnapshots
      modifies this`lastAvgData
      ensures Valid() && Totals() == old(Totals())
      ensures var last := if id in lastSnapshots[cacheKey] then Some(lastSnapshots[cacheKey][id]) else None;
              && avg == AverageFrom(gpu.View(), last, Known(old(lastAvgData), id))
              && lastAvgData == if DeltaCount(gpu.count % TWO32, last) != 0 then old(lastAvgData)[id := avg] else old(lastAvgData)
    {
      var last := if id in lastSnapshots[cacheKey] then Some(lastSnapshots[cacheKey][id]) else None;
      var deltaCount := DeltaCount(gpu.count % TWO32, last);
      if deltaCount == 0 {
        if gpu.temperature == 0.0 && gpu.memoryUsed == 0.0 {
          return Blank(gpu.name);
        }
        return if id in lastAvgData then lastAvgData[id] else Blank("");
      }
      avg := AverageCard(gpu, last, deltaCount);
      lastAvgData := lastAvgData[id := avg];
    }

    /** Lines 367-381: a copy of the total, with a map of its own for the averaged engines. */
    method AverageCard(gpu: Card, last: Option<Snapshot>, deltaCount: nat) returns (avg: GpuData)
      requires deltaCount > 0
      ensures avg == AverageSince(gpu.View(), last, deltaCount)
    {
      var deltaUsage, deltaPower, deltaPkg := gpu.usage, gpu.power, gpu.powerPkg;
      if last.Some? {
        deltaUsage, deltaPower, deltaPkg := gpu.usage - last.value.usage, gpu.power - last.value.power, gpu.powerPkg - last.value.powerPkg;
      }
      avg := GpuData(gpu.name, gpu.temperature, gpu.memoryUsed, gpu.memoryTotal, gpu.usage,
                     TwoDecimals(deltaPower / deltaCount as real), gpu.powerPkg, gpu.count, None);
      if gpu.engines != null {
        var avgEngines := new Engines();
        var usage := CalculateIntelGpuUsage(avgEngines, gpu, last, deltaCount);
        avg := avg.(engines := Some(avgEngines.m), usage := usage, powerPkg := TwoDecimals(deltaPkg / deltaCount as real));
      } else {
        avg := avg.(usage := TwoDecimals(deltaUsage / deltaCount as real));
      }
    }

    /** Averages for every card since the last call with this key. */
    method GetCurrentData(cacheKey: Key) returns (gpuData: map<string, GpuData>)
      requires Valid()
      modifies this`lastAvgData, this`lastSnapshots
      ensures Valid() && View() == Polled(old(View()), cacheKey)
      ensures gpuData == Output(old(View()), cacheKey)
    {
      hide AveragesExcept, SnapshotsExcept, OutputExcept, Counted, Output, Polled;
      ghost var g := View();
      InitializeSnapshots(cacheKey);
      var nameCounts := CountGpuNames();
      PolledNone(g, cacheKey);
      gpuData := VisitCards(g, cacheKey, nameCounts);
      AllVisited(g, cacheKey);
    }

    /** The loop of GetCurrentData. */
    method VisitCards(ghost g: Gpus, cacheKey: Key, nameCounts: map<string, nat>) returns (gpuData: map<string, GpuData>)
      requires Valid() && Totals() == g.totals && Counted(g.totals, {}, nameCounts)
      requires lastAvgData == AveragesExcept(g, cacheKey, g.totals.Keys)
      requires lastSnapshots == g.snapshots[cacheKey := SnapshotsExcept(g, cacheKey, g.totals.Keys)]
      requires OutputExcept(g, cacheKey, g.totals.Keys) == map[]
      modifies this`lastAvgData, this`lastSnapshots
      ensures Valid() && Totals() == g.totals
      ensures lastAvgData == AveragesExcept(g, cacheKey, {})
      ensures lastSnapshots == g.snapshots[cacheKey := SnapshotsExcept(g, cacheKey, {})]
      ensures gpuData == OutputExcept(g, cacheKey, {})
    {
      hide AveragesExcept, SnapshotsExcept, OutputExcept, Counted;
      gpuData := map[];
      var rest := gpuDataMap.Keys;
      while rest != {}
        invariant rest <= gpuDataMap.Keys
        invariant Totals() == g.totals
        invariant lastAvgData == AveragesExcept(g, cacheKey, rest)
        invariant lastSnapshots == g.snapshots[cacheKey := SnapshotsExcept(g, cacheKey, rest)]
        invariant gpuData == OutputExcept(g, cacheKey, rest)
        decreases |rest|
      {
        var id :| id in rest;
        var avg := VisitCard(g, cacheKey, rest, id, nameCounts);
        gpuData := gpuData[id := avg];
        VisitOutput(g, cacheKey, rest, id);
        rest := rest - {id};
      }
    }

    /** The loop body of GetCurrentData. */
    method VisitCard(ghost g: Gpus, cacheKey: Key, ghost rest: set<string>, id: string, nameCounts: map<string, nat>)
      returns (avg: GpuData)
      requires Valid() && Totals() == g.totals && id in gpuDataMap && id in rest
      requires lastAvgData == AveragesExcept(g, cacheKey, rest)
      requires lastSnapshots == g.snapshots[cacheKey := SnapshotsExcept(g, cacheKey, rest)]
      requires Counted(g.totals, {}, nameCounts)
      modifies this`lastAvgData, this`lastSnapshots
      ensures Valid() && Totals() == g.totals
      ensures lastAvgData == AveragesExcept(g, cacheKey, rest - {id})
      ensures lastSnapshots == g.snapshots[cacheKey := SnapshotsExcept(g, cacheKey, rest - {id})]
      ensures avg == Presented(g.totals, id, Average(g, cacheKey, id))
    {
      hide AveragesExcept, SnapshotsExcept, Counted, Presented, Average;
      var gpu := gpuDataMap[id];
      avg := MeasureCard(g, cacheKey, rest, id, gpu);
      assert gpu.View() == g.totals[id];
      PresentedIs(g.totals, id, avg, nameCounts);
      avg := avg.(temperature := TwoDecimals(gpu.temperature), memoryUsed := TwoDecimals(gpu.memoryUsed),
                  memoryTotal := TwoDecimals(gpu.memoryTotal),
                  name := if nameCounts[gpu.name] > 1 then gpu.name + " " + id else avg.name);
    }

    method MeasureCard(ghost g: Gpus, cacheKey: Key, ghost rest: set<string>, id: string, gpu: Card) returns (avg: GpuData)
      requires Valid() && Totals() == g.totals && id in gpuDataMap && id in rest && gpu == gpuDataMap[id]
      requires lastAvgData == AveragesExcept(g, cacheKey, rest)
      requires lastSnapshots == g.snapshots[cacheKey := SnapshotsExcept(g, cacheKey, rest)]
      modifies this`lastAvgData, this`lastSnapshots
      ensures Valid() && Totals() == g.totals
      ensures lastAvgData == AveragesExcept(g, cacheKey, rest - {id})
      ensures lastSnapshots == g.snapshots[cacheKey := SnapshotsExcept(g, cacheKey, rest - {id})]
      ensures avg == Average(g, cacheKey, id)
    {
      hide AveragesExcept, SnapshotsExcept, Average, SnapshotOf;
      StoredIs(g, cacheKey, rest, id);
      avg := RecordAverage(g, cacheKey, rest, id, gpu);
      assert gpu.View() == g.totals[id];
      StoreSnapshot(id, gpu, cacheKey);
    }

    lemma StoredIs(g: Gpus, key: Key, rest: set<string>, id: string)
      requires id in rest && id in g.totals
      ensures var before := g.snapshots[key := SnapshotsExcept(g, key, rest)];
              before[key := before[key][id := SnapshotOf(g.totals[id])]] == g.snapshots[key := SnapshotsExcept(g, key, rest - {id})]
    {
      hide SnapshotsExcept, SnapshotOf;
      VisitSnapshot(g, key, rest, id);
    }

    method RecordAverage(ghost g: Gpus, cacheKey: Key, ghost rest: set<string>, id: string, gpu: Card) returns (avg: GpuData)
      requires Valid() && Totals() == g.totals && id in gpuDataMap && id in rest && gpu == gpuDataMap[id]
      requires lastAvgData == AveragesExcept(g, cacheKey, rest)
      requires lastSnapshots == g.snapshots[cacheKey := SnapshotsExcept(g, cacheKey, rest)]
      modifies this`lastAvgData
      ensures Valid() && Totals() == g.totals
      ensures lastAvgData == AveragesExcept(g, cacheKey, rest - {id})
      ensures avg == Average(g, cacheKey, id)
    {
      hide AveragesExcept, SnapshotsExcept, AverageFrom, HasNew, Average, LastSnapshot, Known, DeltaCount;
      NotVisitedYet(g, cacheKey, rest, id);
      AverageIs(g, cacheKey, id);
      VisitAverage(g, cacheKey, rest, id);
      assert gpu.View() == g.totals[id];
      avg := CalculateGpuAverage(id, gpu, cacheKey);
    }

    lemma AverageIs(g: Gpus, key: Key, id: string)
      requires id in g.totals
      ensures var d, last := g.totals[id], LastSnapshot(g, key, id);
              && Average(g, key, id) == AverageFrom(d, last, Known(g.lastAvg, id))
              && (HasNew(g, key, id) <==> DeltaCount(d.count % TWO32, last) != 0)
    {
    }

    /** The instantaneous values, and the ID after a name that several cards have. */
    lemma PresentedIs(totals: map<string, GpuData>, id: string, avg: GpuData, nameCounts: map<string, nat>)
      requires id in totals && Counted(totals, {}, nameCounts)
      ensures var d := totals[id];
              && d.name in nameCounts
              && Presented(totals, id, avg) ==
                 avg.(temperature := TwoDecimals(d.temperature), memoryUsed := TwoDecimals(d.memoryUsed),
                      memoryTotal := TwoDecimals(d.memoryTotal),
                      name := if nameCounts[d.name] > 1 then d.name + " " + id else avg.name)
    {
      hide Counted;
      CountedAll(totals, nameCounts, id);
    }

    method StoreSnapshot(id: string, gpu: Card, cacheKey: Key)
      requires Valid() && cacheKey in lastSnapshots
      modifies this`lastSnapshots
      ensures Valid() && Totals() == old(Totals())
      ensures lastSnapshots == old(lastSnapshots)[cacheKey := old(lastSnapshots)[cacheKey][id := SnapshotOf(gpu.View())]]
    {
      var engines := if gpu.engines == null then None else Some(gpu.engines.m);
      var snapshot := Snapshot(gpu.count % TWO32, gpu.usage, gpu.power, gpu.powerPkg, engines);
      lastSnapshots := lastSnapshots[cacheKey := lastSnapshots[cacheKey][id := snapshot]];
    }
  }

  function CountOf(counts: map<string, nat>, name: string): nat {
    if name in counts then counts[name] else 0
  }

  /** Names have been counted for every card outside `rest`. */
  ghost predicate Counted(totals: map<string, GpuData>, rest: set<string>, counts: map<string, nat>) {
    forall name :: CountOf(counts, name) == |SameName(totals, name) - rest|
  }

  lemma CountedNone(totals: map<string, GpuData>)
    ensures Counted(totals, totals.Keys, map[])
  {
    forall name
      ensures |SameName(totals, name) - totals.Keys| == 0
    {
      assert SameName(totals, name) - totals.Keys == {};
    }
  }

  lemma OneMoreName(totals: map<string, GpuData>, rest: set<string>, id: string, name: string)
    requires id in rest && id in totals
    ensures |SameName(totals, name) - (rest - {id})| == |SameName(totals, name) - rest| + if name == totals[id].name then 1 else 0
  {
    var before := SameName(totals, name) - rest;
    if name == totals[id].name {
      assert SameName(totals, name) - (rest - {id}) == before + {id};
    } else {
      assert SameName(totals, name) - (rest - {id}) == before;
    }
  }

  lemma CountedOne(totals: map<string, GpuData>, rest: set<string>, counts: map<string, nat>, id: string)
    requires id in rest && id in totals && Counted(totals, rest, counts)
    ensures Counted(totals, rest - {id}, counts[totals[id].name := CountOf(counts, totals[id].name) + 1])
  {
    var next := counts[totals[id].name := CountOf(counts, totals[id].name) + 1];
    forall name
      ensures CountOf(next, name) == |SameName(totals, name) - (rest - {id})|
    {
      assert CountOf(counts, name) == |SameName(totals, name) - rest|;
      OneMoreName(totals, rest, id, name);
    }
  }

  lemma CountedAll(totals: map<string, GpuData>, counts: map<string, nat>, id: string)
    requires Counted(totals, {}, counts) && id in totals
    ensures totals[id].name in counts && counts[totals[id].name] == |SameName(totals, totals[id].name)|
  {
    var name := totals[id].name;
    var same := SameName(totals, name);
    assert CountOf(counts, name) == |same - {}|;
    assert same - {} == same && id in same;
  }

  datatype CardLine = CardLine(id: string, sample: Sample)

  function SampledAll(g: Gpus, lines: seq<Option<CardLine>>): Gpus {
    if lines == [] then g
    else
      var before, l := SampledAll(g, lines[..|lines| - 1]), lines[|lines| - 1];
      if l.None? then before else Sampled(before, l.value.id, l.value.sample)
  }

  /** The samples of the lines that have enough fields, in order. */
  function Samples(lines: seq<Option<CardLine>>): seq<Event> {
    if lines == [] then []
    else
      var l := lines[|lines| - 1];
      Samples(lines[..|lines| - 1]) + if l.Some? then [Event.Sample(l.value.id, l.value.sample)] else []
  }

  /** So one output continues the run of samples and polls by exactly its lines. */
  lemma {:induction false} LinesAreSamples(events: seq<Event>, lines: seq<Option<CardLine>>)
    ensures SampledAll(Run(events), lines) == Run(events + Samples(lines))
    decreases |lines|
  {
    hide Sampled, Polled;
    if lines == [] {
      assert events + Samples(lines) == events;
    } else {
      var init, l := lines[..|lines| - 1], lines[|lines| - 1];
      LinesAreSamples(events, init);
      if l.Some? {
        var all := events + Samples(lines);
        assert all[..|all| - 1] == events + Samples(init) && all[|all| - 1] == Event.Sample(l.value.id, l.value.sample);
      } else {
        assert Samples(lines) == Samples(init);
      }
    }
  }

  ghost function AveragesExcept(g: Gpus, key: Key, rest: set<string>): map<string, GpuData> {
    g.lastAvg + map id | id in g.totals && id !in rest && HasNew(g, key, id) :: Average(g, key, id)
  }

  function SnapshotsExcept(g: Gpus, key: Key, rest: set<string>): map<string, Snapshot> {
    (if key in g.snapshots then g.snapshots[key] else map[]) + map id | id in g.totals && id !in rest :: SnapshotOf(g.totals[id])
  }

  ghost function OutputExcept(g: Gpus, key: Key, rest: set<string>): map<string, GpuData> {
    map id | id in g.totals && id !in rest :: Presented(g.totals, id, Average(g, key, id))
  }

  lemma PolledNone(g: Gpus, key: Key)
    ensures AveragesExcept(g, key, g.totals.Keys) == g.lastAvg
    ensures SnapshotsExcept(g, key, g.totals.Keys) == if key in g.snapshots then g.snapshots[key] else map[]
    ensures OutputExcept(g, key, g.totals.Keys) == map[]
  {
    var rest := g.totals.Keys;
    assert (map id | id in g.totals && id !in rest :: SnapshotOf(g.totals[id])) == map[];
    assert (map id | id in g.totals && id !in rest && HasNew(g, key, id) :: Average(g, key, id)) == map[];
  }

  lemma AllAverages(g: Gpus, key: Key)
    ensures AveragesExcept(g, key, {}) == Polled(g, key).lastAvg
  {
    hide Average, HasNew;
  }

  lemma AllSnapshots(g: Gpus, key: Key)
    ensures g.snapshots[key := SnapshotsExcept(g, key, {})] == Polled(g, key).snapshots
  {
    hide SnapshotOf;
    assert SnapshotsExcept(g, key, {}) == Polled(g, key).snapshots[key];
  }

  lemma AllVisited(g: Gpus, key: Key)
    ensures Polled(g, key) == Gpus(g.totals, AveragesExcept(g, key, {}), g.snapshots[key := SnapshotsExcept(g, key, {})])
    ensures OutputExcept(g, key, {}) == Output(g, key)
  {
    hide Average, Presented;
    AllAverages(g, key);
    AllSnapshots(g, key);
  }

  /** A card not visited yet still has the snapshot and the last average from the start of the poll. */
  lemma NotVisitedYet(g: Gpus, key: Key, rest: set<string>, id: string)
    requires id in rest && id in g.totals
    ensures Known(AveragesExcept(g, key, rest), id) == Known(g.lastAvg, id)
    ensures var s := SnapshotsExcept(g, key, rest); (if id in s then Some(s[id]) else None) == LastSnapshot(g, key, id)
  {
  }

  lemma VisitAverage(g: Gpus, key: Key, rest: set<string>, id: string)
    requires id in rest && id in g.totals
    ensures AveragesExcept(g, key, rest - {id}) ==
            if HasNew(g, key, id) then AveragesExcept(g, key, rest)[id := Average(g, key, id)] else AveragesExcept(g, key, rest)
  {
    hide HasNew, Average;
  }

  lemma VisitSnapshot(g: Gpus, key: Key, rest: set<string>, id: string)
    requires id in rest && id in g.totals
    ensures SnapshotsExcept(g, key, rest - {id}) == SnapshotsExcept(g, key, rest)[id := SnapshotOf(g.totals[id])]
  {
  }

  lemma VisitOutput(g: Gpus, key: Key, rest: set<string>, id: string)
    requires id in rest && id in g.totals
    ensures OutputExcept(g, key, rest - {id}) == OutputExcept(g, key, rest)[id := Presented(g.totals, id, Average(g, key, id))]
  {
  }

  lemma PeakGrows(means: map<string, real>, rest: set<string>, name: string, m: real)
    requires name in rest && rest <= means.Keys && IsPeak((means - rest).Values, m)
    ensures IsPeak((means - (rest - {name})).Values, if means[name] > m then means[name] else m)
  {
    var before, after := means - rest, means - (rest - {name});
    assert after == before[name := means[name]];
    assert after[name] in after.Values;
    forall x | x in after.Values
      ensures x == means[name] || x in before.Values
    {
      var e :| e in after && after[e] == x;
    }
    if m != 0.0 {
      var e :| e in before && before[e] == m;
      assert after[e] == m;
    }
  }

  lemma SampledTwice(totals: map<string, GpuData>, id: string, s: Sample)
    ensures var d := if id in totals then totals[id] else Started(s);
            totals[id := d][id := Accumulated(d, s)] == totals[id := Accumulated(d, s)]
  {
  }
}
