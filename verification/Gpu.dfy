/** GPU sampling as values: agent/gpu.go lines 41-60, 235-440, and agent/gpu_intel.go lines 25-50.

    Samples add into running totals; a poll under a cache key subtracts what the totals were at that
    key's previous poll. */
module GpuSpec {
  import opened Common
  import opened Rounding

  const TWO32: nat := 0x1_0000_0000

  type Key = x: int | 0 <= x < 0x1_0000

  /** One parsed sample: a line of nvidia-smi, or a row of intel_gpu_top. */
  datatype Sample =
    | CardSample(name: string, temperature: real, memoryUsed: real, memoryTotal: real, usage: real, power: real)
    | EngineSample(power: real, powerPkg: real, engines: map<string, real>)

  /** system.GPUData: a running total, or an average handed out. */
  datatype GpuData = GpuData(name: string, temperature: real, memoryUsed: real, memoryTotal: real,
                             usage: real, power: real, powerPkg: real, count: nat, engines: Option<map<string, real>>)

  datatype Snapshot = Snapshot(count: nat, usage: real, power: real, powerPkg: real, engines: Option<map<string, real>>)

  datatype Gpus = Gpus(totals: map<string, GpuData>, lastAvg: map<string, GpuData>, snapshots: map<Key, map<string, Snapshot>>)

  function Blank(name: string): GpuData {
    GpuData(name, 0.0, 0.0, 0.0, 0.0, 0.0, 0.0, 0, None)
  }

  function Get(m: map<string, real>, k: string): real {
    if k in m then m[k] else 0.0
  }

  function AddAll(m: map<string, real>, more: map<string, real>): map<string, real> {
    map k | k in m.Keys + more.Keys :: Get(m, k) + Get(more, k)
  }

  const MEBIBYTES_IN_A_MEGABYTE: real := 1.024

  function Started(s: Sample): GpuData {
    match s
    case CardSample(name, _, _, _, _, _) => Blank(name)
    case EngineSample(_, _, _) => Blank("GPU").(engines := Some(map[]))
  }

  function Accumulated(d: GpuData, s: Sample): GpuData {
    match s
    case CardSample(_, temperature, memoryUsed, memoryTotal, usage, power) =>
      d.(temperature := temperature, memoryUsed := memoryUsed / MEBIBYTES_IN_A_MEGABYTE,
         memoryTotal := memoryTotal / MEBIBYTES_IN_A_MEGABYTE, usage := d.usage + usage, power := d.power + power, count := d.count + 1)
    case EngineSample(power, powerPkg, engines) =>
      var had := if d.engines.Some? then d.engines.value else map[];
      d.(power := d.power + power, powerPkg := d.powerPkg + powerPkg, engines := Some(AddAll(had, engines)), count := d.count + 1)
  }

  function Sampled(g: Gpus, id: string, s: Sample): Gpus {
    g.(totals := g.totals[id := Accumulated(if id in g.totals then g.totals[id] else Started(s), s)])
  }

  // ---------------------------------------------------------------------------------------------
  // A poll: subtract the snapshot
  // ---------------------------------------------------------------------------------------------

  function SnapshotOf(d: GpuData): Snapshot {
    Snapshot(d.count % TWO32, d.usage, d.power, d.powerPkg, d.engines)
  }

  function LastSnapshot(g: Gpus, key: Key, id: string): Option<Snapshot> {
    if key in g.snapshots && id in g.snapshots[key] then Some(g.snapshots[key][id]) else None
  }

  function DeltaCount(currentCount: nat, last: Option<Snapshot>): nat {
    if last.Some? then (currentCount as int - last.value.count) % TWO32 else currentCount
  }

  function EngineDelta(d: GpuData, last: Option<Snapshot>, name: string): real
    requires d.engines.Some?
  {
    Get(d.engines.value, name) - (if last.Some? && last.value.engines.Some? then Get(last.value.engines.value, name) else 0.0)
  }

  /** `m` is the largest of 0 and the members of `s`. */
  ghost predicate IsPeak(s: set<real>, m: real) {
    m >= 0.0 && (forall x <- s :: x <= m) && (m == 0.0 || m in s)
  }

  lemma {:induction false} PeakExists(s: set<real>)
    ensures exists m :: IsPeak(s, m)
    decreases |s|
  {
    if x :| x in s {
      PeakExists(s - {x});
      var m :| IsPeak(s - {x}, m);
      var top := if x > m then x else m;
      forall y | y in s
        ensures y <= top
      {
        assert y == x || y in s - {x};
      }
      assert IsPeak(s, top);
    } else {
      assert IsPeak(s, 0.0);
    }
  }

  ghost function Peak(s: set<real>): (m: real)
    ensures IsPeak(s, m)
  {
    PeakExists(s);
    var m :| IsPeak(s, m);
    m
  }

  lemma PeakIsUnique(s: set<real>, m: real)
    requires IsPeak(s, m)
    ensures m == Peak(s)
  {
  }

  /** The average since the last snapshot, over `n` new samples (calculateGPUAverage, lines 367-384). */
  ghost function AverageSince(d: GpuData, last: Option<Snapshot>, n: nat): GpuData
    requires n > 0
  {
    var base := if last.Some? then last.value else Snapshot(0, 0.0, 0.0, 0.0, None);
    var avg := d.(power := TwoDecimals((d.power - base.power) / n as real));
    if d.engines.Some? then
      var means := map e | e in d.engines.value :: EngineDelta(d, last, e) / n as real;
      avg.(engines := Some(map e | e in means :: TwoDecimals(means[e])),
           usage := TwoDecimals(Peak(means.Values)),
           powerPkg := TwoDecimals((d.powerPkg - base.powerPkg) / n as real))
    else
      avg.(usage := TwoDecimals((d.usage - base.usage) / n as real))
  }

  /** calculateGPUAverage: `known` is the last average handed out for this card under any key. */
  ghost function AverageFrom(d: GpuData, last: Option<Snapshot>, known: Option<GpuData>): GpuData {
    var n := DeltaCount(d.count % TWO32, last);
    if n == 0 then
      if d.temperature == 0.0 && d.memoryUsed == 0.0 then Blank(d.name)
      else if known.Some? then known.value else Blank("")
    else AverageSince(d, last, n)
  }

  function Known(m: map<string, GpuData>, id: string): Option<GpuData> {
    if id in m then Some(m[id]) else None
  }

  ghost function Average(g: Gpus, key: Key, id: string): GpuData
    requires id in g.totals
  {
    AverageFrom(g.totals[id], LastSnapshot(g, key, id), Known(g.lastAvg, id))
  }

  function SameName(totals: map<string, GpuData>, name: string): set<string> {
    set id | id in totals && totals[id].name == name
  }

  /** What a poll hands out for one card: instantaneous values replace averages, and cards that share a
      name are told apart by their id. */
  function Presented(totals: map<string, GpuData>, id: string, avg: GpuData): GpuData
    requires id in totals
  {
    var d := totals[id];
    var shown := avg.(temperature := TwoDecimals(d.temperature), memoryUsed := TwoDecimals(d.memoryUsed),
                      memoryTotal := TwoDecimals(d.memoryTotal));
    if |SameName(totals, d.name)| > 1 then shown.(name := d.name + " " + id) else shown
  }

  ghost function Output(g: Gpus, key: Key): map<string, GpuData> {
    map id | id in g.totals :: Presented(g.totals, id, Average(g, key, id))
  }

  predicate HasNew(g: Gpus, key: Key, id: string)
    requires id in g.totals
  {
    DeltaCount(g.totals[id].count % TWO32, LastSnapshot(g, key, id)) != 0
  }

  /** The manager after a poll: new snapshots under this key; the totals are not touched. */
  ghost function Polled(g: Gpus, key: Key): Gpus {
    var kept := if key in g.snapshots then g.snapshots[key] else map[];
    Gpus(g.totals,
         g.lastAvg + (map id | id in g.totals && HasNew(g, key, id) :: Average(g, key, id)),
         g.snapshots[key := kept + map id | id in g.totals :: SnapshotOf(g.totals[id])])
  }

  // ---------------------------------------------------------------------------------------------
  // The simple form: keep every sample, average the ones since the last poll
  // ---------------------------------------------------------------------------------------------

  function UsageOf(s: Sample): real {
    if s.CardSample? then s.usage else 0.0
  }

  function PkgOf(s: Sample): real {
    if s.EngineSample? then s.powerPkg else 0.0
  }

  function EngineOf(s: Sample, name: string): real {
    if s.EngineSample? then Get(s.engines, name) else 0.0
  }

  function SumUsage(h: seq<Sample>): real {
    if h == [] then 0.0 else SumUsage(h[..|h| - 1]) + UsageOf(h[|h| - 1])
  }

  function SumPower(h: seq<Sample>): real {
    if h == [] then 0.0 else SumPower(h[..|h| - 1]) + h[|h| - 1].power
  }

  function SumPkg(h: seq<Sample>): real {
    if h == [] then 0.0 else SumPkg(h[..|h| - 1]) + PkgOf(h[|h| - 1])
  }

  function SumEngine(h: seq<Sample>, name: string): real {
    if h == [] then 0.0 else SumEngine(h[..|h| - 1], name) + EngineOf(h[|h| - 1], name)
  }

  /** Engines ever reported, or None for a card without engines. */
  function EngineNames(h: seq<Sample>): Option<set<string>> {
    if h == [] then None
    else
      var before := EngineNames(h[..|h| - 1]);
      match h[|h| - 1]
      case CardSample(_, _, _, _, _, _) => before
      case EngineSample(_, _, engines) => Some(if before.Some? then before.value + engines.Keys else engines.Keys)
  }

  lemma {:induction false} SumsSplit(h: seq<Sample>, k: nat, name: string)
    requires k <= |h|
    ensures SumUsage(h) == SumUsage(h[..k]) + SumUsage(h[k..])
    ensures SumPower(h) == SumPower(h[..k]) + SumPower(h[k..])
    ensures SumPkg(h) == SumPkg(h[..k]) + SumPkg(h[k..])
    ensures SumEngine(h, name) == SumEngine(h[..k], name) + SumEngine(h[k..], name)
    decreases |h|
  {
    if k == |h| {
      assert h[..k] == h && h[k..] == [];
    } else {
      var init := h[..|h| - 1];
      SumsSplit(init, k, name);
      assert init[..k] == h[..k] && init[k..] == h[k..][..|h| - k - 1];
    }
  }

  datatype Event = Sample(id: string, sample: Sample) | Poll(key: Key)

  ghost function Run(events: seq<Event>): Gpus {
    if events == [] then Gpus(map[], map[], map[])
    else
      var g := Run(events[..|events| - 1]);
      match events[|events| - 1]
      case Sample(id, s) => Sampled(g, id, s)
      case Poll(key) => Polled(g, key)
  }

  /** Every sample of a card, oldest first. */
  function History(events: seq<Event>, id: string): seq<Sample> {
    if events == [] then []
    else
      var init, e := History(events[..|events| - 1], id), events[|events| - 1];
      if e.Sample? && e.id == id then init + [e.sample] else init
  }

  /** How much of that history the key's last poll had seen. */
  function Seen(events: seq<Event>, key: Key, id: string): (n: nat)
    ensures n <= |History(events, id)|
  {
    if events == [] then 0
    else if events[|events| - 1] == Poll(key) then |History(events[..|events| - 1], id)|
    else Seen(events[..|events| - 1], key, id)
  }

  function SinceLastPoll(events: seq<Event>, key: Key, id: string): seq<Sample> {
    History(events, id)[Seen(events, key, id)..]
  }

  /** A running total is the sum of its card's history. */
  ghost predicate Totals(d: GpuData, h: seq<Sample>) {
    && d.count == |h| && d.usage == SumUsage(h) && d.power == SumPower(h) && d.powerPkg == SumPkg(h)
    && (d.engines.Some? <==> EngineNames(h).Some?)
    && (d.engines.Some? ==>
          d.engines.value.Keys == EngineNames(h).value && forall e <- d.engines.value :: d.engines.value[e] == SumEngine(h, e))
  }

  lemma {:induction false} UnreportedEngine(h: seq<Sample>, e: string)
    requires EngineNames(h).None? || e !in EngineNames(h).value
    ensures SumEngine(h, e) == 0.0
    decreases |h|
  {
    if h != [] {
      UnreportedEngine(h[..|h| - 1], e);
    }
  }

  lemma TotalsGrow(d: GpuData, h: seq<Sample>, s: Sample)
    requires Totals(d, h)
    ensures Totals(Accumulated(d, s), h + [s])
  {
    var h', d' := h + [s], Accumulated(d, s);
    assert h'[..|h'| - 1] == h;
    if s.EngineSample? {
      forall e <- d'.engines.value
        ensures d'.engines.value[e] == SumEngine(h', e)
      {
        if d.engines.None? || e !in d.engines.value {
          UnreportedEngine(h, e);
        }
      }
    }
  }

  lemma TotalsStart(s: Sample)
    ensures Totals(Accumulated(Started(s), s), [s])
  {
    assert [s][..0] == [];
  }

  /** The snapshot of a key stands for the part of the history its last poll had seen. */
  ghost predicate Marks(last: Option<Snapshot>, h: seq<Sample>) {
    if h == [] then last.None?
    else last.Some? && exists d :: Totals(d, h) && last.value == SnapshotOf(d)
  }

  lemma {:induction false} RunKeepsHistory(events: seq<Event>, key: Key, id: string)
    ensures var g, h := Run(events), History(events, id);
            && (id in g.totals <==> h != [])
            && (id in g.totals ==> Totals(g.totals[id], h))
            && Marks(LastSnapshot(g, key, id), h[..Seen(events, key, id)])
    decreases |events|
  {
    if events != [] {
      var init, e := events[..|events| - 1], events[|events| - 1];
      RunKeepsHistory(init, key, id);
      var g, h := Run(init), History(init, id);
      if e.Sample? && e.id == id {
        if h == [] {
          TotalsStart(e.sample);
        } else {
          TotalsGrow(g.totals[id], h, e.sample);
        }
        assert History(events, id)[..Seen(events, key, id)] == h[..Seen(init, key, id)];
      } else if e == Poll(key) {
        assert h[..|h|] == h;
      }
    }
  }

  /** The mean of a segment, for a card whose engines are those of its whole history. */
  ghost predicate IsMeanOf(avg: GpuData, d: GpuData, segment: seq<Sample>, names: Option<set<string>>)
    requires segment != []
  {
    var n := |segment| as real;
    && avg.power == TwoDecimals(SumPower(segment) / n)
    && (names.None? ==> avg.engines.None? && avg.usage == TwoDecimals(SumUsage(segment) / n))
    && (names.Some? ==>
          && avg.engines == Some(map e | e in names.value :: TwoDecimals(SumEngine(segment, e) / n))
          && avg.usage == TwoDecimals(Peak((map e | e in names.value :: SumEngine(segment, e) / n).Values))
          && avg.powerPkg == TwoDecimals(SumPkg(segment) / n))
    && avg == d.(power := avg.power, usage := avg.usage, powerPkg := avg.powerPkg, engines := avg.engines)
  }

  lemma SnapshotsDiffer(h: seq<Sample>, k: nat, d: GpuData, last: Option<Snapshot>, e: string)
    requires k <= |h| && Totals(d, h) && Marks(last, h[..k])
    ensures var base := if last.Some? then last.value else Snapshot(0, 0.0, 0.0, 0.0, None);
            && d.usage - base.usage == SumUsage(h[k..])
            && d.power - base.power == SumPower(h[k..])
            && d.powerPkg - base.powerPkg == SumPkg(h[k..])
            && (d.engines.Some? ==> EngineDelta(d, last, e) == SumEngine(h[k..], e))
  {
    SumsSplit(h, k, e);
    if last.Some? {
      var past :| Totals(past, h[..k]) && last.value == SnapshotOf(past);
      if past.engines.None? || e !in past.engines.value {
        UnreportedEngine(h[..k], e);
      }
    }
    if d.engines.Some? && e !in d.engines.value {
      UnreportedEngine(h, e);
    }
  }

  lemma CountsDiffer(h: seq<Sample>, k: nat, d: GpuData, last: Option<Snapshot>)
    requires k <= |h| && Totals(d, h) && Marks(last, h[..k])
    ensures DeltaCount(d.count % TWO32, last) == |h[k..]| % TWO32
  {
  }

  lemma EngineMeans(h: seq<Sample>, k: nat, d: GpuData, last: Option<Snapshot>, n: nat)
    requires k <= |h| && Totals(d, h) && Marks(last, h[..k]) && d.engines.Some? && n > 0
    ensures (map e | e in d.engines.value :: EngineDelta(d, last, e) / n as real)
            == map e | e in EngineNames(h).value :: SumEngine(h[k..], e) / n as real
  {
    forall e | e in d.engines.value
      ensures EngineDelta(d, last, e) == SumEngine(h[k..], e)
    {
      SnapshotsDiffer(h, k, d, last, e);
    }
  }

  lemma AverageIsMean(h: seq<Sample>, k: nat, d: GpuData, last: Option<Snapshot>)
    requires k < |h| && Totals(d, h) && Marks(last, h[..k])
    ensures IsMeanOf(AverageSince(d, last, |h[k..]|), d, h[k..], EngineNames(h))
  {
    var segment := h[k..];
    var n := |segment|;
    var avg := AverageSince(d, last, n);
    SnapshotsDiffer(h, k, d, last, "");
    assert avg.power == TwoDecimals(SumPower(segment) / n as real);
    if d.engines.Some? {
      EngineMeans(h, k, d, last, n);
      RoundedEngineMeans(EngineNames(h).value, segment, n);
    }
  }

  lemma RoundedEngineMeans(names: set<string>, segment: seq<Sample>, n: nat)
    requires n > 0
    ensures var means := map e | e in names :: SumEngine(segment, e) / n as real;
            (map e | e in means :: TwoDecimals(means[e])) == map e | e in names :: TwoDecimals(SumEngine(segment, e) / n as real)
  {
  }

  lemma AverageOfHistory(g: Gpus, key: Key, id: string, h: seq<Sample>, k: nat)
    requires k <= |h| && 0 < |h[k..]| < TWO32
    requires id in g.totals && Totals(g.totals[id], h) && Marks(LastSnapshot(g, key, id), h[..k])
    ensures DeltaCount(g.totals[id].count % TWO32, LastSnapshot(g, key, id)) == |h[k..]|
    ensures IsMeanOf(Average(g, key, id), g.totals[id], h[k..], EngineNames(h))
  {
    CountsDiffer(h, k, g.totals[id], LastSnapshot(g, key, id));
    AverageIsMean(h, k, g.totals[id], LastSnapshot(g, key, id));
  }

  /** The fast form refines the simple one: whatever polls other keys interleave, a poll with new samples
      averages exactly the samples since this key's previous poll. */
  lemma PollAveragesNewSamples(events: seq<Event>, key: Key, id: string)
    requires 0 < |SinceLastPoll(events, key, id)| < TWO32
    ensures var g, segment := Run(events), SinceLastPoll(events, key, id);
            && id in g.totals
            && DeltaCount(g.totals[id].count % TWO32, LastSnapshot(g, key, id)) == |segment|
            && IsMeanOf(Average(g, key, id), g.totals[id], segment, EngineNames(History(events, id)))
  {
    RunKeepsHistory(events, key, id);
    AverageOfHistory(Run(events), key, id, History(events, id), Seen(events, key, id));
  }

  /** The samples each of a key's polls averaged, in order. */
  function Segments(events: seq<Event>, key: Key, id: string): seq<seq<Sample>> {
    if events == [] then []
    else
      var init := events[..|events| - 1];
      if events[|events| - 1] == Poll(key) then Segments(init, key, id) + [SinceLastPoll(init, key, id)] else Segments(init, key, id)
  }

  function Flatten(segments: seq<seq<Sample>>): seq<Sample> {
    if segments == [] then [] else Flatten(segments[..|segments| - 1]) + segments[|segments| - 1]
  }

  /** A key's successive segments, and what it has not polled yet, partition the history. */
  lemma {:induction false} SegmentsPartitionHistory(events: seq<Event>, key: Key, id: string)
    ensures Flatten(Segments(events, key, id)) == History(events, id)[..Seen(events, key, id)]
    ensures Flatten(Segments(events, key, id)) + SinceLastPoll(events, key, id) == History(events, id)
    decreases |events|
  {
    if events != [] {
      var init := events[..|events| - 1];
      SegmentsPartitionHistory(init, key, id);
      var before := Segments(init, key, id);
      if events[|events| - 1] == Poll(key) {
        var after := Segments(events, key, id);
        assert after[..|after| - 1] == before;
      }
    }
  }

  function LengthSum(segments: seq<seq<Sample>>): nat {
    if segments == [] then 0 else LengthSum(segments[..|segments| - 1]) + |segments[|segments| - 1]|
  }

  function UsageSum(segments: seq<seq<Sample>>): real {
    if segments == [] then 0.0 else UsageSum(segments[..|segments| - 1]) + SumUsage(segments[|segments| - 1])
  }

  function PowerSum(segments: seq<seq<Sample>>): real {
    if segments == [] then 0.0 else PowerSum(segments[..|segments| - 1]) + SumPower(segments[|segments| - 1])
  }

  function PkgSum(segments: seq<seq<Sample>>): real {
    if segments == [] then 0.0 else PkgSum(segments[..|segments| - 1]) + SumPkg(segments[|segments| - 1])
  }

  function EngineSum(segments: seq<seq<Sample>>, name: string): real {
    if segments == [] then 0.0 else EngineSum(segments[..|segments| - 1], name) + SumEngine(segments[|segments| - 1], name)
  }

  lemma {:induction false} FlattenSums(segments: seq<seq<Sample>>, name: string)
    ensures |Flatten(segments)| == LengthSum(segments)
    ensures SumUsage(Flatten(segments)) == UsageSum(segments)
    ensures SumPower(Flatten(segments)) == PowerSum(segments)
    ensures SumPkg(Flatten(segments)) == PkgSum(segments)
    ensures SumEngine(Flatten(segments), name) == EngineSum(segments, name)
    decreases |segments|
  {
    if segments != [] {
      var init := segments[..|segments| - 1];
      FlattenSums(init, name);
      var whole := Flatten(segments);
      SumsSplit(whole, |Flatten(init)|, name);
      assert whole[..|Flatten(init)|] == Flatten(init) && whole[|Flatten(init)|..] == segments[|segments| - 1];
    }
  }

  /** So the delta counts and delta sums of a key's polls, with what is still to be polled, add up to the
      running totals: usage, both powers, and every engine, where one that was never reported counts as 0. */
  lemma DeltasAddUpToTotals(events: seq<Event>, key: Key, id: string, engine: string)
    requires id in Run(events).totals
    ensures var d, segments, rest := Run(events).totals[id], Segments(events, key, id), SinceLastPoll(events, key, id);
            && d.count == LengthSum(segments) + |rest|
            && d.usage == UsageSum(segments) + SumUsage(rest)
            && d.power == PowerSum(segments) + SumPower(rest)
            && d.powerPkg == PkgSum(segments) + SumPkg(rest)
            && (if d.engines.Some? then Get(d.engines.value, engine) else 0.0) == EngineSum(segments, engine) + SumEngine(rest, engine)
  {
    var h, k := History(events, id), Seen(events, key, id);
    RunKeepsHistory(events, key, id);
    SegmentsPartitionHistory(events, key, id);
    FlattenSums(Segments(events, key, id), engine);
    SumsSplit(h, k, engine);
    if EngineNames(h).None? || engine !in EngineNames(h).value {
      UnreportedEngine(h, engine);
    }
  }

  // ---------------------------------------------------------------------------------------------
  // What a poll shows besides the averages
  // ---------------------------------------------------------------------------------------------

  /** The latest line that nvidia-smi printed for a card. */
  function LatestLine(h: seq<Sample>): (line: Option<Sample>)
    ensures line.Some? ==> line.value.CardSample?
  {
    if h == [] then None
    else if h[|h| - 1].CardSample? then Some(h[|h| - 1])
    else LatestLine(h[..|h| - 1])
  }

  /** The name a card got with its first sample. */
  function FirstName(h: seq<Sample>): string
    requires h != []
  {
    if h[0].CardSample? then h[0].name else "GPU"
  }

  /** What a poll hands out for a card. */
  ghost function Shown(g: Gpus, key: Key, id: string): GpuData
    requires id in g.totals
  {
    Output(g, key)[id]
  }

  predicate ShowsLatest(d: GpuData, h: seq<Sample>) {
    var line := LatestLine(h);
    && h != [] && d.name == FirstName(h)
    && d.temperature == (if line.Some? then line.value.temperature else 0.0)
    && d.memoryUsed == (if line.Some? then line.value.memoryUsed / 1.024 else 0.0)
    && d.memoryTotal == (if line.Some? then line.value.memoryTotal / 1.024 else 0.0)
  }

  lemma OneMoreShows(d: GpuData, h: seq<Sample>, s: Sample)
    ensures ShowsLatest(d, h) ==> ShowsLatest(Accumulated(d, s), h + [s])
    ensures ShowsLatest(Accumulated(Started(s), s), [s])
  {
    assert (h + [s])[..|h|] == h && [s][..0] == [];
  }

  lemma {:induction false} TotalsShowLatest(events: seq<Event>, id: string)
    requires id in Run(events).totals
    ensures ShowsLatest(Run(events).totals[id], History(events, id))
    decreases |events|
  {
    hide ShowsLatest, Accumulated, Started, Totals, Marks, Seen;
    var init, e := events[..|events| - 1], events[|events| - 1];
    RunKeepsHistory(init, 0, id);
    if id in Run(init).totals {
      TotalsShowLatest(init, id);
    }
    if e.Sample? && e.id == id {
      OneMoreShows(if id in Run(init).totals then Run(init).totals[id] else Started(e.sample), History(init, id), e.sample);
      assert [] + [e.sample] == [e.sample];
    }
  }

  /** Temperature and memory are not averages: a poll shows those of the card's latest line, memory in megabytes and all
      rounded to hundredths, or 0 for a card that has none. */
  lemma PollShowsLatest(events: seq<Event>, key: Key, id: string)
    requires id in Run(events).totals
    ensures var shown, line := Shown(Run(events), key, id), LatestLine(History(events, id));
            && shown.temperature == TwoDecimals(if line.Some? then line.value.temperature else 0.0)
            && shown.memoryUsed == TwoDecimals(if line.Some? then line.value.memoryUsed / 1.024 else 0.0)
            && shown.memoryTotal == TwoDecimals(if line.Some? then line.value.memoryTotal / 1.024 else 0.0)
  {
    hide Run, TwoDecimals, Average;
    TotalsShowLatest(events, id);
  }

  lemma PresentedNames(totals: map<string, GpuData>, id: string, avg: GpuData)
    requires id in totals
    ensures Presented(totals, id, avg).name ==
            if exists other | other in totals :: other != id && totals[other].name == totals[id].name
            then totals[id].name + " " + id else avg.name
  {
    var same := SameName(totals, totals[id].name);
    assert id in same;
    if other :| other in totals && other != id && totals[other].name == totals[id].name {
      assert other in same && {id, other} <= same;
      SubsetSize({id, other}, same);
    } else {
      assert same == {id};
    }
  }

  lemma SubsetSize<T>(a: set<T>, b: set<T>)
    requires a <= b
    ensures |a| <= |b|
  {
    assert b == a + (b - a);
  }

  /** A card with new samples is shown under the name of its first sample, with its ID after it exactly if another card has
      that name too. */
  lemma NamesAreToldApart(events: seq<Event>, key: Key, id: string)
    requires 0 < |SinceLastPoll(events, key, id)| < TWO32
    ensures id in Run(events).totals && History(events, id) != []
    ensures var name := FirstName(History(events, id));
            Shown(Run(events), key, id).name == if exists other :: other != id && IsNamed(events, other, name) then name + " " + id else name
  {
    hide Run, Average, IsMeanOf, Presented, FirstName, SinceLastPoll, History;
    var g := Run(events);
    PollAveragesNewSamples(events, key, id);
    MeanKeepsName(Average(g, key, id), g.totals[id], SinceLastPoll(events, key, id), EngineNames(History(events, id)));
    forall other
      ensures other in g.totals <==> History(events, other) != []
      ensures other in g.totals ==> g.totals[other].name == FirstName(History(events, other))
    {
      RunKeepsHistory(events, key, other);
      if other in g.totals {
        TotalsShowLatest(events, other);
      }
    }
    NamedInTotals(events, g, id);
    PresentedNames(g.totals, id, Average(g, key, id));
  }

  /** There is such a card, with the name given. */
  predicate IsNamed(events: seq<Event>, id: string, name: string) {
    History(events, id) != [] && FirstName(History(events, id)) == name
  }

  lemma NamedInTotals(events: seq<Event>, g: Gpus, id: string)
    requires id in g.totals
    requires forall other :: other in g.totals <==> History(events, other) != []
    requires forall other :: other in g.totals ==> g.totals[other].name == FirstName(History(events, other))
    ensures (exists other | other in g.totals :: other != id && g.totals[other].name == g.totals[id].name) <==>
            exists other :: other != id && IsNamed(events, other, g.totals[id].name)
  {
    hide History, FirstName;
    if other :| other in g.totals && other != id && g.totals[other].name == g.totals[id].name {
      assert IsNamed(events, other, g.totals[id].name);
    }
  }

  lemma MeanKeepsName(avg: GpuData, d: GpuData, segment: seq<Sample>, names: Option<set<string>>)
    requires segment != [] && IsMeanOf(avg, d, segment, names)
    ensures avg.name == d.name
  {
  }

  /** What the last poll with new samples of a card, under whatever key, averaged. */
  ghost function LastAverage(events: seq<Event>, id: string): Option<GpuData> {
    if events == [] then None
    else
      var init, e := events[..|events| - 1], events[|events| - 1];
      if e.Poll? && id in Run(init).totals && |SinceLastPoll(init, e.key, id)| % TWO32 != 0 then Some(Average(Run(init), e.key, id))
      else LastAverage(init, id)
  }

  lemma HasNewIff(events: seq<Event>, key: Key, id: string)
    requires id in Run(events).totals
    ensures HasNew(Run(events), key, id) <==> |SinceLastPoll(events, key, id)| % TWO32 != 0
  {
    hide Run;
    RunKeepsHistory(events, key, id);
    CountsDiffer(History(events, id), Seen(events, key, id), Run(events).totals[id], LastSnapshot(Run(events), key, id));
  }

  lemma {:induction false} KnownIsLastAverage(events: seq<Event>, id: string)
    ensures Known(Run(events).lastAvg, id) == LastAverage(events, id)
    decreases |events|
  {
    hide Average, SinceLastPoll, HasNew;
    if events != [] {
      var init, e := events[..|events| - 1], events[|events| - 1];
      KnownIsLastAverage(init, id);
      if e.Poll? && id in Run(init).totals {
        HasNewIff(init, e.key, id);
      }
    }
  }

  /** A poll without new samples shows a card without temperature and memory in use as idle, and any other one as the last
      poll that had new samples did. */
  lemma PollWithoutNewSamples(events: seq<Event>, key: Key, id: string)
    requires id in Run(events).totals && |SinceLastPoll(events, key, id)| % TWO32 == 0
    ensures var d, avg, last := Run(events).totals[id], Average(Run(events), key, id), LastAverage(events, id);
            if d.temperature == 0.0 && d.memoryUsed == 0.0
            then avg.name == d.name && avg.usage == avg.power == avg.powerPkg == 0.0 && avg.count == 0 && avg.engines.None?
            else if last.Some? then avg == last.value
            else avg.name == "" && avg.usage == avg.power == avg.powerPkg == 0.0 && avg.count == 0 && avg.engines.None?
  {
    hide Run, LastAverage, SinceLastPoll;
    HasNewIff(events, key, id);
    KnownIsLastAverage(events, id);
  }
}
