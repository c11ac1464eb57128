/** Container network rates: agent/docker.go lines 279-349 and the read times of lines 566-570. */
module DockerNetwork {
  import opened Common
  import opened UInt64
  import opened Deltas
  import opened NetworkSpec

  const MAX_NETWORK_SPEED_BPS: nat := 5_000_000_000

  /** One interface of a container, as the engine reports it. */
  datatype Interface = Interface(tx: u64, rx: u64)

  /** What is kept for one polling interval. */
  datatype Readings = Readings(sent: Tracks<string>, recv: Tracks<string>, times: map<string, nat>)
  {
    function Measured(id: string, totalSent: u64, totalRecv: u64): Readings {
      Readings(sent.With(id, totalSent), recv.With(id, totalRecv), times)
    }

    function ReadAt(id: string, now: nat): Readings {
      this.(times := times[id := now])
    }

    function Cycled(): Readings {
      this.(sent := sent.Cycled(), recv := recv.Cycled())
    }

    /** Milliseconds since this container's last reading; 0 when there is none. */
    function Elapsed(id: string, now: nat): u64 {
      if id in times then Milliseconds(now, times[id]) else 0
    }
  }

  const NO_TRACKS: Tracks<string> := Tracks(map[], map[])

  function SumTx(networks: seq<Interface>): u64 {
    if networks == [] then 0 else Add(SumTx(networks[..|networks| - 1]), networks[|networks| - 1].tx)
  }

  function SumRx(networks: seq<Interface>): u64 {
    if networks == [] then 0 else Add(SumRx(networks[..|networks| - 1]), networks[|networks| - 1].rx)
  }

  /** Bytes per second, with implausible values shown as 0. */
  function PlausibleRate(rawDelta: u64, ms: u64): u64 {
    if ms == 0 || rawDelta == 0 || PerSecond(rawDelta, ms) > MAX_NETWORK_SPEED_BPS then 0 else PerSecond(rawDelta, ms)
  }

  class DockerManager {
    var networkSentTrackers: map<Key, DeltaTracker<string>>
    var networkRecvTrackers: map<Key, DeltaTracker<string>>
    var lastNetworkReadTime: map<Key, map<string, nat>>

    ghost predicate Valid()
      reads this
    {
      && (forall j, k :: j in networkSentTrackers && k in networkSentTrackers && j != k ==> networkSentTrackers[j] != networkSentTrackers[k])
      && (forall j, k :: j in networkRecvTrackers && k in networkRecvTrackers && j != k ==> networkRecvTrackers[j] != networkRecvTrackers[k])
      && networkSentTrackers.Values !! networkRecvTrackers.Values
    }

    ghost function View(key: Key): Readings
      reads this, networkSentTrackers.Values, networkRecvTrackers.Values
    {
      Readings(if key in networkSentTrackers then networkSentTrackers[key].View() else NO_TRACKS,
               if key in networkRecvTrackers then networkRecvTrackers[key].View() else NO_TRACKS,
               if key in lastNetworkReadTime then lastNetworkReadTime[key] else map[])
    }

    constructor ()
      ensures Valid() && forall k :: View(k) == Readings(NO_TRACKS, NO_TRACKS, map[])
    {
      networkSentTrackers, networkRecvTrackers, lastNetworkReadTime := map[], map[], map[];
    }

    method GetNetworkTracker(cacheTimeMs: Key, isSent: bool) returns (tracker: DeltaTracker<string>)
      requires Valid()
      modifies this`networkSentTrackers, this`networkRecvTrackers
      ensures Valid() && forall k :: View(k) == old(View(k))
      ensures isSent ==> cacheTimeMs in networkSentTrackers && tracker == networkSentTrackers[cacheTimeMs]
      ensures !isSent ==> cacheTimeMs in networkRecvTrackers && tracker == networkRecvTrackers[cacheTimeMs]
      ensures networkSentTrackers == if isSent then old(networkSentTrackers)[cacheTimeMs := tracker] else old(networkSentTrackers)
      ensures networkRecvTrackers == if isSent then old(networkRecvTrackers) else old(networkRecvTrackers)[cacheTimeMs := tracker]
      ensures tracker in old(networkSentTrackers.Values) || tracker in old(networkRecvTrackers.Values) || fresh(tracker)
    {
      if isSent {
        if cacheTimeMs !in networkSentTrackers {
          tracker := new DeltaTracker();
          assert forall k :: k in networkSentTrackers ==> networkSentTrackers[k] in old(networkSentTrackers.Values);
          networkSentTrackers := networkSentTrackers[cacheTimeMs := tracker];
        }
        tracker := networkSentTrackers[cacheTimeMs];
      } else {
        if cacheTimeMs !in networkRecvTrackers {
          tracker := new DeltaTracker();
          assert forall k :: k in networkRecvTrackers ==> networkRecvTrackers[k] in old(networkRecvTrackers.Values);
          networkRecvTrackers := networkRecvTrackers[cacheTimeMs := tracker];
        }
        tracker := networkRecvTrackers[cacheTimeMs];
      }
    }

    method CycleNetworkDeltasForCacheTime(cacheTimeMs: Key)
      requires Valid()
      modifies networkSentTrackers.Values, networkRecvTrackers.Values
      ensures View(cacheTimeMs) == old(View(cacheTimeMs)).Cycled()
      ensures forall k :: k != cacheTimeMs ==> View(k) == old(View(k))
    {
      if cacheTimeMs in networkSentTrackers {
        networkSentTrackers[cacheTimeMs].Cycle();
      }
      if cacheTimeMs in networkRecvTrackers {
        networkRecvTrackers[cacheTimeMs].Cycle();
      }
    }

    method CalculateNetworkStats(idShort: string, networks: seq<Interface>, cacheTimeMs: Key, now: nat)
      returns (sentDelta: u64, recvDelta: u64)
      requires Valid()
      modifies this`networkSentTrackers, this`networkRecvTrackers, networkSentTrackers.Values, networkRecvTrackers.Values
      ensures Valid() && View(cacheTimeMs) == old(View(cacheTimeMs)).Measured(idShort, SumTx(networks), SumRx(networks))
      ensures forall k :: k != cacheTimeMs ==> View(k) == old(View(k))
      ensures var r := View(cacheTimeMs); var ms := r.Elapsed(idShort, now);
              sentDelta == PlausibleRate(r.sent.Delta(idShort), ms) && recvDelta == PlausibleRate(r.recv.Delta(idShort), ms)
    {
      hide PlausibleRate, Milliseconds;
      var totalSent, totalRecv := SumInterfaces(networks);
      var sentRaw, recvRaw := RecordTotals(idShort, totalSent, totalRecv, cacheTimeMs);
      var times := if cacheTimeMs in lastNetworkReadTime then lastNetworkReadTime[cacheTimeMs] else map[];
      sentDelta, recvDelta := Rates(sentRaw, recvRaw, times, idShort, now);
    }

    /** Lines 321-345: the raw differences as rates, if there is an earlier reading to measure from. */
    static method Rates(sentRaw: u64, recvRaw: u64, times: map<string, nat>, idShort: string, now: nat)
      returns (sentDelta: u64, recvDelta: u64)
      ensures var ms := if idShort in times then Milliseconds(now, times[idShort]) else 0;
              sentDelta == PlausibleRate(sentRaw, ms) && recvDelta == PlausibleRate(recvRaw, ms)
    {
      sentDelta, recvDelta := 0, 0;
      if idShort in times {
        var msElapsed := Milliseconds(now, times[idShort]);
        if msElapsed > 0 {
          if sentRaw > 0 {
            sentDelta := PerSecond(sentRaw, msElapsed);
            if sentDelta > MAX_NETWORK_SPEED_BPS {
              sentDelta := 0;
            }
          }
          if recvRaw > 0 {
            recvDelta := PerSecond(recvRaw, msElapsed);
            if recvDelta > MAX_NETWORK_SPEED_BPS {
              recvDelta := 0;
            }
          }
        }
      }
    }

    /** Stores the totals in this interval's trackers and reads back the raw differences. */
    method RecordTotals(idShort: string, totalSent: u64, totalRecv: u64, cacheTimeMs: Key)
      returns (sentRaw: u64, recvRaw: u64)
      requires Valid()
      modifies this`networkSentTrackers, this`networkRecvTrackers, networkSentTrackers.Values, networkRecvTrackers.Values
      ensures Valid() && View(cacheTimeMs) == old(View(cacheTimeMs)).Measured(idShort, totalSent, totalRecv)
      ensures forall k :: k != cacheTimeMs ==> View(k) == old(View(k))
      ensures sentRaw == View(cacheTimeMs).sent.Delta(idShort)
      ensures recvRaw == View(cacheTimeMs).recv.Delta(idShort)
    {
      var sentTracker := GetNetworkTracker(cacheTimeMs, true);
      var recvTracker := GetNetworkTracker(cacheTimeMs, false);
      sentRaw, recvRaw := SetTotals(sentTracker, recvTracker, idShort, totalSent, totalRecv, cacheTimeMs);
    }

    method SetTotals(sentTracker: DeltaTracker<string>, recvTracker: DeltaTracker<string>, idShort: string, totalSent: u64, totalRecv: u64,
                     ghost cacheTimeMs: Key)
      returns (sentRaw: u64, recvRaw: u64)
      requires Valid() && cacheTimeMs in networkSentTrackers && cacheTimeMs in networkRecvTrackers
      requires sentTracker == networkSentTrackers[cacheTimeMs] && recvTracker == networkRecvTrackers[cacheTimeMs]
      modifies sentTracker, recvTracker
      ensures Valid() && View(cacheTimeMs) == old(View(cacheTimeMs)).Measured(idShort, totalSent, totalRecv)
      ensures forall k :: k != cacheTimeMs ==> View(k) == old(View(k))
      ensures sentRaw == View(cacheTimeMs).sent.Delta(idShort)
      ensures recvRaw == View(cacheTimeMs).recv.Delta(idShort)
    {
      assert sentTracker in networkSentTrackers.Values && recvTracker in networkRecvTrackers.Values;
      assert forall k :: k in networkSentTrackers ==> networkSentTrackers[k] in networkSentTrackers.Values;
      assert forall k :: k in networkRecvTrackers ==> networkRecvTrackers[k] in networkRecvTrackers.Values;
      sentTracker.Set(idShort, totalSent);
      recvTracker.Set(idShort, totalRecv);
      OnlyThisInterval(cacheTimeMs);
      sentRaw := sentTracker.Delta(idShort);
      recvRaw := recvTracker.Delta(idShort);
    }

    twostate lemma OnlyThisInterval(cacheTimeMs: Key)
      requires Valid() && cacheTimeMs in networkSentTrackers && cacheTimeMs in networkRecvTrackers
      requires networkSentTrackers == old(networkSentTrackers) && networkRecvTrackers == old(networkRecvTrackers)
      requires lastNetworkReadTime == old(lastNetworkReadTime)
      requires forall k :: k in networkSentTrackers && k != cacheTimeMs ==> unchanged(networkSentTrackers[k])
      requires forall k :: k in networkRecvTrackers && k != cacheTimeMs ==> unchanged(networkRecvTrackers[k])
      ensures forall k :: k != cacheTimeMs ==> View(k) == old(View(k))
    {
      forall k | k != cacheTimeMs
        ensures View(k) == old(View(k))
      {
        assert k in networkSentTrackers ==> networkSentTrackers[k].View() == old(networkSentTrackers[k].View());
        assert k in networkRecvTrackers ==> networkRecvTrackers[k].View() == old(networkRecvTrackers[k].View());
      }
    }

    static method SumInterfaces(networks: seq<Interface>) returns (totalSent: u64, totalRecv: u64)
      ensures totalSent == SumTx(networks) && totalRecv == SumRx(networks)
    {
      totalSent, totalRecv := 0, 0;
      for i := 0 to |networks|
        invariant totalSent == SumTx(networks[..i]) && totalRecv == SumRx(networks[..i])
      {
        assert networks[..i + 1][..i] == networks[..i];
        totalSent := Add(totalSent, networks[i].tx);
        totalRecv := Add(totalRecv, networks[i].rx);
      }
      assert networks[..|networks|] == networks;
    }

    /** updateContainerStats, lines 563-570: the rates, then the time of this reading. */
    method UpdateContainerNetwork(idShort: string, networks: seq<Interface>, cacheTimeMs: Key, now: nat)
      returns (sentDelta: u64, recvDelta: u64)
      requires Valid()
      modifies this, networkSentTrackers.Values, networkRecvTrackers.Values
      ensures Valid() && View(cacheTimeMs) == old(View(cacheTimeMs)).Measured(idShort, SumTx(networks), SumRx(networks)).ReadAt(idShort, now)
      ensures forall k :: k != cacheTimeMs ==> View(k) == old(View(k))
      ensures var r := old(View(cacheTimeMs)).Measured(idShort, SumTx(networks), SumRx(networks)); var ms := r.Elapsed(idShort, now);
              sentDelta == PlausibleRate(r.sent.Delta(idShort), ms) && recvDelta == PlausibleRate(r.recv.Delta(idShort), ms)
    {
      sentDelta, recvDelta := CalculateNetworkStats(idShort, networks, cacheTimeMs, now);
      StoreReadTime(idShort, cacheTimeMs, now);
    }

    method StoreReadTime(idShort: string, cacheTimeMs: Key, now: nat)
      modifies this`lastNetworkReadTime
      ensures View(cacheTimeMs) == old(View(cacheTimeMs)).ReadAt(idShort, now)
      ensures forall k :: k != cacheTimeMs ==> View(k) == old(View(k))
    {
      if cacheTimeMs !in lastNetworkReadTime {
        lastNetworkReadTime := lastNetworkReadTime[cacheTimeMs := map[]];
      }
      var times: map<string, nat> := lastNetworkReadTime[cacheTimeMs];
      times := times[idShort := now];
      lastNetworkReadTime := lastNetworkReadTime[cacheTimeMs := times];
    }
  }

  // ---------------------------------------------------------------------------------------------
  // Properties
  // ---------------------------------------------------------------------------------------------

  /** The bytes that all interfaces of a container have sent or received, without any limit on the sum. */
  function Transferred(networks: seq<Interface>, sent: bool): nat {
    if networks == [] then 0
    else
      var v := networks[|networks| - 1];
      Transferred(networks[..|networks| - 1], sent) + if sent then v.tx else v.rx
  }

  /** The recorded totals are those sums, in 64 bits. */
  lemma {:induction false} TotalsAreSums(networks: seq<Interface>)
    ensures SumTx(networks) == Transferred(networks, true) % 0x1_0000_0000_0000_0000
    ensures SumRx(networks) == Transferred(networks, false) % 0x1_0000_0000_0000_0000
    decreases |networks|
  {
    if networks != [] {
      var init, v := networks[..|networks| - 1], networks[|networks| - 1];
      TotalsAreSums(init);
      AddWraps(Transferred(init, true), v.tx);
      AddWraps(Transferred(init, false), v.rx);
    }
  }

  /** Bandwidth that a container could have: above five gigabytes a second it is shown as 0. */
  function Plausible(bandwidth: int): int {
    if bandwidth <= 5_000_000_000 then bandwidth else 0
  }

  lemma PlausibleRateIs(cur: u64, prev: u64, ms: u64)
    ensures PlausibleRate(Sub(cur, prev), ms) == Plausible(Bandwidth(cur, prev, ms))
  {
    WrapsToItself(cur);
    WrapsToItself(prev);
    TotalIsBandwidth(cur, prev, ms);
    if ms > 0 {
      NoBytes(ms);
    }
  }

  lemma NoBytes(ms: u64)
    requires ms > 0
    ensures PerSecond(0, ms) == 0
  {
  }

  /** The total is below the previous one, by no more than 2^63 / 1000 bytes. */
  predicate Fell(t: Tracks<string>, id: string, total: u64) {
    id in t.previous && total < t.previous[id] && 1000 * (t.previous[id] - total) <= 0x8000_0000_0000_0000
  }

  /** A container counter that went back within 9.2e8 ms is shown as 0, in either direction, whatever the other
      direction does. */
  lemma BackwardsContainerCounterShowsZero(r: Readings, id: string, totalSent: u64, totalRecv: u64, ms: u64)
    requires ms <= 920_000_000
    ensures var m := r.Measured(id, totalSent, totalRecv);
            && (Fell(r.sent, id, totalSent) ==> PlausibleRate(m.sent.Delta(id), ms) == 0)
            && (Fell(r.recv, id, totalRecv) ==> PlausibleRate(m.recv.Delta(id), ms) == 0)
  {
    FallIsImplausible(r.sent, id, totalSent, ms);
    FallIsImplausible(r.recv, id, totalRecv, ms);
  }

  lemma FallIsImplausible(t: Tracks<string>, id: string, total: u64, ms: u64)
    requires ms <= 920_000_000
    ensures Fell(t, id, total) ==> PlausibleRate(t.With(id, total).Delta(id), ms) == 0
  {
    if Fell(t, id, total) && ms > 0 {
      FallLandsAboveHostLimit(total, t.previous[id], ms);
    }
  }

  /** One container in one round of polling. */
  datatype Sample = Sample(id: string, sent: u64, recv: u64, now: nat)

  /** A whole round under one interval: every container, then the cycle (line 226). */
  function Measure(r: Readings, round: seq<Sample>): Readings {
    if round == [] then r
    else
      var s := round[|round| - 1];
      Measure(r, round[..|round| - 1]).Measured(s.id, s.sent, s.recv).ReadAt(s.id, s.now)
  }

  function Find(round: seq<Sample>, id: string): Option<Sample> {
    if round == [] then None
    else if round[|round| - 1].id == id then Some(round[|round| - 1])
    else Find(round[..|round| - 1], id)
  }

  lemma {:induction false} MeasureOne(r: Readings, round: seq<Sample>, id: string)
    ensures var m, s := Measure(r, round), Find(round, id);
            && m.sent.previous == r.sent.previous && m.recv.previous == r.recv.previous
            && Remembered(m.sent.current, id) == (if s.Some? then Some(s.value.sent) else Remembered(r.sent.current, id))
            && Remembered(m.recv.current, id) == (if s.Some? then Some(s.value.recv) else Remembered(r.recv.current, id))
            && (s.Some? ==> id in m.times && m.times[id] == s.value.now)
            && (s.None? ==> (id in m.times <==> id in r.times) && (id in r.times ==> m.times[id] == r.times[id]))
    decreases |round|
  {
    if round != [] {
      MeasureOne(r, round[..|round| - 1], id);
    }
  }

  /** What a container's reading in one round is compared with is exactly its reading in the round before;
      a container that was not in that round is shown as 0. */
  lemma RateUsesPreviousRound(r: Readings, before: seq<Sample>, earlier: seq<Sample>, s: Sample)
    requires r.sent.current == r.recv.current == map[]
    ensures var now := Measure(Measure(r, before).Cycled(), earlier);
            var prev := Find(before, s.id);
            var m := now.Measured(s.id, s.sent, s.recv);
            && (prev.None? ==> m.sent.Delta(s.id) == 0 && m.recv.Delta(s.id) == 0)
            && (prev.Some? ==> m.sent.Delta(s.id) == Sub(s.sent, prev.value.sent) && m.recv.Delta(s.id) == Sub(s.recv, prev.value.recv))
            && (prev.Some? && Find(earlier, s.id).None? ==> m.Elapsed(s.id, s.now) == Milliseconds(s.now, prev.value.now))
  {
    MeasureOne(r, before, s.id);
    MeasureOne(Measure(r, before).Cycled(), earlier, s.id);
  }

  /** So what is shown for a container once in each of two rounds is the bandwidth between the two readings, in each
      direction, unless that is implausible. */
  lemma ContainerBandwidth(r: Readings, before: seq<Sample>, earlier: seq<Sample>, s: Sample)
    requires r.sent.current == r.recv.current == map[]
    requires Find(before, s.id).Some? && Find(earlier, s.id).None? && Find(before, s.id).value.now <= s.now
    ensures var m := Measure(Measure(r, before).Cycled(), earlier).Measured(s.id, s.sent, s.recv);
            var prev := Find(before, s.id).value;
            var ms := (s.now - prev.now) / 1_000_000 % 0x1_0000_0000_0000_0000;
            && PlausibleRate(m.sent.Delta(s.id), m.Elapsed(s.id, s.now)) == Plausible(Bandwidth(s.sent, prev.sent, ms))
            && PlausibleRate(m.recv.Delta(s.id), m.Elapsed(s.id, s.now)) == Plausible(Bandwidth(s.recv, prev.recv, ms))
  {
    hide PlausibleRate, Measure, Find;
    var prev := Find(before, s.id).value;
    RateUsesPreviousRound(r, before, earlier, s);
    PlausibleRateIs(s.sent, prev.sent, Milliseconds(s.now, prev.now));
    PlausibleRateIs(s.recv, prev.recv, Milliseconds(s.now, prev.now));
  }
}
