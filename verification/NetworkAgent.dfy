/** The agent's network collector: agent/network.go lines 79-235, in the source's imperative form. */
module NetworkAgent {
  import opened Common
  import opened UInt64
  import opened Deltas
  import opened NetworkSpec

  /** The network part of the record being filled for one collection. */
  class SystemStats {
    var networkInterfaces: map<string, NicRate>
    var bandwidthUp: u64
    var bandwidthDown: u64

    constructor ()
      ensures networkInterfaces == map[] && bandwidthUp == bandwidthDown == 0
    {
      networkInterfaces, bandwidthUp, bandwidthDown := map[], 0, 0;
    }
  }

  class Agent {
    var netInterfaces: set<string>
    var netIoStats: map<Key, Baseline>
    var trackers: map<Key, DeltaTracker<string>>

    ghost predicate Valid()
      reads this
    {
      forall j, k :: j in trackers && k in trackers && j != k ==> trackers[j] != trackers[k]
    }

    ghost function View(): Net
      reads this, trackers.Values
    {
      Net(netInterfaces, netIoStats, map k | k in trackers :: trackers[k].View())
    }

    constructor (detected: set<string>)
      ensures Valid() && View() == Initialized(detected)
    {
      netInterfaces, netIoStats, trackers := detected, map[], map[];
    }

    method InitializeNetIoStats(detected: set<string>)
      modifies this
      ensures Valid() && View() == Initialized(detected) && trackers == map[]
    {
      netInterfaces := detected;
      trackers := map[];
      netIoStats := map[];
    }

    method EnsureNetInterfacesInitialized(detected: set<string>)
      requires Valid()
      modifies this
      ensures Valid() && trackers.Values <= old(trackers.Values)
      ensures View() == Ensured(old(View()), detected)
    {
      if netInterfaces == {} {
        InitializeNetIoStats(detected);
      }
    }

    method LoadAndTickNetBaseline(cacheTimeMs: Key, now: nat) returns (netIoStat: Baseline, msElapsed: u64)
      ensures msElapsed == SlotOf(View(), cacheTimeMs).Elapsed(now)
      ensures netIoStat.time == now
      ensures cacheTimeMs in netIoStats ==> netIoStat == netIoStats[cacheTimeMs].(time := now)
      ensures cacheTimeMs !in netIoStats ==> netIoStat == Baseline(0, 0, now)
    {
      if cacheTimeMs !in netIoStats {
        return Baseline(0, 0, now), 0;
      }
      netIoStat := netIoStats[cacheTimeMs];
      msElapsed := Milliseconds(now, netIoStat.time);
      netIoStat := netIoStat.(time := now);
    }

    /** The tracker of an interval, created on first use. */
    method TrackerFor(cacheTimeMs: Key) returns (tracker: DeltaTracker<string>)
      requires Valid()
      modifies this`trackers
      ensures Valid() && cacheTimeMs in trackers && trackers[cacheTimeMs] == tracker
      ensures tracker.View() == TracksOf(old(View()), cacheTimeMs)
      ensures trackers == old(trackers)[cacheTimeMs := tracker]
      ensures View() == old(View()).(trackers := old(View()).trackers[cacheTimeMs := tracker.View()])
      ensures tracker in old(trackers.Values) || fresh(tracker)
    {
      if cacheTimeMs in trackers {
        return trackers[cacheTimeMs];
      }
      tracker := new DeltaTracker();
      assert forall k :: k in trackers ==> trackers[k] in old(trackers.Values);
      trackers := trackers[cacheTimeMs := tracker];
      TrackerAdded(cacheTimeMs);
    }

    twostate lemma TrackerAdded(cacheTimeMs: Key)
      requires cacheTimeMs in trackers && trackers == old(trackers)[cacheTimeMs := trackers[cacheTimeMs]]
      requires netInterfaces == old(netInterfaces) && netIoStats == old(netIoStats)
      requires forall k :: k in old(trackers) ==> unchanged(old(trackers[k]))
      ensures View() == old(View()).(trackers := old(View()).trackers[cacheTimeMs := trackers[cacheTimeMs].View()])
    {
    }

    method SumAndTrackPerNicDeltas(cacheTimeMs: Key, msElapsed: u64, netIO: seq<Counter>, stats: SystemStats)
      returns (totalSent: u64, totalRecv: u64)
      requires Valid()
      modifies this`trackers, trackers.Values, stats`networkInterfaces
      ensures Valid() && fresh(trackers.Values - old(trackers.Values))
      ensures var s := SumAll(netInterfaces, msElapsed,
                              Sums(0, 0, TracksOf(old(View()), cacheTimeMs).Cycled(), old(stats.networkInterfaces)), netIO);
              && totalSent == s.sent == Wrap(Bytes(netInterfaces, netIO, true))
              && totalRecv == s.recv == Wrap(Bytes(netInterfaces, netIO, false))
              && stats.networkInterfaces == s.rates
              && View() == old(View()).(trackers := old(View()).trackers[cacheTimeMs := s.tracks])
    {
      var tracker := TrackerFor(cacheTimeMs);
      label found:
      tracker.Cycle();
      ghost var start := Sums(0, 0, TracksOf(old(View()), cacheTimeMs).Cycled(), old(stats.networkInterfaces));
      assert start == Sums(0, 0, tracker.View(), stats.networkInterfaces);
      totalSent, totalRecv := SumOnto(tracker, msElapsed, netIO, stats);
      assert SumAll(netInterfaces, msElapsed, start, netIO) == Sums(totalSent, totalRecv, tracker.View(), stats.networkInterfaces);
      TotalsAreSums(netInterfaces, msElapsed, start, netIO);
      OneTrackerChanged@found(cacheTimeMs);
      UpdateTwice(old(View()).trackers, cacheTimeMs, old@found(tracker.View()), tracker.View());
    }

    static lemma UpdateTwice<K, V>(m: map<K, V>, k: K, v: V, w: V)
      ensures m[k := v][k := w] == m[k := w]
    {
    }

    twostate lemma OneTrackerChanged(cacheTimeMs: Key)
      requires Valid() && cacheTimeMs in trackers && trackers == old(trackers)
      requires netInterfaces == old(netInterfaces) && netIoStats == old(netIoStats)
      requires forall k :: k in trackers && k != cacheTimeMs ==> unchanged(trackers[k])
      ensures View() == old(View()).(trackers := old(View()).trackers[cacheTimeMs := trackers[cacheTimeMs].View()])
    {
    }

    /** The loop over the counters of one sample. */
    method SumOnto(tracker: DeltaTracker<string>, msElapsed: u64, netIO: seq<Counter>, stats: SystemStats)
      returns (totalSent: u64, totalRecv: u64)
      modifies tracker, stats`networkInterfaces
      ensures SumAll(netInterfaces, msElapsed, Sums(0, 0, old(tracker.View()), old(stats.networkInterfaces)), netIO)
              == Sums(totalSent, totalRecv, tracker.View(), stats.networkInterfaces)
    {
      totalSent, totalRecv := 0, 0;
      ghost var start := Sums(0, 0, tracker.View(), stats.networkInterfaces);
      for i := 0 to |netIO|
        invariant tracker.View().previous == start.tracks.previous
        invariant SumAll(netInterfaces, msElapsed, start, netIO[..i]) == Sums(totalSent, totalRecv, tracker.View(), stats.networkInterfaces)
      {
        var v := netIO[i];
        assert netIO[..i + 1][..i] == netIO[..i];
        if v.name !in netInterfaces {
          continue;
        }
        totalSent := Add(totalSent, v.sent);
        totalRecv := Add(totalRecv, v.recv);
        var upDelta, downDelta: u64 := 0, 0;
        var upKey, downKey := UpKey(v.name), DownKey(v.name);
        tracker.Set(upKey, v.sent);
        tracker.Set(downKey, v.recv);
        if msElapsed > 0 {
          var prevUp, okUp := tracker.Previous(upKey);
          if okUp {
            var deltaBytes := if v.sent >= prevUp then v.sent - prevUp else v.sent;
            upDelta := PerSecond(deltaBytes, msElapsed);
          }
          var prevDown, okDown := tracker.Previous(downKey);
          if okDown {
            var deltaBytes := if v.recv >= prevDown then v.recv - prevDown else v.recv;
            downDelta := PerSecond(deltaBytes, msElapsed);
          }
        }
        stats.networkInterfaces := stats.networkInterfaces[v.name := NicRate(upDelta, downDelta, v.sent, v.recv)];
      }
      assert netIO[..|netIO|] == netIO;
    }

    method ComputeBytesPerSecond(msElapsed: u64, totalSent: u64, totalRecv: u64, nis: Baseline)
      returns (upPerSecond: u64, downPerSecond: u64)
      ensures upPerSecond == TotalPerSecond(msElapsed, totalSent, nis.sent)
      ensures downPerSecond == TotalPerSecond(msElapsed, totalRecv, nis.recv)
    {
      upPerSecond, downPerSecond := 0, 0;
      if msElapsed > 0 {
        upPerSecond := PerSecond(Sub(totalSent, nis.sent), msElapsed);
        downPerSecond := PerSecond(Sub(totalRecv, nis.recv), msElapsed);
      }
    }

    method ApplyNetworkTotals(cacheTimeMs: Key, detected: set<string>, stats: SystemStats, nis: Baseline,
                              totalSent: u64, totalRecv: u64, upPerSecond: u64, downPerSecond: u64)
      requires Valid()
      modifies this, stats`bandwidthUp, stats`bandwidthDown
      ensures Valid() && trackers.Values <= old(trackers.Values)
      ensures if upPerSecond > MAX_HOST_RATE || downPerSecond > MAX_HOST_RATE
              then View() == Initialized(detected) && stats.bandwidthUp == stats.bandwidthDown == 0
              else View() == old(View()).(baselines := old(netIoStats)[cacheTimeMs := Baseline(totalSent, totalRecv, nis.time)])
                   && stats.bandwidthUp == upPerSecond && stats.bandwidthDown == downPerSecond
    {
      if upPerSecond > 10_000_000_000 || downPerSecond > 10_000_000_000 {
        InitializeNetIoStats(detected);
        netIoStats := netIoStats - {cacheTimeMs};
        trackers := trackers - {cacheTimeMs};
        stats.bandwidthUp, stats.bandwidthDown := 0, 0;
        return;
      }
      stats.bandwidthUp, stats.bandwidthDown := upPerSecond, downPerSecond;
      netIoStats := netIoStats[cacheTimeMs := nis.(sent := totalSent, recv := totalRecv)];
    }

    /** One collection. `sample` is None when the counters could not be read; `detected` and `redetected`
        are what enumerating interfaces finds at the start and after an anomaly. The caller passes a
        record it has just created (agent/system.go). */
    method UpdateNetworkStats(cacheTimeMs: Key, now: nat, sample: Option<seq<Counter>>, stats: SystemStats,
                              detected: set<string>, redetected: set<string>)
      requires Valid() && stats.networkInterfaces == map[] && stats.bandwidthUp == stats.bandwidthDown == 0
      modifies this, trackers.Values, stats
      ensures Valid()
      ensures sample.None? ==> View() == Ensured(old(View()), detected)
      ensures sample.None? ==> stats.networkInterfaces == map[] && stats.bandwidthUp == stats.bandwidthDown == 0
      ensures sample.Some? ==>
                var p := Poll(cacheTimeMs, now, sample.value, detected, redetected);
                && View() == Polled(old(View()), p)
                && Published(stats.bandwidthUp, stats.bandwidthDown, stats.networkInterfaces) == Shows(old(View()), p)
    {
      EnsureNetInterfacesInitialized(detected);
      ghost var net := View();
      if sample.Some? {
        ghost var slot := SlotOf(net, cacheTimeMs);
        ghost var s := slot.Summed(net.nics, now, sample.value);
        var nis, msElapsed := LoadAndTickNetBaseline(cacheTimeMs, now);
        var totalSent, totalRecv := SumAndTrackPerNicDeltas(cacheTimeMs, msElapsed, sample.value, stats);
        assert totalSent == s.sent && totalRecv == s.recv && stats.networkInterfaces == s.rates;
        assert View() == net.(trackers := net.trackers[cacheTimeMs := s.tracks]);
        var upPerSecond, downPerSecond := ComputeBytesPerSecond(msElapsed, totalSent, totalRecv, nis);
        assert upPerSecond == slot.Up(net.nics, now, sample.value);
        assert downPerSecond == slot.Down(net.nics, now, sample.value);
        ApplyNetworkTotals(cacheTimeMs, redetected, stats, nis, totalSent, totalRecv, upPerSecond, downPerSecond);
      }
    }
  }
}
