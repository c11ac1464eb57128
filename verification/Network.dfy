/** Per-interval network rates as values: agent/network.go lines 79-235.

    The model does not enumerate interfaces: what a fresh enumeration (lines 93-114) finds is a
    parameter. Clock readings are nanoseconds. */
module NetworkSpec {
  import opened Common
  import opened UInt64
  import opened Deltas

  const NS_PER_MS: nat := 1_000_000
  const MAX_HOST_RATE: nat := 10_000_000_000

  type Key = x: int | 0 <= x < 0x1_0000

  datatype Counter = Counter(name: string, sent: u64, recv: u64)

  datatype Baseline = Baseline(sent: u64, recv: u64, time: nat)

  datatype NicRate = NicRate(up: u64, down: u64, sent: u64, recv: u64)

  /** The network part of the agent. */
  datatype Net = Net(nics: set<string>, baselines: map<Key, Baseline>, trackers: map<Key, Tracks<string>>)

  datatype Published = Published(up: u64, down: u64, rates: map<string, NicRate>)

  function UpKey(name: string): string {
    name + "up"
  }

  function DownKey(name: string): string {
    name + "down"
  }

  function Milliseconds(now: nat, since: nat): u64 {
    if now >= since then Wrap((now - since) / NS_PER_MS) else Wrap(-((since - now) / NS_PER_MS))
  }

  /** Bytes since the previous reading; a reading that went down counts from zero. */
  function NicDelta(cur: u64, prev: u64): u64 {
    if cur >= prev then cur - prev else cur
  }

  function PerSecond(bytes: u64, ms: u64): u64
    requires ms > 0
  {
    Wrap(bytes * 1000) / ms
  }

  function NicPerSecond(cur: u64, id: string, previous: map<string, u64>, ms: u64): u64 {
    if ms > 0 && id in previous then PerSecond(NicDelta(cur, previous[id]), ms) else 0
  }

  function TotalPerSecond(ms: u64, total: u64, base: u64): u64 {
    if ms > 0 then PerSecond(Sub(total, base), ms) else 0
  }

  // ---------------------------------------------------------------------------------------------
  // One poll
  // ---------------------------------------------------------------------------------------------

  datatype Sums = Sums(sent: u64, recv: u64, tracks: Tracks<string>, rates: map<string, NicRate>)

  function SumStep(nics: set<string>, ms: u64, s: Sums, v: Counter): Sums {
    if v.name !in nics then s
    else
      var prev := s.tracks.previous;
      Sums(Add(s.sent, v.sent), Add(s.recv, v.recv),
           s.tracks.With(UpKey(v.name), v.sent).With(DownKey(v.name), v.recv),
           s.rates[v.name := NicRate(NicPerSecond(v.sent, UpKey(v.name), prev, ms),
                                     NicPerSecond(v.recv, DownKey(v.name), prev, ms), v.sent, v.recv)])
  }

  function SumAll(nics: set<string>, ms: u64, start: Sums, netIO: seq<Counter>): Sums {
    if netIO == [] then start
    else SumStep(nics, ms, SumAll(nics, ms, start, netIO[..|netIO| - 1]), netIO[|netIO| - 1])
  }

  function Initialized(detected: set<string>): Net {
    Net(detected, map[], map[])
  }

  /** What the agent keeps for one polling interval. */
  datatype Slot = Slot(base: Option<Baseline>, tracks: Tracks<string>)
  {
    function Elapsed(now: nat): u64 {
      if base.Some? then Milliseconds(now, base.value.time) else 0
    }

    function Summed(nics: set<string>, now: nat, netIO: seq<Counter>): Sums {
      SumAll(nics, Elapsed(now), Sums(0, 0, tracks.Cycled(), map[]), netIO)
    }

    function Up(nics: set<string>, now: nat, netIO: seq<Counter>): u64 {
      TotalPerSecond(Elapsed(now), Summed(nics, now, netIO).sent, if base.Some? then base.value.sent else 0)
    }

    function Down(nics: set<string>, now: nat, netIO: seq<Counter>): u64 {
      TotalPerSecond(Elapsed(now), Summed(nics, now, netIO).recv, if base.Some? then base.value.recv else 0)
    }

    predicate Anomalous(nics: set<string>, now: nat, netIO: seq<Counter>) {
      Up(nics, now, netIO) > MAX_HOST_RATE || Down(nics, now, netIO) > MAX_HOST_RATE
    }

    /** The slot after a poll that is not anomalous. */
    function Next(nics: set<string>, now: nat, netIO: seq<Counter>): Slot {
      var s := Summed(nics, now, netIO);
      Slot(Some(Baseline(s.sent, s.recv, now)), s.tracks)
    }

    function Output(nics: set<string>, now: nat, netIO: seq<Counter>): Published {
      var rates := Summed(nics, now, netIO).rates;
      if Anomalous(nics, now, netIO) then Published(0, 0, rates)
      else Published(Up(nics, now, netIO), Down(nics, now, netIO), rates)
    }
  }

  function TracksOf(net: Net, key: Key): Tracks<string> {
    if key in net.trackers then net.trackers[key] else Tracks(map[], map[])
  }

  function SlotOf(net: Net, key: Key): Slot {
    Slot(if key in net.baselines then Some(net.baselines[key]) else None, TracksOf(net, key))
  }

  predicate Anomalous(net: Net, key: Key, now: nat, netIO: seq<Counter>) {
    SlotOf(net, key).Anomalous(net.nics, now, netIO)
  }

  /** The agent after a successful poll; `detected` is what a re-enumeration would find. */
  function After(net: Net, key: Key, now: nat, netIO: seq<Counter>, detected: set<string>): Net {
    if Anomalous(net, key, now, netIO) then Initialized(detected)
    else
      var next := SlotOf(net, key).Next(net.nics, now, netIO);
      net.(baselines := net.baselines[key := next.base.value], trackers := net.trackers[key := next.tracks])
  }

  function Output(net: Net, key: Key, now: nat, netIO: seq<Counter>): Published {
    SlotOf(net, key).Output(net.nics, now, netIO)
  }

  /** ensureNetInterfacesInitialized, at the start of every poll: an agent that knows no interface enumerates
      again, and forgets everything. */
  function Ensured(net: Net, detected: set<string>): Net {
    if net.nics == {} then Initialized(detected) else net
  }

  // ---------------------------------------------------------------------------------------------
  // A counter that goes backwards
  // ---------------------------------------------------------------------------------------------

  /** The numerator of the rate when the total fell by `d`. */
  lemma FallenNumerator(total: u64, base: u64)
    requires total < base
    ensures Wrap(Sub(total, base) * 1000) == Wrap(-1000 * (base - total))
  {
    SubCases(total, base);
    var d: int := base - total;
    assert (TWO64 - d) * 1000 == -1000 * d + 1000 * TWO64;
    ModPlusMultiple(-1000 * d, 1000);
  }

  lemma ModPlusMultiple(x: int, k: int)
    ensures (x + k * TWO64) % TWO64 == x % TWO64
  {
    var q, r := x / TWO64, x % TWO64;
    assert x + k * TWO64 == (q + k) * TWO64 + r;
    DivModUnique(x + k * TWO64, q + k, r);
  }

  lemma DivModUnique(x: int, q: int, r: int)
    requires x == q * TWO64 + r && 0 <= r < TWO64
    ensures x % TWO64 == r
  {
  }

  lemma DivisionBounds(x: nat, ms: nat)
    requires ms > 0
    ensures ms * (x / ms) <= x < ms * (x / ms + 1)
  {
  }

  lemma QuotientAbove(x: nat, ms: nat, limit: nat)
    requires ms > 0
    ensures x / ms > limit <==> x >= (limit + 1) * ms
  {
    var q := x / ms;
    DivisionBounds(x, ms);
    if q > limit {
      MulMonotone(limit + 1, q, ms);
    } else {
      MulMonotone(q + 1, limit + 1, ms);
    }
  }

  /** What multiplying a fall of `d` bytes by 1000 leaves, modulo 2^64. */
  function FallNumerator(d: nat): u64 {
    if 1000 * d % TWO64 == 0 then 0 else TWO64 - 1000 * d % TWO64
  }

  lemma FallRate(total: u64, base: u64, ms: u64)
    requires total < base && ms > 0
    ensures TotalPerSecond(ms, total, base) == FallNumerator(base - total) / ms
  {
    FallenNumerator(total, base);
    NegatedResidue(1000 * (base - total));
  }

  lemma NegatedResidue(x: int)
    requires x >= 0
    ensures Wrap(-x) == if x % TWO64 == 0 then 0 else TWO64 - x % TWO64
  {
    var q, r := x / TWO64, x % TWO64;
    if r == 0 {
      DivModUnique(-x, -q, 0);
    } else {
      DivModUnique(-x, -q - 1, TWO64 - r);
    }
  }

  /** A fall of `d` bytes is above `limit` over every elapsed time up to `maxMs` exactly when the
      residue of 1000 * d leaves room below 2^64. */
  lemma FallAlwaysAboveLimit(total: u64, base: u64, maxMs: u64, limit: nat)
    requires total < base && maxMs > 0
    ensures (forall ms: u64 | 0 < ms <= maxMs :: TotalPerSecond(ms, total, base) > limit)
            <==> 0 < 1000 * (base - total) % TWO64 <= TWO64 - (limit + 1) * maxMs
  {
    var x := FallNumerator(base - total);
    PositiveProduct(limit, maxMs);
    FallRate(total, base, maxMs);
    QuotientAbove(x, maxMs, limit);
    if x >= (limit + 1) * maxMs {
      forall ms: u64 | 0 < ms <= maxMs
        ensures TotalPerSecond(ms, total, base) > limit
      {
        FallRate(total, base, ms);
        MulMonotone(ms, maxMs, limit + 1);
        QuotientAbove(x, ms, limit);
      }
    }
  }

  lemma MulMonotone(a: int, b: int, k: nat)
    requires a <= b
    ensures k * a <= k * b
  {
  }

  lemma PositiveProduct(limit: nat, ms: int)
    requires ms > 0
    ensures (limit + 1) * ms > 0
  {
  }

  /** Up to 2^63 / 1000 bytes and 9.2e8 milliseconds, a fall always lands above the host limit. */
  lemma FallLandsAboveHostLimit(total: u64, base: u64, ms: u64)
    requires total < base && 1000 * (base - total) <= 0x8000_0000_0000_0000
    requires 0 < ms <= 920_000_000
    ensures TotalPerSecond(ms, total, base) > MAX_HOST_RATE
  {
    var x := FallNumerator(base - total);
    FallRate(total, base, ms);
    SmallFallNumerator(base - total);
    MulMonotone(ms, 920_000_000, MAX_HOST_RATE + 1);
    QuotientAbove(x, ms, MAX_HOST_RATE);
  }

  lemma SmallFallNumerator(d: nat)
    requires 0 < 1000 * d <= 0x8000_0000_0000_0000
    ensures FallNumerator(d) >= 0x8000_0000_0000_0000
  {
  }

  /** The bound on the fall matters: this one would be shown as a plausible 1 GB/s. */
  lemma LargeFallCanLookLikeTraffic()
    ensures var base: u64, total: u64 := 0x2000_0000_0000_0000, 1_000_000;
            total < base && TotalPerSecond(1, total, base) == 1_000_000_000
  {
    FallRate(1_000_000, 0x2000_0000_0000_0000, 1);
  }

  /** A total fell since the key's last poll, by no more than 2^63 / 1000 bytes and within 9.2e8 ms. */
  predicate Fell(net: Net, key: Key, now: nat, netIO: seq<Counter>) {
    var slot := SlotOf(net, key);
    slot.base.Some? && 0 < slot.Elapsed(now) <= 920_000_000 &&
    var s, b := slot.Summed(net.nics, now, netIO), slot.base.value;
    || (s.sent < b.sent && 1000 * (b.sent - s.sent) <= 0x8000_0000_0000_0000)
    || (s.recv < b.recv && 1000 * (b.recv - s.recv) <= 0x8000_0000_0000_0000)
  }

  predicate AllZero(rates: map<string, NicRate>) {
    forall n <- rates :: rates[n].up == 0 && rates[n].down == 0
  }

  /** A backwards counter is never published as traffic in the totals: the poll shows 0 and every baseline and
      tracker is forgotten. The rate of the interface that fell is another matter: it is reckoned from the new
      reading alone, as after a restart of the counter, and published in the same poll. */
  lemma BackwardsCounterIsNotTraffic(net: Net, key: Key, now: nat, netIO: seq<Counter>, detected: set<string>)
    requires Fell(net, key, now, netIO)
    ensures Output(net, key, now, netIO).up == 0 && Output(net, key, now, netIO).down == 0
    ensures After(net, key, now, netIO, detected) == Initialized(detected)
  {
    var slot := SlotOf(net, key);
    var s, b, ms := slot.Summed(net.nics, now, netIO), slot.base.value, slot.Elapsed(now);
    if s.sent < b.sent && 1000 * (b.sent - s.sent) <= 0x8000_0000_0000_0000 {
      FallLandsAboveHostLimit(s.sent, b.sent, ms);
    } else {
      FallLandsAboveHostLimit(s.recv, b.recv, ms);
    }
  }

  /** A key's first poll, as after a reset, sees no elapsed time: it publishes no traffic at all and is
      never taken for another anomaly. */
  lemma FirstPollShowsNoTraffic(net: Net, key: Key, now: nat, netIO: seq<Counter>)
    requires key !in net.baselines
    ensures SlotOf(net, key).Elapsed(now) == 0 && !Anomalous(net, key, now, netIO)
    ensures var next := Output(net, key, now, netIO); next.up == next.down == 0 && AllZero(next.rates)
  {
    NoRatesWithoutElapsedTime(net.nics, 0, TracksOf(net, key).Cycled(), netIO);
  }

  lemma {:induction false} NoRatesWithoutElapsedTime(nics: set<string>, ms: u64, t: Tracks<string>, netIO: seq<Counter>)
    requires ms == 0
    ensures AllZero(SumAll(nics, ms, Sums(0, 0, t, map[]), netIO).rates)
    decreases |netIO|
  {
    if netIO != [] {
      NoRatesWithoutElapsedTime(nics, ms, t, netIO[..|netIO| - 1]);
    }
  }

  // ---------------------------------------------------------------------------------------------
  // Per-interface rates
  // ---------------------------------------------------------------------------------------------

  /** Up and down keys of different interfaces never collide. */
  lemma KeysNeverCollide(a: string, b: string)
    ensures UpKey(a) != DownKey(b)
    ensures UpKey(a) == UpKey(b) ==> a == b
    ensures DownKey(a) == DownKey(b) ==> a == b
  {
    assert UpKey(a)[|UpKey(a)| - 1] == 'p' && DownKey(b)[|DownKey(b)| - 1] == 'n';
    assert UpKey(a)[..|a|] == a && UpKey(b)[..|b|] == b;
    assert DownKey(a)[..|a|] == a && DownKey(b)[..|b|] == b;
  }

  /** The reading of one interface in a sample (the last, should a name repeat). */
  function Reading(nics: set<string>, netIO: seq<Counter>, n: string): Option<Counter> {
    if n !in nics || netIO == [] then None
    else if netIO[|netIO| - 1].name == n then Some(netIO[|netIO| - 1])
    else Reading(nics, netIO[..|netIO| - 1], n)
  }

  function Remembered(t: map<string, u64>, id: string): Option<u64> {
    if id in t then Some(t[id]) else None
  }

  function Shown(rates: map<string, NicRate>, n: string): Option<NicRate> {
    if n in rates then Some(rates[n]) else None
  }

  /** What the loop over a sample does for one interface, whatever the other interfaces are. */
  lemma {:induction false} SampleOfOneNic(nics: set<string>, ms: u64, t: Tracks<string>, netIO: seq<Counter>, n: string)
    ensures var s, r := SumAll(nics, ms, Sums(0, 0, t.Cycled(), map[]), netIO), Reading(nics, netIO, n);
            && s.tracks.previous == t.current
            && Remembered(s.tracks.current, UpKey(n)) == (if r.Some? then Some(r.value.sent) else None)
            && Remembered(s.tracks.current, DownKey(n)) == (if r.Some? then Some(r.value.recv) else None)
            && Shown(s.rates, n) ==
               (if r.Some? then Some(NicRate(NicPerSecond(r.value.sent, UpKey(n), t.current, ms),
                                             NicPerSecond(r.value.recv, DownKey(n), t.current, ms), r.value.sent, r.value.recv))
                else None)
    decreases |netIO|
  {
    if netIO != [] {
      var init, v := netIO[..|netIO| - 1], netIO[|netIO| - 1];
      SampleOfOneNic(nics, ms, t, init, n);
      KeysNeverCollide(n, v.name);
      KeysNeverCollide(v.name, n);
      if n !in nics {
        assert Reading(nics, init, n).None?;
      }
    }
  }

  /** A poll under a key. `found` and `refound` are what enumerating interfaces would find at its start and after
      an anomaly. */
  datatype Poll = Poll(key: Key, now: nat, netIO: seq<Counter>, found: set<string>, refound: set<string>)

  function Polled(net: Net, p: Poll): Net {
    After(Ensured(net, p.found), p.key, p.now, p.netIO, p.refound)
  }

  function Shows(net: Net, p: Poll): Published {
    Output(Ensured(net, p.found), p.key, p.now, p.netIO)
  }

  function Run(net: Net, polls: seq<Poll>): Net {
    if polls == [] then net else Polled(Run(net, polls[..|polls| - 1]), polls[|polls| - 1])
  }

  /** The poll finds its interfaces known and does not take the reset branch. */
  predicate IsQuiet(net: Net, p: Poll) {
    net.nics != {} && !Anomalous(net, p.key, p.now, p.netIO)
  }

  /** All polls of the run are quiet, under whatever key. */
  predicate Quiet(net: Net, polls: seq<Poll>) {
    polls == [] || (Quiet(net, polls[..|polls| - 1]) && IsQuiet(Run(net, polls[..|polls| - 1]), polls[|polls| - 1]))
  }

  /** The most recent poll under a key. */
  function LastPoll(polls: seq<Poll>, key: Key): Option<Poll> {
    if polls == [] then None
    else if polls[|polls| - 1].key == key then Some(polls[|polls| - 1])
    else LastPoll(polls[..|polls| - 1], key)
  }

  /** Only the polls under a key. */
  function Only(polls: seq<Poll>, key: Key): seq<Poll> {
    if polls == [] then []
    else
      var init := Only(polls[..|polls| - 1], key);
      if polls[|polls| - 1].key == key then init + [polls[|polls| - 1]] else init
  }

  /** A quiet poll moves its own key's slot, and no other. */
  lemma PollMovesOneSlot(net: Net, p: Poll, key: Key)
    requires IsQuiet(net, p)
    ensures var after := Polled(net, p);
            && after.nics == net.nics
            && SlotOf(after, key) == if p.key == key then SlotOf(net, key).Next(net.nics, p.now, p.netIO) else SlotOf(net, key)
  {
  }

  /** Being quiet is exactly what another key's poll must be in order to leave a slot alone that has anything in
      it: an agent that knows no interface, like one that meets an anomaly, forgets the slots of all keys. */
  lemma OtherSlotKeptIff(net: Net, p: Poll, key: Key)
    requires key != p.key
    ensures SlotOf(Polled(net, p), key) == SlotOf(net, key) <==> IsQuiet(net, p) || SlotOf(net, key) == Slot(None, Tracks(map[], map[]))
  {
  }

  /** Two polls of an agent that finds no interface: the second one, under another key, drops what the first one kept. */
  lemma NoInterfacesNoMemory()
    ensures var first, second := Poll(2, 0, [], {}, {}), Poll(1, 0, [], {}, {});
            && SlotOf(Run(Initialized({}), [first]), 2) == Slot(Some(Baseline(0, 0, 0)), Tracks(map[], map[]))
            && SlotOf(Run(Initialized({}), [first, second]), 2) == Slot(None, Tracks(map[], map[]))
  {
    var first, second := Poll(2, 0, [], {}, {}), Poll(1, 0, [], {}, {});
    assert [first, second][..1] == [first] && [first][..0] == [];
    assert Run(Initialized({}), []) == Initialized({});
    assert Run(Initialized({}), [first]) == Polled(Initialized({}), first);
  }

  /** Polls under other keys change nothing for a key: its slot after the run is the one after its own polls
      alone, and so is what its next poll publishes. */
  lemma {:induction false} OtherKeysDoNotInterfere(net: Net, polls: seq<Poll>, key: Key)
    requires Quiet(net, polls)
    ensures Quiet(net, Only(polls, key))
    ensures Run(net, polls).nics == Run(net, Only(polls, key)).nics == net.nics
    ensures SlotOf(Run(net, polls), key) == SlotOf(Run(net, Only(polls, key)), key)
    decreases |polls|
  {
    if polls != [] {
      var init, last := polls[..|polls| - 1], polls[|polls| - 1];
      OtherKeysDoNotInterfere(net, init, key);
      PollMovesOneSlot(Run(net, init), last, key);
      if last.key == key {
        var only := Only(polls, key);
        assert only[..|only| - 1] == Only(init, key);
        PollMovesOneSlot(Run(net, Only(init, key)), last, key);
      }
    }
  }

  lemma OtherKeysDoNotChangeOutput(net: Net, polls: seq<Poll>, p: Poll)
    requires Quiet(net, polls)
    ensures Shows(Run(net, polls), p) == Shows(Run(net, Only(polls, p.key)), p)
  {
    OtherKeysDoNotInterfere(net, polls, p.key);
  }

  function Direction(c: Counter, upload: bool): u64 {
    if upload then c.sent else c.recv
  }

  function DirectionKey(n: string, upload: bool): string {
    if upload then UpKey(n) else DownKey(n)
  }

  function DirectionRate(r: NicRate, upload: bool): u64 {
    if upload then r.up else r.down
  }

  /** What an interface's counter stood at in a sample. */
  function Level(nics: set<string>, netIO: seq<Counter>, n: string, upload: bool): Option<u64> {
    var r := Reading(nics, netIO, n);
    if r.Some? then Some(Direction(r.value, upload)) else None
  }

  /** What it stood at in the last poll under a key. */
  function PreviousLevel(nics: set<string>, polls: seq<Poll>, key: Key, n: string, upload: bool): Option<u64> {
    var p := LastPoll(polls, key);
    if p.Some? then Level(nics, p.value.netIO, n, upload) else None
  }

  /** After a quiet run from a fresh start, what is kept under a key is exactly its last poll. */
  lemma {:induction false} KeepsLastPoll(nics: set<string>, polls: seq<Poll>, key: Key, n: string, upload: bool)
    requires Quiet(Initialized(nics), polls)
    ensures var net, p := Run(Initialized(nics), polls), LastPoll(polls, key);
            && net.nics == nics
            && (SlotOf(net, key).base.Some? <==> p.Some?)
            && (p.Some? ==> SlotOf(net, key).base.value.time == p.value.now)
            && Remembered(SlotOf(net, key).tracks.current, DirectionKey(n, upload)) == PreviousLevel(nics, polls, key, n, upload)
    decreases |polls|
  {
    if polls != [] {
      var init, last := polls[..|polls| - 1], polls[|polls| - 1];
      KeepsLastPoll(nics, init, key, n, upload);
      if last.key == key {
        var net := Run(Initialized(nics), init);
        SampleOfOneNic(net.nics, SlotOf(net, key).Elapsed(last.now), TracksOf(net, key), last.netIO, n);
      }
      PollMovesOneSlot(Run(Initialized(nics), init), last, key);
    }
  }

  /** Milliseconds since the previous poll under the same key; 0 for the first. */
  function Interval(polls: seq<Poll>, p: Poll): u64 {
    var q := LastPoll(polls, p.key);
    if q.None? then 0
    else if p.now >= q.value.now then (p.now - q.value.now) / 1_000_000 % 0x1_0000_0000_0000_0000
    else -((q.value.now - p.now) / 1_000_000) % 0x1_0000_0000_0000_0000
  }

  /** The published rate of one interface depends on its two latest levels under the key and the time
      between them, and on nothing else of the run: the bytes since the previous level, or all of the new one if the
      counter fell, as thousandths of a second reckon them. */
  lemma PublishedRate(nics: set<string>, polls: seq<Poll>, p: Poll, n: string, upload: bool)
    requires nics != {} && Quiet(Initialized(nics), polls)
    ensures var rates := Shows(Run(Initialized(nics), polls), p).rates;
            var ms, cur, prev := Interval(polls, p), Level(nics, p.netIO, n, upload), PreviousLevel(nics, polls, p.key, n, upload);
            (n in rates <==> cur.Some?) &&
            (n in rates ==>
               DirectionRate(rates[n], upload) ==
               if ms > 0 && prev.Some? then
                 (if cur.value >= prev.value then cur.value - prev.value else cur.value) * 1000 % 0x1_0000_0000_0000_0000 / ms
               else 0)
  {
    hide Run, Quiet, Level, PreviousLevel, Interval, Shows;
    RateOfLevels(nics, polls, p, n, upload);
  }

  lemma RateOfLevels(nics: set<string>, polls: seq<Poll>, p: Poll, n: string, upload: bool)
    requires nics != {} && Quiet(Initialized(nics), polls)
    ensures var rates := Shows(Run(Initialized(nics), polls), p).rates;
            var ms, cur, prev := Interval(polls, p), Level(nics, p.netIO, n, upload), PreviousLevel(nics, polls, p.key, n, upload);
            (n in rates <==> cur.Some?) &&
            (n in rates ==>
               DirectionRate(rates[n], upload) ==
               if ms > 0 && prev.Some? then PerSecond(NicDelta(cur.value, prev.value), ms) else 0)
  {
    hide Run, Quiet, SumAll, Reading, LastPoll, Interval, Milliseconds, PerSecond;
    var net := Run(Initialized(nics), polls);
    IntervalIsElapsed(polls, p);
    KeepsLastPoll(nics, polls, p.key, n, upload);
    SampleOfOneNic(net.nics, SlotOf(net, p.key).Elapsed(p.now), TracksOf(net, p.key), p.netIO, n);
  }

  lemma IntervalIsElapsed(polls: seq<Poll>, p: Poll)
    ensures var q := LastPoll(polls, p.key); Interval(polls, p) == if q.Some? then Milliseconds(p.now, q.value.now) else 0
  {
  }

  /** The multiplication by 1000 is exact as long as it fits in 64 bits, and only then. */
  lemma PerSecondIsExact(bytes: u64, ms: u64)
    requires ms > 0
    ensures PerSecond(bytes, ms) == bytes * 1000 / ms <==> bytes * 1000 < TWO64
  {
    WrappedQuotient(bytes * 1000, ms);
  }

  lemma WrapDrops(x: int)
    requires x >= TWO64
    ensures 0 <= Wrap(x) <= x - TWO64
  {
  }

  lemma SmallGap(w: nat, x: nat, ms: int)
    requires ms > 0 && w + ms <= x
    ensures w / ms < x / ms
  {
    var q := w / ms;
    assert q * ms <= w;
    assert (q + 1) * ms <= x;
    QuotientAbove(x, ms, q);
  }

  // ---------------------------------------------------------------------------------------------
  // The totals of the host
  // ---------------------------------------------------------------------------------------------

  /** The bytes sent or received on all known interfaces together, without any limit on the sum. */
  function Bytes(nics: set<string>, netIO: seq<Counter>, upload: bool): nat {
    if netIO == [] then 0
    else
      var v := netIO[|netIO| - 1];
      Bytes(nics, netIO[..|netIO| - 1], upload) + if v.name !in nics then 0 else if upload then v.sent else v.recv
  }

  /** The totals of a sample are those sums, in 64 bits. */
  lemma {:induction false} TotalsAreSums(nics: set<string>, ms: u64, start: Sums, netIO: seq<Counter>)
    requires start.sent == start.recv == 0
    ensures SumAll(nics, ms, start, netIO).sent == Bytes(nics, netIO, true) % 0x1_0000_0000_0000_0000
    ensures SumAll(nics, ms, start, netIO).recv == Bytes(nics, netIO, false) % 0x1_0000_0000_0000_0000
    decreases |netIO|
  {
    hide NicPerSecond;
    if netIO != [] {
      var init, v := netIO[..|netIO| - 1], netIO[|netIO| - 1];
      TotalsAreSums(nics, ms, start, init);
      AddWraps(Bytes(nics, init, true), v.sent);
      AddWraps(Bytes(nics, init, false), v.recv);
    }
  }

  /** An agent that knows no interface looks for them first; what it then finds has no earlier reading under any key, so the
      poll shows no traffic, and it is the only one remembered. */
  lemma UnknownInterfaces(net: Net, p: Poll)
    requires net.nics == {}
    ensures Shows(net, p).up == Shows(net, p).down == 0 && AllZero(Shows(net, p).rates)
    ensures Polled(net, p).nics == p.found && Polled(net, p).baselines.Keys == Polled(net, p).trackers.Keys == {p.key}
    ensures Polled(net, p).baselines[p.key] == Baseline(Wrap(Bytes(p.found, p.netIO, true)), Wrap(Bytes(p.found, p.netIO, false)), p.now)
  {
    hide SumAll;
    var blank := Net(p.found, map[], map[]);
    FirstPollShowsNoTraffic(blank, p.key, p.now, p.netIO);
    TotalsAreSums(p.found, 0, Sums(0, 0, TracksOf(blank, p.key).Cycled(), map[]), p.netIO);
  }

  /** Bytes per second between two sums, as 64 bits reckon it: exact if the sum did not fall and a thousand times the
      difference fits. */
  function Bandwidth(cur: int, prev: int, ms: int): int {
    if ms <= 0 then 0 else 1000 * (cur - prev) % 0x1_0000_0000_0000_0000 / ms
  }

  lemma BandwidthIsExact(cur: nat, prev: nat, ms: u64)
    requires ms > 0 && prev <= cur
    ensures Bandwidth(cur, prev, ms) == 1000 * (cur - prev) / ms <==> 1000 * (cur - prev) < 0x1_0000_0000_0000_0000
  {
    WrappedQuotient(1000 * (cur - prev), ms);
  }

  lemma WrappedQuotient(x: nat, ms: u64)
    requires ms > 0
    ensures Wrap(x) / ms == x / ms <==> x < TWO64
  {
    if x >= TWO64 {
      WrapDrops(x);
      SmallGap(Wrap(x), x, ms);
    }
  }

  lemma TotalIsBandwidth(cur: int, prev: int, ms: u64)
    ensures TotalPerSecond(ms, Wrap(cur), Wrap(prev)) == Bandwidth(cur, prev, ms)
  {
    var a, b, d := cur / TWO64, prev / TWO64, Wrap(cur) - Wrap(prev);
    assert Sub(Wrap(cur), Wrap(prev)) == d - d / TWO64 * TWO64;
    assert d == cur - prev - (a - b) * TWO64;
    assert Sub(Wrap(cur), Wrap(prev)) * 1000 == 1000 * (cur - prev) + (-1000 * (a - b) - 1000 * (d / TWO64)) * TWO64;
    ModPlusMultiple(1000 * (cur - prev), -1000 * (a - b) - 1000 * (d / TWO64));
  }

  /** After a quiet run the baseline of a key holds the sums of its last poll. */
  lemma {:induction false} BaselineIsLastPoll(nics: set<string>, polls: seq<Poll>, key: Key)
    requires Quiet(Initialized(nics), polls)
    ensures var net, q := Run(Initialized(nics), polls), LastPoll(polls, key);
            && net.nics == nics
            && SlotOf(net, key).base ==
               if q.None? then None
               else Some(Baseline(Wrap(Bytes(nics, q.value.netIO, true)), Wrap(Bytes(nics, q.value.netIO, false)), q.value.now))
    decreases |polls|
  {
    hide IsQuiet, SumAll, Polled;
    if polls != [] {
      var init, p := polls[..|polls| - 1], polls[|polls| - 1];
      var net := Run(Initialized(nics), init);
      BaselineIsLastPoll(nics, init, key);
      PollMovesOneSlot(net, p, key);
      TotalsAreSums(nics, SlotOf(net, key).Elapsed(p.now), Sums(0, 0, SlotOf(net, key).tracks.Cycled(), map[]), p.netIO);
    }
  }

  /** The bandwidth of the host after any quiet run, from the sums of this poll and of the one before it under its key:
      what is sent is published as up and what is received as down, unless one of them is above ten gigabytes a second;
      then both show 0 and the agent starts over. */
  lemma HostBandwidth(nics: set<string>, polls: seq<Poll>, p: Poll)
    requires nics != {} && Quiet(Initialized(nics), polls)
    ensures var net, q, ms := Run(Initialized(nics), polls), LastPoll(polls, p.key), Interval(polls, p);
            var up := if q.None? then 0 else Bandwidth(Bytes(nics, p.netIO, true), Bytes(nics, q.value.netIO, true), ms);
            var down := if q.None? then 0 else Bandwidth(Bytes(nics, p.netIO, false), Bytes(nics, q.value.netIO, false), ms);
            if up <= 10_000_000_000 && down <= 10_000_000_000
            then Shows(net, p).up == up && Shows(net, p).down == down && IsQuiet(net, p)
            else Shows(net, p).up == Shows(net, p).down == 0 && Polled(net, p) == Net(p.refound, map[], map[])
  {
    hide SumAll, Bytes, Quiet, Run;
    var net, q, ms := Run(Initialized(nics), polls), LastPoll(polls, p.key), Interval(polls, p);
    BaselineIsLastPoll(nics, polls, p.key);
    var slot := SlotOf(net, p.key);
    TotalsAreSums(nics, slot.Elapsed(p.now), Sums(0, 0, slot.tracks.Cycled(), map[]), p.netIO);
    if q.Some? {
      TotalIsBandwidth(Bytes(nics, p.netIO, true), Bytes(nics, q.value.netIO, true), ms);
      TotalIsBandwidth(Bytes(nics, p.netIO, false), Bytes(nics, q.value.netIO, false), ms);
    }
  }

  // ---------------------------------------------------------------------------------------------
  // The rates reconstruct the traffic
  // ---------------------------------------------------------------------------------------------

  /** Sums over the polls under a key after its first: bytes moved, rate times milliseconds shown, and
      milliseconds passed. */
  datatype Ledger = Ledger(bytes: int, shown: int, ms: int)

  function LedgerOf(nics: set<string>, polls: seq<Poll>, key: Key, n: string, upload: bool): Ledger {
    if polls == [] then Ledger(0, 0, 0)
    else
      var init, p := polls[..|polls| - 1], polls[|polls| - 1];
      var l := LedgerOf(nics, init, key, n, upload);
      var rates := Shows(Run(Initialized(nics), init), p).rates;
      var cur, prev := Level(nics, p.netIO, n, upload), PreviousLevel(nics, init, key, n, upload);
      if p.key != key || cur.None? || prev.None? || n !in rates then l
      else
        var ms: int := Interval(init, p);
        Ledger(l.bytes + NicDelta(cur.value, prev.value), l.shown + DirectionRate(rates[n], upload) * ms, l.ms + ms)
  }

  /** The interface is in every sample under the key, and time passes between them. */
  predicate Present(nics: set<string>, polls: seq<Poll>, key: Key, n: string, upload: bool) {
    polls == [] ||
    var init, p := polls[..|polls| - 1], polls[|polls| - 1];
    Present(nics, init, key, n, upload) &&
    (p.key == key ==> Level(nics, p.netIO, n, upload).Some? && (LastPoll(init, key).Some? ==> Interval(init, p) > 0))
  }

  /** No difference is so large that a thousand times of it overflows. */
  predicate Fits(nics: set<string>, polls: seq<Poll>, key: Key, n: string, upload: bool) {
    polls == [] ||
    var init, p := polls[..|polls| - 1], polls[|polls| - 1];
    Fits(nics, init, key, n, upload) &&
    (p.key == key ==>
       var cur, prev := Level(nics, p.netIO, n, upload), PreviousLevel(nics, init, key, n, upload);
       cur.Some? && prev.Some? ==> NicDelta(cur.value, prev.value) * 1000 < TWO64)
  }

  /** The rates shown account for all bytes moved, but for less than one byte per second and interval. */
  predicate Accounts(l: Ledger) {
    0 <= 1000 * l.bytes - l.shown && (if l.ms == 0 then l.bytes == l.shown == 0 else 1000 * l.bytes - l.shown < l.ms)
  }

  /** The rates never show more than was moved. They account for all of it if no difference overflows; if one
      does, 2^64 thousandths of a byte are missing. */
  lemma {:induction false} RatesLose(nics: set<string>, polls: seq<Poll>, key: Key, n: string, upload: bool)
    requires Quiet(Initialized(nics), polls) && Present(nics, polls, key, n, upload)
    ensures var l := LedgerOf(nics, polls, key, n, upload);
            && 0 <= 1000 * l.bytes - l.shown && l.ms >= 0
            && (if Fits(nics, polls, key, n, upload) then Accounts(l) else 1000 * l.bytes - l.shown >= TWO64)
    decreases |polls|
  {
    if polls != [] {
      var init, p := polls[..|polls| - 1], polls[|polls| - 1];
      RatesLose(nics, init, key, n, upload);
      KeepsLastPoll(nics, init, key, n, upload);
      PublishedRate(nics, init, p, n, upload);
      var cur, prev := Level(nics, p.netIO, n, upload), PreviousLevel(nics, init, key, n, upload);
      if p.key == key && prev.Some? {
        RateLoses(NicDelta(cur.value, prev.value), Interval(init, p));
      }
    }
  }

  /** What one published rate loses of the bytes it stands for. */
  lemma RateLoses(bytes: u64, ms: u64)
    requires ms > 0
    ensures var lost := 1000 * bytes - PerSecond(bytes, ms) * ms;
            if bytes * 1000 < TWO64 then 0 <= lost < ms else lost >= TWO64
  {
    DivisionLoss(Wrap(bytes * 1000), ms);
    if bytes * 1000 >= TWO64 {
      WrapDrops(bytes * 1000);
    }
  }

  /** For an interface in every sample of a key, the published rates account for its traffic exactly if no
      single difference overflows when it is multiplied by 1000. */
  lemma RatesReconstructTraffic(nics: set<string>, polls: seq<Poll>, key: Key, n: string, upload: bool)
    requires Quiet(Initialized(nics), polls) && Present(nics, polls, key, n, upload)
    requires LedgerOf(nics, polls, key, n, upload).ms <= TWO64
    ensures Accounts(LedgerOf(nics, polls, key, n, upload)) <==> Fits(nics, polls, key, n, upload)
  {
    RatesLose(nics, polls, key, n, upload);
  }

  /** Two polls a millisecond apart, between which 18446744073709552 bytes are sent. */
  function HugeBurst(): seq<Poll> {
    [Poll(1, 0, [Counter("eth0", 0, 0)], {}, {}),
     Poll(1, NS_PER_MS, [Counter("eth0", 18_446_744_073_709_552, 0)], {}, {})]
  }

  /** The totals of a sample with one known interface. */
  lemma OneCounter(nics: set<string>, now: nat, slot: Slot, ms: u64, v: Counter)
    requires v.name in nics && slot.Elapsed(now) == ms
    ensures slot.Summed(nics, now, [v]).sent == v.sent && slot.Summed(nics, now, [v]).recv == v.recv
    ensures ms == 0 ==> !slot.Anomalous(nics, now, [v])
    ensures ms == 1 && slot.base == Some(Baseline(0, 0, 0)) && v.recv == 0 ==>
              (slot.Anomalous(nics, now, [v]) <==> Wrap(v.sent * 1000) > MAX_HOST_RATE)
  {
    hide NicPerSecond;
    SumOfOne(nics, slot.Elapsed(now), Sums(0, 0, slot.tracks.Cycled(), map[]), v);
    WrapsToItself(v.sent);
    WrapsToItself(v.recv);
  }

  lemma SumOfOne(nics: set<string>, ms: u64, start: Sums, v: Counter)
    ensures SumAll(nics, ms, start, [v]) == SumStep(nics, ms, start, v)
  {
    hide SumStep;
    assert [v][..0] == [];
  }

  /** The run is quiet and the burst shows as 384 bytes per second. */
  lemma HugeBurstIsLost()
    ensures Quiet(Initialized({"eth0"}), HugeBurst()) && Present({"eth0"}, HugeBurst(), 1, "eth0", true)
    ensures LedgerOf({"eth0"}, HugeBurst(), 1, "eth0", true) == Ledger(18_446_744_073_709_552, 384, 1)
  {
    hide Polled, Shows, IsQuiet, PerSecond;
    var nics, polls := {"eth0"}, HugeBurst();
    var first, second := polls[0], polls[1];
    assert polls[..1] == [first] && [first][..0] == [];
    var start := Initialized(nics);
    BurstIsQuiet();
    assert Level(nics, first.netIO, "eth0", true) == Some(0);
    assert Level(nics, second.netIO, "eth0", true) == Some(second.netIO[0].sent);
    assert Quiet(start, []) && Present(nics, [], 1, "eth0", true);
    assert Quiet(start, [first]) && Present(nics, [first], 1, "eth0", true);
    assert LedgerOf(nics, [], 1, "eth0", true) == LedgerOf(nics, [first], 1, "eth0", true) == Ledger(0, 0, 0);
    PublishedRate(nics, [first], second, "eth0", true);
  }

  lemma BurstIsQuiet()
    ensures var start, first := Initialized({"eth0"}), HugeBurst()[..1];
            IsQuiet(Run(start, []), HugeBurst()[0]) && IsQuiet(Run(start, first), HugeBurst()[1])
  {
    var nics, first, second := {"eth0"}, HugeBurst()[0], HugeBurst()[1];
    var start := Initialized(nics);
    FirstPollShowsNoTraffic(start, 1, 0, first.netIO);
    assert Run(start, []) == start;
    assert HugeBurst()[..1] == [first] && [first][..0] == [];
    assert Run(start, [first]) == Polled(start, first);
    OneCounter(nics, 0, SlotOf(start, 1), 0, first.netIO[0]);
    var slot := SlotOf(Polled(start, first), 1);
    assert slot.base == Some(Baseline(0, 0, 0));
    OneCounter(nics, NS_PER_MS, slot, 1, second.netIO[0]);
  }

  lemma DivisionLoss(x: nat, ms: int)
    requires ms > 0
    ensures 0 <= x - x / ms * ms < ms
  {
  }

  /** No level under the key is below the one before it. */
  predicate NeverFalls(nics: set<string>, polls: seq<Poll>, key: Key, n: string, upload: bool) {
    polls == [] ||
    var init, p := polls[..|polls| - 1], polls[|polls| - 1];
    NeverFalls(nics, init, key, n, upload) &&
    (p.key == key ==>
       var cur, prev := Level(nics, p.netIO, n, upload), PreviousLevel(nics, init, key, n, upload);
       cur.Some? && prev.Some? ==> cur.value >= prev.value)
  }

  function FirstLevel(nics: set<string>, polls: seq<Poll>, key: Key, n: string, upload: bool): Option<u64> {
    if polls == [] then None
    else if polls[0].key == key then Level(nics, polls[0].netIO, n, upload)
    else FirstLevel(nics, polls[1..], key, n, upload)
  }

  lemma {:induction false} FirstLevelOfPrefix(nics: set<string>, polls: seq<Poll>, key: Key, n: string, upload: bool)
    requires polls != []
    ensures var init, p := polls[..|polls| - 1], polls[|polls| - 1];
            FirstLevel(nics, polls, key, n, upload) ==
            if LastPoll(init, key).Some? then FirstLevel(nics, init, key, n, upload)
            else if p.key == key then Level(nics, p.netIO, n, upload) else None
    decreases |polls|
  {
    var init := polls[..|polls| - 1];
    if |polls| > 1 {
      FirstLevelOfPrefix(nics, polls[1..], key, n, upload);
      assert polls[1..][..|polls| - 2] == init[1..];
      LastPollOfTail(init, key);
    }
  }

  lemma {:induction false} LastPollOfTail(polls: seq<Poll>, key: Key)
    requires polls != []
    ensures LastPoll(polls, key).Some? <==> polls[0].key == key || LastPoll(polls[1..], key).Some?
    decreases |polls|
  {
    if |polls| > 1 {
      LastPollOfTail(polls[..|polls| - 1], key);
      assert polls[1..][..|polls| - 2] == polls[..|polls| - 1][1..];
    }
  }

  /** Without a counter reset, the bytes are exactly the last level minus the first. */
  lemma {:induction false} TrafficTelescopes(nics: set<string>, polls: seq<Poll>, key: Key, n: string, upload: bool)
    requires Quiet(Initialized(nics), polls)
    requires Present(nics, polls, key, n, upload) && NeverFalls(nics, polls, key, n, upload)
    ensures var first, last := FirstLevel(nics, polls, key, n, upload), PreviousLevel(nics, polls, key, n, upload);
            && (first.Some? <==> LastPoll(polls, key).Some?) && (last.Some? <==> first.Some?)
            && LedgerOf(nics, polls, key, n, upload).bytes == if last.Some? then last.value - first.value else 0
    decreases |polls|
  {
    if polls != [] {
      var init, p := polls[..|polls| - 1], polls[|polls| - 1];
      TrafficTelescopes(nics, init, key, n, upload);
      FirstLevelOfPrefix(nics, polls, key, n, upload);
      KeepsLastPoll(nics, init, key, n, upload);
      PublishedRate(nics, init, p, n, upload);
    }
  }
}
