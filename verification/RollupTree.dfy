/** Roll-up through several levels: internal/records/records.go lines 128-158 and 177-420.

    The 10m record is an average of 1m records, the 20m record an average of 10m records, and so on up to
    480m, so a stored record is the root of a tree of calls of AverageSystemStatsSlice whose leaves are
    the 1m records. The lemmas relate the numbers at the root to those at the leaves. */
module RollupTree {
  import opened Common
  import opened UInt64
  import opened Rounding
  import opened RecordAverages
  import J = RecordJobsSpec

  datatype Tree = Leaf(stats: Stats) | Node(children: seq<Tree>)

  ghost predicate Sound(t: Tree) {
    match t
    case Leaf(s) => WellFormed(s)
    case Node(ts) => forall i | 0 <= i < |ts| :: Sound(ts[i])
  }

  /** The record that the roll-up stores for the tree. */
  ghost function Value(t: Tree): (s: Stats)
    requires Sound(t)
    ensures WellFormed(s) && (t.Leaf? ==> s == t.stats)
  {
    match t
    case Leaf(s) => s
    case Node(ts) =>
      var rs := seq(|ts|, i requires 0 <= i < |ts| => Value(ts[i]));
      AverageIsWellFormed(rs);
      Average(rs)
  }

  ghost function Values(t: Tree): (rs: seq<Stats>)
    requires t.Node? && Sound(t)
    ensures AllWellFormed(rs) && |rs| == |t.children| && Value(t) == Average(rs)
  {
    seq(|t.children|, i requires 0 <= i < |t.children| => Value(t.children[i]))
  }

  // ---------------------------------------------------------------------------------------------
  // The numbers of a record
  // ---------------------------------------------------------------------------------------------

  /** The system itself or one of its extra filesystems. */
  datatype Part = Main | Fs(key: string)
  {
    function Shape(): Shape {
      if Main? then SYSTEM else FILESYSTEM
    }
  }

  function BlockOf(s: Stats, part: Part): Option<Block> {
    match part
    case Main => Some(s.main)
    case Fs(key) => if key in s.extraFs then Some(s.extraFs[key]) else None
  }

  /** A gauge; 0 in a record without the filesystem. */
  function Gauge(s: Stats, part: Part, i: nat): real
    requires WellFormed(s) && i < part.Shape().gauges
  {
    match BlockOf(s, part)
    case None => 0.0
    case Some(b) => b.gauges[i]
  }

  /** A peak, and the larger of the peak and the gauge it is about; at least 0 where the record has none. */
  function Peak(s: Stats, part: Part, i: nat): real
    requires WellFormed(s) && i < |part.Shape().sources|
  {
    match BlockOf(s, part)
    case None => 0.0
    case Some(b) => b.peaks[i]
  }

  function Top(s: Stats, part: Part, i: nat): real
    requires WellFormed(s) && i < |part.Shape().sources|
  {
    match BlockOf(s, part)
    case None => 0.0
    case Some(b) => MaxReal(b.peaks[i], b.gauges[part.Shape().sources[i]])
  }

  /** The integers that are averaged by division. */
  datatype Rate = Counter(part: Part, i: nat) | NicUp(key: string) | NicDown(key: string)
  {
    predicate Valid() {
      Counter? ==> i < part.Shape().counters
    }
  }

  function Count(s: Stats, rate: Rate): u64
    requires WellFormed(s) && rate.Valid()
  {
    match rate
    case Counter(part, i) => (match BlockOf(s, part) case None => 0 case Some(b) => b.counters[i])
    case NicUp(key) => if key in s.nics then s.nics[key].up else 0
    case NicDown(key) => if key in s.nics then s.nics[key].down else 0
  }

  /** The integers that keep a maximum: counter peaks, and an interface's running totals. */
  datatype Maximum = CounterPeak(part: Part, i: nat) | NicTotalUp(key: string) | NicTotalDown(key: string)
  {
    predicate Valid() {
      CounterPeak? ==> i < part.Shape().counters
    }
  }

  function MaximumOf(s: Stats, m: Maximum): u64
    requires WellFormed(s) && m.Valid()
  {
    match m
    case CounterPeak(part, i) => (match BlockOf(s, part) case None => 0 case Some(b) => b.counterPeaks[i])
    case NicTotalUp(key) => if key in s.nics then s.nics[key].totalUp else 0
    case NicTotalDown(key) => if key in s.nics then s.nics[key].totalDown else 0
  }

  /** A maximum together with the counter it is about. */
  function Reached(s: Stats, m: Maximum): u64
    requires WellFormed(s) && m.Valid()
  {
    if m.CounterPeak? then MaxInt(MaximumOf(s, m), Count(s, Counter(m.part, m.i))) else MaximumOf(s, m)
  }

  // ---------------------------------------------------------------------------------------------
  // The same numbers of an average
  // ---------------------------------------------------------------------------------------------

  function GaugeTotal(rs: seq<Stats>, part: Part, i: nat): real
    requires AllWellFormed(rs) && i < part.Shape().gauges
  {
    if rs == [] then 0.0 else GaugeTotal(rs[..|rs| - 1], part, i) + Gauge(rs[|rs| - 1], part, i)
  }

  function TopTotal(rs: seq<Stats>, part: Part, i: nat): real
    requires AllWellFormed(rs) && i < |part.Shape().sources|
  {
    if rs == [] then 0.0 else MaxReal(TopTotal(rs[..|rs| - 1], part, i), Top(rs[|rs| - 1], part, i))
  }

  /** The exact sum, without the wrap-around of the program. */
  function CountTotal(rs: seq<Stats>, rate: Rate): nat
    requires AllWellFormed(rs) && rate.Valid()
  {
    if rs == [] then 0 else CountTotal(rs[..|rs| - 1], rate) + Count(rs[|rs| - 1], rate)
  }

  function ReachedTotal(rs: seq<Stats>, m: Maximum): u64
    requires AllWellFormed(rs) && m.Valid()
  {
    if rs == [] then 0 else MaxInt(ReachedTotal(rs[..|rs| - 1], m), Reached(rs[|rs| - 1], m))
  }

  function Blocks(rs: seq<Stats>, part: Part): seq<Block> {
    if part.Main? then Mains(rs) else FsBlocks(rs, part.key)
  }

  lemma BlocksFit(rs: seq<Stats>, part: Part)
    requires AllWellFormed(rs)
    ensures AllFit(part.Shape(), Blocks(rs, part))
  {
    if part.Fs? {
      FsBlocksFit(rs, part.key);
    }
  }

  lemma BlocksOfOneMore(rs: seq<Stats>, part: Part)
    requires rs != []
    ensures var b := BlockOf(rs[|rs| - 1], part);
            Blocks(rs, part) == Blocks(rs[..|rs| - 1], part) + if b.Some? then [b.value] else []
  {
  }

  lemma {:induction false} TotalsOfBlocks(rs: seq<Stats>, part: Part)
    requires AllWellFormed(rs)
    ensures AllFit(part.Shape(), Blocks(rs, part))
    ensures forall i | 0 <= i < part.Shape().gauges :: GaugeSum(Blocks(rs, part), i) == GaugeTotal(rs, part, i)
    ensures forall i | 0 <= i < |part.Shape().sources| ::
              PeakOver(Blocks(rs, part), i, part.Shape().sources[i]) == TopTotal(rs, part, i) >= 0.0
    decreases |rs|
  {
    hide Blocks;
    BlocksFit(rs, part);
    NoBlocks(part);
    if rs != [] {
      var init, b := rs[..|rs| - 1], BlockOf(rs[|rs| - 1], part);
      TotalsOfBlocks(init, part);
      BlocksOfOneMore(rs, part);
      assert b.None? ==> Blocks(rs, part) == Blocks(init, part);
      assert b.Some? ==> Blocks(rs, part)[..|Blocks(rs, part)| - 1] == Blocks(init, part);
    }
  }

  lemma CountersOfOneMore(blocks: seq<Block>, b: Block, part: Part, i: nat)
    requires AllFit(part.Shape(), blocks) && part.Shape().Fits(b) && i < part.Shape().counters
    ensures AllFit(part.Shape(), blocks + [b])
    ensures CounterSum(blocks + [b], i) == Add(CounterSum(blocks, i), b.counters[i])
    ensures CounterPeakOver(blocks + [b], i) == MaxInt(MaxInt(CounterPeakOver(blocks, i), b.counterPeaks[i]), b.counters[i])
  {
    assert (blocks + [b])[..|blocks|] == blocks;
  }

  lemma BlockFits(s: Stats, part: Part)
    requires WellFormed(s)
    ensures BlockOf(s, part).Some? ==> part.Shape().Fits(BlockOf(s, part).value)
  {
  }

  lemma AddNothing()
    ensures forall x: u64 :: Add(x, 0) == x
  {
  }

  /** One more record adds its counter, and its counter and peak; nothing if it has no such block. */
  lemma IntegersOfOneMore(rs: seq<Stats>, part: Part, i: nat)
    requires AllWellFormed(rs) && i < part.Shape().counters && rs != []
    ensures AllFit(part.Shape(), Blocks(rs, part)) && AllFit(part.Shape(), Blocks(rs[..|rs| - 1], part))
    ensures CounterSum(Blocks(rs, part), i) ==
            Add(CounterSum(Blocks(rs[..|rs| - 1], part), i), Count(rs[|rs| - 1], Counter(part, i)))
    ensures CounterPeakOver(Blocks(rs, part), i) ==
            MaxInt(CounterPeakOver(Blocks(rs[..|rs| - 1], part), i), Reached(rs[|rs| - 1], CounterPeak(part, i)))
  {
    hide Add, Blocks, CounterSum, CounterPeakOver, AllFit, BlockOf;
    var init, s := rs[..|rs| - 1], rs[|rs| - 1];
    var b := BlockOf(s, part);
    BlocksFit(init, part);
    BlocksOfOneMore(rs, part);
    BlockFits(s, part);
    BlocksFit(rs, part);
    if b.Some? {
      CountersOfOneMore(Blocks(init, part), b.value, part, i);
    } else {
      assert Blocks(rs, part) == Blocks(init, part);
      AddNothing();
    }
  }

  lemma {:induction false} IntegersOfBlocks(rs: seq<Stats>, part: Part, i: nat)
    requires AllWellFormed(rs) && i < part.Shape().counters
    ensures AllFit(part.Shape(), Blocks(rs, part))
    ensures CounterSum(Blocks(rs, part), i) == Wrap(CountTotal(rs, Counter(part, i)))
    ensures CounterPeakOver(Blocks(rs, part), i) == ReachedTotal(rs, CounterPeak(part, i))
    decreases |rs|
  {
    BlocksFit(rs, part);
    if rs == [] {
      NoBlocks(part);
    } else {
      hide Add, Wrap, Blocks, AllFit, CounterSum, CounterPeakOver, Count, Reached, WellFormed;
      var init, rate := rs[..|rs| - 1], Counter(part, i);
      IntegersOfBlocks(init, part, i);
      IntegersOfOneMore(rs, part, i);
      AddWraps(CountTotal(init, rate), Count(rs[|rs| - 1], rate));
    }
  }

  lemma NoBlocks(part: Part)
    ensures Blocks([], part) == []
  {
  }

  lemma {:induction false} FsIsThere(rs: seq<Stats>, key: string)
    ensures key in FsKeys(rs) <==> FsBlocks(rs, key) != []
    decreases |rs|
  {
    if rs != [] {
      FsIsThere(rs[..|rs| - 1], key);
    }
  }

  /** The block of an average. */
  lemma BlockOfAverage(rs: seq<Stats>, part: Part)
    requires AllWellFormed(rs) && rs != []
    ensures AllFit(part.Shape(), Blocks(rs, part))
    ensures BlockOf(Average(rs), part) ==
            if Blocks(rs, part) == [] then None else Some(Averaged(SumOf(part.Shape(), Blocks(rs, part)), |rs|))
  {
    hide SumOf, Averaged, NicSum, AveragedNic;
    BlocksFit(rs, part);
    if part.Fs? {
      FsIsThere(rs, part.key);
    }
  }

  lemma GaugeOfAverage(rs: seq<Stats>, part: Part, i: nat)
    requires AllWellFormed(rs) && i < part.Shape().gauges && rs != []
    ensures WellFormed(Average(rs))
    ensures Gauge(Average(rs), part, i) == TwoDecimals(GaugeTotal(rs, part, i) / |rs| as real)
  {
    hide Average, FsSum, NicSum, AveragedNic;
    AverageIsWellFormed(rs);
    BlockOfAverage(rs, part);
    TotalsOfBlocks(rs, part);
  }

  lemma PeakOfAverage(rs: seq<Stats>, part: Part, i: nat)
    requires AllWellFormed(rs) && i < |part.Shape().sources|
    ensures WellFormed(Average(rs))
    ensures Peak(Average(rs), part, i) == TopTotal(rs, part, i)
  {
    AverageIsWellFormed(rs);
    if rs != [] {
      hide Average, FsSum, NicSum, AveragedNic;
      BlockOfAverage(rs, part);
      TotalsOfBlocks(rs, part);
    }
  }

  lemma {:induction false} NicSumTotals(rs: seq<Stats>, key: string)
    requires AllWellFormed(rs)
    ensures key !in NicKeys(rs) ==> NicSum(rs, key) == Nic(0, 0, 0, 0)
    ensures NicSum(rs, key) == Nic(Wrap(CountTotal(rs, NicUp(key))), Wrap(CountTotal(rs, NicDown(key))),
                                   ReachedTotal(rs, NicTotalUp(key)), ReachedTotal(rs, NicTotalDown(key)))
    decreases |rs|
  {
    hide Add, Wrap;
    WrapsToItself(0);
    if rs != [] {
      var init, s := rs[..|rs| - 1], rs[|rs| - 1];
      NicSumTotals(init, key);
      AddWraps(CountTotal(init, NicUp(key)), Count(s, NicUp(key)));
      AddWraps(CountTotal(init, NicDown(key)), Count(s, NicDown(key)));
    }
  }

  /** A rate of an average is the sum of the rates, in 64 bits, divided by the number of records. */
  lemma CountOfAverage(rs: seq<Stats>, rate: Rate)
    requires AllWellFormed(rs) && rate.Valid() && rs != []
    ensures WellFormed(Average(rs))
    ensures Count(Average(rs), rate) == Wrap(CountTotal(rs, rate)) / |rs|
  {
    if rate.Counter? {
      CounterOfAverage(rs, rate.part, rate.i);
    } else {
      NicOfAverage(rs, rate.key);
    }
  }

  lemma NicOfAverage(rs: seq<Stats>, key: string)
    requires AllWellFormed(rs) && rs != []
    ensures WellFormed(Average(rs))
    ensures Count(Average(rs), NicUp(key)) == Wrap(CountTotal(rs, NicUp(key))) / |rs|
    ensures Count(Average(rs), NicDown(key)) == Wrap(CountTotal(rs, NicDown(key))) / |rs|
    ensures MaximumOf(Average(rs), NicTotalUp(key)) == ReachedTotal(rs, NicTotalUp(key))
    ensures MaximumOf(Average(rs), NicTotalDown(key)) == ReachedTotal(rs, NicTotalDown(key))
  {
    hide FsSum, FsKeys, NicSum, NicKeys, Averaged, SumOf, Wrap, CountTotal, ReachedTotal, WellFormed;
    AverageIsWellFormed(rs);
    NicSumTotals(rs, key);
    NothingOver(|rs|);
  }

  lemma NothingOver(n: nat)
    requires n > 0
    ensures 0 / n == 0
  {
  }

  lemma CounterOfAverage(rs: seq<Stats>, part: Part, i: nat)
    requires AllWellFormed(rs) && i < part.Shape().counters && rs != []
    ensures WellFormed(Average(rs))
    ensures Count(Average(rs), Counter(part, i)) == Wrap(CountTotal(rs, Counter(part, i))) / |rs|
    ensures MaximumOf(Average(rs), CounterPeak(part, i)) == ReachedTotal(rs, CounterPeak(part, i))
  {
    hide Average, FsSum, NicSum, AveragedNic, CounterSum, CounterPeakOver, CountTotal, ReachedTotal, Wrap, Blocks, BlockOf;
    AverageIsWellFormed(rs);
    BlockOfAverage(rs, part);
    IntegersOfBlocks(rs, part, i);
    NothingOver(|rs|);
    if Blocks(rs, part) == [] {
      NothingSummed(part, i);
    }
  }

  lemma NothingSummed(part: Part, i: nat)
    ensures CounterSum([], i) == 0 == CounterPeakOver([], i)
  {
  }

  lemma MaximumOfAverage(rs: seq<Stats>, m: Maximum)
    requires AllWellFormed(rs) && m.Valid()
    ensures WellFormed(Average(rs))
    ensures MaximumOf(Average(rs), m) == ReachedTotal(rs, m)
  {
    hide SumOf, FsSum, NicSum, AveragedNic, Averaged;
    AverageIsWellFormed(rs);
    if rs != [] {
      if m.CounterPeak? {
        CounterOfAverage(rs, m.part, m.i);
      } else {
        NicOfAverage(rs, m.key);
      }
    }
  }

  // ---------------------------------------------------------------------------------------------
  // Peaks
  // ---------------------------------------------------------------------------------------------

  /** The peak over all leaves: what the root should show. */
  ghost function LeafPeak(t: Tree, part: Part, i: nat): real
    requires Sound(t) && i < |part.Shape().sources|
    decreases t, 0
  {
    match t
    case Leaf(s) => MaxReal(0.0, Top(s, part, i))
    case Node(ts) => LeafPeakUpTo(t, |ts|, part, i)
  }

  /** The same over the first `n` children. */
  ghost function LeafPeakUpTo(t: Tree, n: nat, part: Part, i: nat): real
    requires t.Node? && Sound(t) && n <= |t.children| && i < |part.Shape().sources|
    decreases t.children, n
  {
    if n == 0 then 0.0 else MaxReal(LeafPeakUpTo(t, n - 1, part, i), LeafPeak(t.children[n - 1], part, i))
  }

  /** The largest value that rounding an average can make of a peak. */
  function Rounded(peak: real): real {
    MaxReal(peak, TwoDecimals(peak))
  }

  lemma RoundedMonotone(x: real, y: real)
    requires x <= y
    ensures Rounded(x) <= Rounded(y) && TwoDecimals(Rounded(x)) <= Rounded(x)
  {
    hide TwoDecimals;
    TwoDecimalsMonotone(x, y);
    TwoDecimalsOnGrid(x);
  }

  lemma RoundedZero()
    ensures Rounded(0.0) == 0.0 == TwoDecimals(0.0)
  {
  }

  function Times(n: nat, x: real): real {
    n as real * x
  }

  lemma NoTimes(x: real)
    ensures Times(0, x) == 0.0
  {
  }

  lemma OneMoreTimes(sum: real, v: real, n: nat, x: real, y: real)
    requires x <= y && sum <= Times(n, x) && v <= y
    ensures sum + v <= Times(n + 1, y)
  {
    assert n as real * x <= n as real * y;
    assert (n + 1) as real == n as real + 1.0;
  }

  lemma RatioAtMost(s: real, n: nat, x: real)
    requires n > 0 && s <= Times(n, x)
    ensures s / n as real <= x
  {
  }

  /** An average never exceeds the peak that is kept with it, but for rounding. */
  lemma {:induction false} GaugeTotalBelowPeak(rs: seq<Stats>, part: Part, i: nat)
    requires AllWellFormed(rs) && i < |part.Shape().sources|
    ensures TopTotal(rs, part, i) >= 0.0
    ensures GaugeTotal(rs, part, part.Shape().sources[i]) <= Times(|rs|, TopTotal(rs, part, i))
    decreases |rs|
  {
    hide WellFormed, Times;
    NoTimes(TopTotal(rs, part, i));
    if rs != [] {
      var init, source := rs[..|rs| - 1], part.Shape().sources[i];
      GaugeTotalBelowPeak(init, part, i);
      assert Gauge(rs[|rs| - 1], part, source) <= TopTotal(rs, part, i);
      OneMoreTimes(GaugeTotal(init, part, source), Gauge(rs[|rs| - 1], part, source), |init|, TopTotal(init, part, i), TopTotal(rs, part, i));
    }
  }

  lemma AveragedTop(rs: seq<Stats>, part: Part, i: nat)
    requires AllWellFormed(rs) && i < |part.Shape().sources|
    ensures WellFormed(Average(rs))
    ensures 0.0 <= TopTotal(rs, part, i) <= MaxReal(0.0, Top(Average(rs), part, i)) <= Rounded(TopTotal(rs, part, i))
  {
    hide TwoDecimals, TopTotal, GaugeTotal, Times, Gauge, Average;
    RoundedZero();
    var source := part.Shape().sources[i];
    PeakOfAverage(rs, part, i);
    TopIsPeakOrGauge(Average(rs), part, i);
    GaugeTotalBelowPeak(rs, part, i);
    NoTop(part, i);
    if rs != [] {
      GaugeOfAverage(rs, part, source);
      RatioAtMost(GaugeTotal(rs, part, source), |rs|, TopTotal(rs, part, i));
      TwoDecimalsMonotone(GaugeTotal(rs, part, source) / |rs| as real, TopTotal(rs, part, i));
    }
  }

  lemma TopIsPeakOrGauge(s: Stats, part: Part, i: nat)
    requires WellFormed(s) && i < |part.Shape().sources|
    ensures Top(s, part, i) == MaxReal(Peak(s, part, i), Gauge(s, part, part.Shape().sources[i]))
  {
  }

  lemma NoTop(part: Part, i: nat)
    requires i < |part.Shape().sources|
    ensures TopTotal([], part, i) == 0.0 == Top(Average([]), part, i)
  {
  }

  lemma {:induction false} TopOfValue(t: Tree, part: Part, i: nat)
    requires Sound(t) && i < |part.Shape().sources|
    ensures 0.0 <= LeafPeak(t, part, i) <= MaxReal(0.0, Top(Value(t), part, i)) <= Rounded(LeafPeak(t, part, i))
    decreases t, 0
  {
    hide TwoDecimals, Average, Top, TopTotal, Value;
    if t.Node? {
      var rs := Values(t);
      TopsOfValues(t, |t.children|, part, i);
      assert rs[..|rs|] == rs;
      AveragedTop(rs, part, i);
      RoundedMonotone(TopTotal(rs, part, i), Rounded(LeafPeak(t, part, i)));
      RoundedTwice(LeafPeak(t, part, i));
    }
  }

  lemma RoundedTwice(x: real)
    ensures Rounded(Rounded(x)) == Rounded(x)
  {
    RoundedMonotone(x, x);
  }

  lemma {:induction false} TopsOfValues(t: Tree, n: nat, part: Part, i: nat)
    requires t.Node? && Sound(t) && n <= |t.children| && i < |part.Shape().sources|
    ensures 0.0 <= LeafPeakUpTo(t, n, part, i) <= TopTotal(Values(t)[..n], part, i) <= Rounded(LeafPeakUpTo(t, n, part, i))
    decreases t.children, n
  {
    hide TwoDecimals, Average, Top, Rounded;
    RoundedZero();
    if n > 0 {
      TopsOfValues(t, n - 1, part, i);
      TopOfValue(t.children[n - 1], part, i);
      assert Values(t)[..n][..n - 1] == Values(t)[..n - 1];
      assert Values(t)[..n][n - 1] == Value(t.children[n - 1]);
      RoundedMonotone(LeafPeakUpTo(t, n - 1, part, i), LeafPeakUpTo(t, n, part, i));
      RoundedMonotone(LeafPeak(t.children[n - 1], part, i), LeafPeakUpTo(t, n, part, i));
    }
  }

  /** The stored peak of a rolled-up record lies between the peak over all leaves and its rounding, however
      many levels and however many records at each of them. */
  lemma PeakBounds(t: Tree, part: Part, i: nat)
    requires t.Node? && Sound(t) && i < |part.Shape().sources|
    ensures var p := LeafPeak(t, part, i);
            p <= Peak(Value(t), part, i) <= MaxReal(p, TwoDecimals(p))
  {
    hide TwoDecimals, Average, Top, TopTotal, Value;
    TopsOfValues(t, |t.children|, part, i);
    assert Values(t)[..|t.children|] == Values(t);
    PeakOfAverage(Values(t), part, i);
  }

  /** A record in which one gauge is `p` and everything else is 0. */
  function OneGauge(part: Part, source: nat, p: real): Stats
    requires source < part.Shape().gauges
  {
    var zero := part.Shape().Zero();
    var b := zero.(gauges := zero.gauges[source := p]);
    match part
    case Main => Stats(b, map[], map[])
    case Fs(key) => Stats(SYSTEM.Zero(), map[key := b], map[])
  }

  /** A roll-up that the job can store at a level: each record has at least the minimum of shorter ones. */
  ghost predicate Storable(t: Tree, level: J.Level) {
    match level
    case M1 => t.Leaf?
    case _ =>
      && t.Node? && |t.children| >= J.MinShorter(level)
      && forall j | 0 <= j < |t.children| :: Storable(t.children[j], J.Shorter(level))
  }

  function Rank(level: J.Level): nat {
    match level
    case M1 => 0
    case M10 => 1
    case M20 => 2
    case M120 => 3
    case M480 => 4
  }

  /** The smallest such roll-up, of records that are all the same. */
  ghost function Same(s: Stats, level: J.Level): (t: Tree)
    requires WellFormed(s)
    ensures Sound(t) && Storable(t, level)
    decreases Rank(level)
  {
    match level
    case M1 => Leaf(s)
    case _ =>
      var child := Same(s, J.Shorter(level));
      Node(seq(J.MinShorter(level), _ => child))
  }

  lemma {:induction false} TotalsOfSame(rs: seq<Stats>, r: Stats, part: Part, i: nat)
    requires AllWellFormed(rs) && rs != [] && WellFormed(r) && i < |part.Shape().sources|
    requires forall j | 0 <= j < |rs| :: rs[j] == r
    ensures TopTotal(rs, part, i) == MaxReal(0.0, Top(r, part, i))
    ensures GaugeTotal(rs, part, part.Shape().sources[i]) == Times(|rs|, Gauge(r, part, part.Shape().sources[i]))
    decreases |rs|
  {
    hide Top, Gauge, WellFormed, Times;
    var source := part.Shape().sources[i];
    var init := rs[..|rs| - 1];
    OneMoreTime(|init|, Gauge(r, part, source));
    if init == [] {
      NoTimes(Gauge(r, part, source));
      assert TopTotal(init, part, i) == 0.0 == GaugeTotal(init, part, source);
    } else {
      TotalsOfSame(init, r, part, i);
    }
  }

  /** An average of records that are all the same: the rounding of the gauge, and its peak. */
  lemma AverageOfSame(rs: seq<Stats>, r: Stats, part: Part, i: nat)
    requires AllWellFormed(rs) && rs != [] && WellFormed(r) && i < |part.Shape().sources|
    requires forall j | 0 <= j < |rs| :: rs[j] == r
    ensures WellFormed(Average(rs))
    ensures Peak(Average(rs), part, i) == MaxReal(0.0, Top(r, part, i))
    ensures var source := part.Shape().sources[i];
            Gauge(Average(rs), part, source) == TwoDecimals(Gauge(r, part, source))
  {
    hide TwoDecimals, Average, Top, Gauge, WellFormed, TopTotal, GaugeTotal, Times;
    var source := part.Shape().sources[i];
    TotalsOfSame(rs, r, part, i);
    PeakOfAverage(rs, part, i);
    GaugeOfAverage(rs, part, source);
    TimesOver(|rs|, Gauge(r, part, source));
  }

  lemma TimesOver(n: nat, x: real)
    requires n > 0
    ensures Times(n, x) / n as real == x
  {
  }

  lemma LeafPeaksOfSame(t: Tree, child: Tree, n: nat, part: Part, i: nat)
    requires t.Node? && Sound(t) && Sound(child) && n <= |t.children| && i < |part.Shape().sources|
    requires forall j | 0 <= j < |t.children| :: t.children[j] == child
    requires LeafPeak(child, part, i) >= 0.0
    ensures LeafPeakUpTo(t, n, part, i) == if n == 0 then 0.0 else LeafPeak(child, part, i)
  {
  }

  /** What the job stores from records with the gauge `p`: from the second average on, rounding shows in the peak. */
  lemma {:induction false} RoundingCanRaisePeak(part: Part, i: nat, p: real, level: J.Level)
    requires i < |part.Shape().sources| && p >= 0.0 && level != J.M1
    ensures WellFormed(OneGauge(part, part.Shape().sources[i], p))
    ensures var t := Same(OneGauge(part, part.Shape().sources[i], p), level);
            && LeafPeak(t, part, i) == p
            && Gauge(Value(t), part, part.Shape().sources[i]) == TwoDecimals(p)
            && Peak(Value(t), part, i) == if level == J.M10 then p else MaxReal(p, TwoDecimals(p))
    decreases Rank(level)
  {
    hide TwoDecimals, Average, OneGauge, Top, Gauge, Peak;
    var source := part.Shape().sources[i];
    OneGaugeShows(part, i, p);
    TwoDecimalsOnGrid(p);
    var s := OneGauge(part, source, p);
    var t, child := Same(s, level), Same(s, J.Shorter(level));
    if level != J.M10 {
      RoundingCanRaisePeak(part, i, p, J.Shorter(level));
      TopIsPeakOrGauge(Value(child), part, i);
    }
    LeafPeaksOfSame(t, child, |t.children|, part, i);
    AverageOfSame(Values(t), Value(child), part, i);
  }

  lemma OneGaugeShows(part: Part, i: nat, p: real)
    requires i < |part.Shape().sources| && p >= 0.0
    ensures var s := OneGauge(part, part.Shape().sources[i], p);
            WellFormed(s) && Top(s, part, i) == p == Gauge(s, part, part.Shape().sources[i])
  {
  }

  /** From the 20m level up, every roll-up that the job can store from leaves with peak `p` shows exactly `p`, if
      and only if rounding to two decimals does not raise `p`. */
  lemma PeaksAreExactIff(part: Part, i: nat, p: real, level: J.Level)
    requires i < |part.Shape().sources| && p >= 0.0 && level != J.M1 && level != J.M10
    ensures (forall t: Tree | Storable(t, level) && Sound(t) && LeafPeak(t, part, i) == p :: Peak(Value(t), part, i) == p)
       <==> TwoDecimals(p) <= p
  {
    hide TwoDecimals, Average, Peak, Value;
    RoundingCanRaisePeak(part, i, p, level);
    forall t: Tree | Storable(t, level) && Sound(t) && LeafPeak(t, part, i) == p
      ensures p <= Peak(Value(t), part, i) <= MaxReal(p, TwoDecimals(p))
    {
      PeakBounds(t, part, i);
    }
  }

  /** A single level of averages keeps every peak as it is: 10m records are always exact. */
  lemma FirstLevelIsExact(t: Tree, part: Part, i: nat)
    requires Sound(t) && Storable(t, J.M10) && i < |part.Shape().sources|
    ensures Peak(Value(t), part, i) == LeafPeak(t, part, i)
  {
    hide Average, Peak, Top;
    TopsOfLeaves(t, |t.children|, part, i);
    assert Values(t)[..|t.children|] == Values(t);
    PeakOfAverage(Values(t), part, i);
  }

  lemma {:induction false} TopsOfLeaves(t: Tree, n: nat, part: Part, i: nat)
    requires t.Node? && Sound(t) && n <= |t.children| && i < |part.Shape().sources|
    requires forall j | 0 <= j < |t.children| :: t.children[j].Leaf?
    ensures 0.0 <= TopTotal(Values(t)[..n], part, i) == LeafPeakUpTo(t, n, part, i)
    decreases n
  {
    hide Average, Top;
    if n > 0 {
      TopsOfLeaves(t, n - 1, part, i);
      assert Values(t)[..n][..n - 1] == Values(t)[..n - 1];
      assert Values(t)[..n][n - 1] == Value(t.children[n - 1]) == t.children[n - 1].stats;
    }
  }

  /** Leaves as an agent sends them, with numbers of hundredths. */
  ghost predicate LeavesOnGrid(t: Tree, part: Part, i: nat)
    requires Sound(t) && i < |part.Shape().sources|
  {
    match t
    case Leaf(s) => OnGrid(Top(s, part, i))
    case Node(ts) => forall j | 0 <= j < |ts| :: LeavesOnGrid(ts[j], part, i)
  }

  lemma {:induction false} LeafPeakOnGrid(t: Tree, part: Part, i: nat)
    requires Sound(t) && i < |part.Shape().sources| && LeavesOnGrid(t, part, i)
    ensures OnGrid(LeafPeak(t, part, i))
    decreases t, 0
  {
    RoundedZero();
    if t.Node? {
      LeafPeakUpToOnGrid(t, |t.children|, part, i);
    }
  }

  lemma {:induction false} LeafPeakUpToOnGrid(t: Tree, n: nat, part: Part, i: nat)
    requires t.Node? && Sound(t) && n <= |t.children| && i < |part.Shape().sources| && LeavesOnGrid(t, part, i)
    ensures OnGrid(LeafPeakUpTo(t, n, part, i))
    decreases t.children, n
  {
    hide TwoDecimals;
    RoundedZero();
    if n > 0 {
      LeafPeakUpToOnGrid(t, n - 1, part, i);
      LeafPeakOnGrid(t.children[n - 1], part, i);
    }
  }

  /** With such leaves each stored peak equals the maximum over all leaves, at any depth. */
  lemma PeaksOfAgentDataAreExact(t: Tree, part: Part, i: nat)
    requires t.Node? && Sound(t) && i < |part.Shape().sources| && LeavesOnGrid(t, part, i)
    ensures Peak(Value(t), part, i) == LeafPeak(t, part, i)
  {
    hide TwoDecimals, Average, Peak, Value, LeafPeak;
    PeakBounds(t, part, i);
    LeafPeakOnGrid(t, part, i);
  }

  // ---------------------------------------------------------------------------------------------
  // Integer maxima
  // ---------------------------------------------------------------------------------------------

  ghost function LeafMaximum(t: Tree, m: Maximum): u64
    requires Sound(t) && m.Valid()
    decreases t, 0
  {
    match t
    case Leaf(s) => Reached(s, m)
    case Node(ts) => LeafMaximumUpTo(t, |ts|, m)
  }

  ghost function LeafMaximumUpTo(t: Tree, n: nat, m: Maximum): u64
    requires t.Node? && Sound(t) && n <= |t.children| && m.Valid()
    decreases t.children, n
  {
    if n == 0 then 0 else MaxInt(LeafMaximumUpTo(t, n - 1, m), LeafMaximum(t.children[n - 1], m))
  }

  function Product(n: nat, x: int): int {
    n * x
  }

  lemma OneMoreProduct(sum: int, v: int, n: nat, x: int, y: int)
    requires x <= y && sum <= Product(n, x) && v <= y
    ensures sum + v <= Product(n + 1, y)
  {
    assert n * x <= n * y;
    assert (n + 1) * y == n * y + y;
  }

  lemma OneMoreFactor(n: nat, x: int)
    ensures Product(n, x) + x == Product(n + 1, x)
  {
  }

  lemma NoProduct(x: int)
    ensures Product(0, x) == 0
  {
  }

  lemma QuotientAtMost(sum: nat, n: nat, x: nat)
    requires n > 0 && sum <= Product(n, x)
    ensures Wrap(sum) / n <= x
  {
    WrapAtMost(sum);
    QuotientBelow(Wrap(sum), n, x);
  }

  lemma QuotientBelow(w: nat, n: nat, x: nat)
    requires n > 0 && w <= n * x
    ensures w / n <= x
  {
    var q := w / n;
    assert n * q <= w;
    ProductStrict(n, x, q);
  }

  lemma ProductStrict(n: nat, x: nat, q: nat)
    requires n > 0
    ensures q > x ==> n * q > n * x
  {
  }

  lemma WrapAtMost(sum: nat)
    ensures Wrap(sum) <= sum
  {
  }

  lemma {:induction false} CountTotalBelowPeak(rs: seq<Stats>, part: Part, i: nat)
    requires AllWellFormed(rs) && i < part.Shape().counters
    ensures CountTotal(rs, Counter(part, i)) <= Product(|rs|, ReachedTotal(rs, CounterPeak(part, i)))
    decreases |rs|
  {
    hide WellFormed, Product, Count;
    NoProduct(ReachedTotal(rs, CounterPeak(part, i)));
    if rs != [] {
      var init, s := rs[..|rs| - 1], rs[|rs| - 1];
      CountTotalBelowPeak(init, part, i);
      OneMoreProduct(CountTotal(init, Counter(part, i)), Count(s, Counter(part, i)), |init|,
                     ReachedTotal(init, CounterPeak(part, i)), ReachedTotal(rs, CounterPeak(part, i)));
    }
  }

  /** An integer average never exceeds the peak kept with it, even when the sum wraps around. */
  lemma ReachedOfAverage(rs: seq<Stats>, m: Maximum)
    requires AllWellFormed(rs) && m.Valid()
    ensures WellFormed(Average(rs))
    ensures Reached(Average(rs), m) == ReachedTotal(rs, m)
  {
    hide Average, CountTotal, ReachedTotal, Wrap, Product, WellFormed, MaximumOf;
    MaximumOfAverage(rs, m);
    if m.CounterPeak? {
      if rs == [] {
        NoCounts(m.part, m.i);
      } else {
        CountOfAverage(rs, Counter(m.part, m.i));
        CountTotalBelowPeak(rs, m.part, m.i);
        QuotientAtMost(CountTotal(rs, Counter(m.part, m.i)), |rs|, ReachedTotal(rs, m));
      }
    }
  }

  lemma NoCounts(part: Part, i: nat)
    requires i < part.Shape().counters
    ensures WellFormed(Average([])) && Count(Average([]), Counter(part, i)) == 0
  {
  }

  lemma {:induction false} ReachedOfValue(t: Tree, m: Maximum)
    requires Sound(t) && m.Valid()
    ensures Reached(Value(t), m) == LeafMaximum(t, m)
    decreases t, 0
  {
    hide Average, Reached, Value;
    if t.Node? {
      ReachedOfValues(t, |t.children|, m);
      assert Values(t)[..|t.children|] == Values(t);
      ReachedOfAverage(Values(t), m);
    }
  }

  lemma {:induction false} ReachedOfValues(t: Tree, n: nat, m: Maximum)
    requires t.Node? && Sound(t) && n <= |t.children| && m.Valid()
    ensures ReachedTotal(Values(t)[..n], m) == LeafMaximumUpTo(t, n, m)
    decreases t.children, n
  {
    hide Average, Reached;
    if n > 0 {
      ReachedOfValues(t, n - 1, m);
      ReachedOfValue(t.children[n - 1], m);
      assert Values(t)[..n][..n - 1] == Values(t)[..n - 1];
      assert Values(t)[..n][n - 1] == Value(t.children[n - 1]);
    }
  }

  /** The integer peaks (MaxBandwidth, MaxDiskIO, the byte peaks of a filesystem) and the totals of an
      interface are exact at any depth. */
  lemma MaximaAreExact(t: Tree, m: Maximum)
    requires t.Node? && Sound(t) && m.Valid()
    ensures MaximumOf(Value(t), m) == LeafMaximum(t, m)
  {
    hide Average, Reached, Value, MaximumOf;
    ReachedOfValues(t, |t.children|, m);
    assert Values(t)[..|t.children|] == Values(t);
    MaximumOfAverage(Values(t), m);
  }

  // ---------------------------------------------------------------------------------------------
  // Drift of averages
  // ---------------------------------------------------------------------------------------------

  /** A roll-up with the same number of records at every node of a level: `fan[0]` at the root, and so on.
      Its depth is |fan|. */
  ghost predicate Uniform(t: Tree, fan: seq<nat>) {
    match t
    case Leaf(_) => fan == []
    case Node(ts) => fan != [] && fan[0] > 0 && |ts| == fan[0] && forall j | 0 <= j < |ts| :: Uniform(ts[j], fan[1..])
  }

  ghost function LeafCount(t: Tree): nat
    decreases t, 0
  {
    match t
    case Leaf(_) => 1
    case Node(ts) => LeafCountUpTo(t, |ts|)
  }

  ghost function LeafCountUpTo(t: Tree, n: nat): nat
    requires t.Node? && n <= |t.children|
    decreases t.children, n
  {
    if n == 0 then 0 else LeafCountUpTo(t, n - 1) + LeafCount(t.children[n - 1])
  }

  /** The exact sum of a rate over all leaves. */
  ghost function LeafSum(t: Tree, rate: Rate): nat
    requires Sound(t) && rate.Valid()
    decreases t, 0
  {
    match t
    case Leaf(s) => Count(s, rate)
    case Node(ts) => LeafSumUpTo(t, |ts|, rate)
  }

  ghost function LeafSumUpTo(t: Tree, n: nat, rate: Rate): nat
    requires t.Node? && Sound(t) && n <= |t.children| && rate.Valid()
    decreases t.children, n
  {
    if n == 0 then 0 else LeafSumUpTo(t, n - 1, rate) + LeafSum(t.children[n - 1], rate)
  }

  /** No sum of the roll-up leaves the 64 bits it is kept in. */
  ghost predicate NoOverflow(t: Tree, rate: Rate)
    requires Sound(t) && rate.Valid()
  {
    match t
    case Leaf(_) => true
    case Node(ts) =>
      CountTotal(Values(t), rate) < TWO64 && forall j | 0 <= j < |ts| :: NoOverflow(ts[j], rate)
  }

  /** Number of leaves of a uniform tree. */
  function Leaves(fan: seq<nat>): nat {
    if fan == [] then 1 else Area(fan[0], Leaves(fan[1..]))
  }

  function Area(a: nat, b: nat): nat {
    a * b
  }

  lemma {:induction false} LeafCountOfUniform(t: Tree, fan: seq<nat>)
    requires Uniform(t, fan)
    ensures LeafCount(t) == Leaves(fan) > 0
    decreases t, 0
  {
    if t.Node? {
      LeafCountsOfUniform(t, |t.children|, fan);
      assert Uniform(t.children[0], fan[1..]);
      LeafCountOfUniform(t.children[0], fan[1..]);
      assert fan[0] * Leaves(fan[1..]) > 0;
    }
  }

  lemma {:induction false} LeafCountsOfUniform(t: Tree, n: nat, fan: seq<nat>)
    requires t.Node? && Uniform(t, fan) && n <= |t.children|
    ensures LeafCountUpTo(t, n) == Area(n, Leaves(fan[1..]))
    decreases t.children, n
  {
    if n > 0 {
      LeafCountsOfUniform(t, n - 1, fan);
      LeafCountOfUniform(t.children[n - 1], fan[1..]);
    }
  }

  /** `total` values, each standing for `leaves` leaves, against the sum over the leaves: never above it, below
      it by at most `budget` units each when nothing overflowed, and by at least 2^64 in all otherwise. */
  predicate Close(leaves: int, total: int, sum: int, budget: int, ok: bool) {
    && leaves * total <= sum
    && (ok ==> sum <= leaves * (total + budget))
    && (!ok ==> sum - leaves * total >= TWO64)
  }

  lemma CloseAdd(leaves: int, total: int, sum: int, budget: int, ok: bool, total': int, sum': int, budget': int, ok': bool)
    requires Close(leaves, total, sum, budget, ok) && Close(leaves, total', sum', budget', ok')
    ensures Close(leaves, total + total', sum + sum', budget + budget', ok && ok')
  {
    assert leaves * (total + total') == leaves * total + leaves * total';
    assert leaves * (total + total' + (budget + budget')) == leaves * (total + budget) + leaves * (total' + budget');
  }

  lemma CloseDivide(leaves: int, n: nat, total: nat, sum: int, depth: int, ok: bool)
    requires leaves > 0 && n > 0 && Close(leaves, total, sum, Product(n, depth), ok)
    ensures var average, fits := Wrap(total) / n, ok && total < TWO64;
            && Close(n * leaves, average, sum, depth + 1, fits)
            && (fits ==> sum < n * leaves * (average + (depth + 1)))
  {
    var w := Wrap(total);
    var average := w / n;
    var rest := w - n * average;
    assert 0 <= rest < n;
    WrapOf(total);
    ScaleMonotone(leaves, n * average, w);
    Rearrange(leaves, n, average);
    Rearrange(leaves, n, average + (depth + 1));
    if ok && total < TWO64 {
      assert n * (average + (depth + 1)) == n * average + n * depth + n;
      ScaleStrict(leaves, total + n * depth, n * (average + (depth + 1)));
    } else if ok {
      ScaleMonotone(leaves, w + TWO64, total);
      assert leaves * (w + TWO64) == leaves * w + leaves * TWO64;
      ScaleMonotone(TWO64, 1, leaves);
    } else {
      ScaleMonotone(leaves, w, total);
    }
  }

  lemma WrapOf(total: nat)
    ensures if total < TWO64 then Wrap(total) == total else Wrap(total) + TWO64 <= total
  {
    if total >= TWO64 {
      var q := total / TWO64;
      assert total == q * TWO64 + Wrap(total);
    }
  }

  lemma ScaleMonotone(k: int, x: int, y: int)
    requires k >= 0 && x <= y
    ensures k * x <= k * y
  {
  }

  lemma ScaleStrict(k: int, x: int, y: int)
    requires k > 0 && x < y
    ensures k * x < k * y
  {
  }

  lemma Rearrange(leaves: int, n: int, x: int)
    ensures n * leaves * x == leaves * (n * x)
  {
  }

  lemma {:induction false} CountDrift(t: Tree, fan: seq<nat>, rate: Rate)
    requires Sound(t) && rate.Valid() && Uniform(t, fan)
    ensures Close(Leaves(fan), Count(Value(t), rate), LeafSum(t, rate), |fan|, NoOverflow(t, rate))
    ensures fan != [] && NoOverflow(t, rate) ==> LeafSum(t, rate) < Leaves(fan) * (Count(Value(t), rate) + |fan|)
    decreases t, 0
  {
    hide Average, Value, Count, CountTotal, Wrap;
    if t.Node? {
      var n := |t.children|;
      CountDrifts(t, n, fan, rate);
      assert Values(t)[..n] == Values(t);
      CountOfAverage(Values(t), rate);
      LeafCountOfUniform(t.children[0], fan[1..]);
      CloseDivide(Leaves(fan[1..]), n, CountTotal(Values(t), rate), LeafSum(t, rate), |fan| - 1, NoOverflows(t, n, rate));
    } else {
      assert Leaves(fan) == 1;
    }
  }

  ghost predicate NoOverflows(t: Tree, n: nat, rate: Rate)
    requires t.Node? && Sound(t) && rate.Valid() && n <= |t.children|
  {
    forall j | 0 <= j < n :: NoOverflow(t.children[j], rate)
  }

  lemma {:induction false} CountDrifts(t: Tree, n: nat, fan: seq<nat>, rate: Rate)
    requires t.Node? && Sound(t) && rate.Valid() && Uniform(t, fan) && n <= |t.children|
    ensures Close(Leaves(fan[1..]), CountTotal(Values(t)[..n], rate), LeafSumUpTo(t, n, rate), Product(n, |fan| - 1), NoOverflows(t, n, rate))
    decreases t.children, n
  {
    hide Average, Count, Close, NoOverflow, Leaves, LeafSum, Value, Product, WellFormed;
    NoProduct(|fan| - 1);
    if n > 0 {
      var c := t.children[n - 1];
      CountDrifts(t, n - 1, fan, rate);
      CountDrift(c, fan[1..], rate);
      assert Values(t)[..n][..n - 1] == Values(t)[..n - 1];
      assert Values(t)[..n][n - 1] == Value(c);
      assert NoOverflows(t, n, rate) == (NoOverflows(t, n - 1, rate) && NoOverflow(c, rate));
      OneMoreFactor(n - 1, |fan| - 1);
      CloseAdd(Leaves(fan[1..]), CountTotal(Values(t)[..n - 1], rate), LeafSumUpTo(t, n - 1, rate), Product(n - 1, |fan| - 1),
               NoOverflows(t, n - 1, rate), Count(Value(c), rate), LeafSum(c, rate), |fan| - 1, NoOverflow(c, rate));
    } else {
      NothingIsClose(Leaves(fan[1..]));
    }
  }

  lemma NothingIsClose(leaves: int)
    ensures Close(leaves, 0, 0, 0, true)
  {
  }

  /** Integer averages through d levels of a uniform roll-up: with A the stored average and M the mean over
      the leaves, A <= M always, and M - d < A if no sum overflowed. Unless the roll-up is astronomically
      wide, an overflow is the only way to lose more. */
  lemma CountDriftBound(t: Tree, fan: seq<nat>, rate: Rate)
    requires Sound(t) && rate.Valid() && Uniform(t, fan) && fan != []
    ensures var a, sum, leaves := Count(Value(t), rate), LeafSum(t, rate), LeafCount(t);
            && leaves * a <= sum
            && (NoOverflow(t, rate) ==> sum < leaves * (a + |fan|))
            && (leaves * |fan| <= TWO64 ==> (sum < leaves * (a + |fan|) <==> NoOverflow(t, rate)))
  {
    hide Value, Count, LeafSum, NoOverflow, Leaves;
    CountDrift(t, fan, rate);
    LeafCountOfUniform(t, fan);
    DriftIff(LeafCount(t), Count(Value(t), rate), LeafSum(t, rate), |fan|, NoOverflow(t, rate));
  }

  lemma DriftIff(leaves: nat, a: int, sum: int, depth: nat, ok: bool)
    requires Close(leaves, a, sum, depth, ok) && (ok ==> sum < leaves * (a + depth))
    ensures leaves * depth <= TWO64 ==> (sum < leaves * (a + depth) <==> ok)
  {
    assert leaves * (a + depth) == leaves * a + leaves * depth;
  }

  /** A record in which one counter is 2^63 and everything else is 0. */
  function OneCounter(i: nat): (s: Stats)
    requires i < SYSTEM.counters
    ensures WellFormed(s) && Count(s, Counter(Main, i)) == 0x8000_0000_0000_0000
  {
    var zero := SYSTEM.Zero();
    Stats(zero.(counters := zero.counters[i := 0x8000_0000_0000_0000]), map[], map[])
  }

  /** Nine such records, as many as the job needs for a 10m record: the sum wraps around, and the average is a ninth of
      the mean. */
  lemma OverflowLosesTraffic(i: nat)
    requires i < SYSTEM.counters
    ensures var t, rate := Same(OneCounter(i), J.M10), Counter(Main, i);
            && Uniform(t, [9]) && LeafCount(t) == 9 && LeafSum(t, rate) == 9 * 0x8000_0000_0000_0000
            && !NoOverflow(t, rate) && Count(Value(t), rate) == 0x8000_0000_0000_0000 / 9
  {
    hide Average, OneCounter, Count, CountTotal;
    var t, rate := Same(OneCounter(i), J.M10), Counter(Main, i);
    var leaf := Leaf(OneCounter(i));
    assert forall j | 0 <= j < 9 :: t.children[j] == leaf && Values(t)[j] == OneCounter(i);
    LeafCountOfUniform(t, [9]);
    SumsOfSame(t, leaf, 9, rate);
    assert Values(t)[..9] == Values(t);
    CountOfAverage(Values(t), rate);
  }

  lemma {:induction false} SumsOfSame(t: Tree, child: Tree, n: nat, rate: Rate)
    requires t.Node? && Sound(t) && Sound(child) && rate.Valid() && n <= |t.children|
    requires forall j | 0 <= j < |t.children| :: t.children[j] == child
    ensures LeafSumUpTo(t, n, rate) == Product(n, LeafSum(child, rate))
    ensures CountTotal(Values(t)[..n], rate) == Product(n, Count(Value(child), rate))
    decreases n
  {
    hide Average, Count, LeafSum, Product, Value;
    NoProduct(LeafSum(child, rate));
    NoProduct(Count(Value(child), rate));
    if n > 0 {
      SumsOfSame(t, child, n - 1, rate);
      OneMoreFactor(n - 1, LeafSum(child, rate));
      OneMoreFactor(n - 1, Count(Value(child), rate));
      assert Values(t)[..n][..n - 1] == Values(t)[..n - 1];
      assert Values(t)[..n][n - 1] == Value(child);
    }
  }

  /** Leaves that are small enough for the widest level never overflow. */
  lemma {:induction false} SmallLeavesDoNotOverflow(t: Tree, fan: seq<nat>, rate: Rate, bound: nat)
    requires Sound(t) && rate.Valid() && Uniform(t, fan) && LeavesAtMost(t, rate, bound)
    requires forall j | 0 <= j < |fan| :: Product(fan[j], bound) < TWO64
    ensures NoOverflow(t, rate) && Count(Value(t), rate) <= bound
    decreases t
  {
    hide Average, Value, Count, Wrap, Product;
    if t.Node? {
      var rs := Values(t);
      forall j | 0 <= j < |t.children|
        ensures NoOverflow(t.children[j], rate) && Count(rs[j], rate) <= bound
      {
        SmallLeavesDoNotOverflow(t.children[j], fan[1..], rate, bound);
      }
      CountTotalAtMost(rs, rate, bound);
      CountOfAverage(rs, rate);
      QuotientAtMost(CountTotal(rs, rate), |rs|, bound);
    }
  }

  ghost predicate LeavesAtMost(t: Tree, rate: Rate, bound: nat)
    requires Sound(t) && rate.Valid()
  {
    match t
    case Leaf(s) => Count(s, rate) <= bound
    case Node(ts) => forall j | 0 <= j < |ts| :: LeavesAtMost(ts[j], rate, bound)
  }

  lemma {:induction false} CountTotalAtMost(rs: seq<Stats>, rate: Rate, bound: nat)
    requires AllWellFormed(rs) && rate.Valid() && forall j | 0 <= j < |rs| :: Count(rs[j], rate) <= bound
    ensures CountTotal(rs, rate) <= Product(|rs|, bound)
    decreases |rs|
  {
    hide WellFormed, Count, Product;
    NoProduct(bound);
    if rs != [] {
      var init := rs[..|rs| - 1];
      CountTotalAtMost(init, rate, bound);
      OneMoreProduct(CountTotal(init, rate), Count(rs[|rs| - 1], rate), |init|, bound, bound);
    }
  }

  // ---------------------------------------------------------------------------------------------
  // Drift of rounded averages
  // ---------------------------------------------------------------------------------------------

  ghost function LeafTotal(t: Tree, part: Part, i: nat): real
    requires Sound(t) && i < part.Shape().gauges
    decreases t, 0
  {
    match t
    case Leaf(s) => Gauge(s, part, i)
    case Node(ts) => LeafTotalUpTo(t, |ts|, part, i)
  }

  ghost function LeafTotalUpTo(t: Tree, n: nat, part: Part, i: nat): real
    requires t.Node? && Sound(t) && n <= |t.children| && i < part.Shape().gauges
    decreases t.children, n
  {
    if n == 0 then 0.0 else LeafTotalUpTo(t, n - 1, part, i) + LeafTotal(t.children[n - 1], part, i)
  }

  /** `total` values, each the mean of `leaves` leaves but for an error, against the sum over the leaves. */
  predicate Near(leaves: real, total: real, sum: real, error: real) {
    -(leaves * error) <= leaves * total - sum <= leaves * error
  }

  lemma NearAdd(leaves: real, total: real, sum: real, error: real, total': real, sum': real, error': real)
    requires Near(leaves, total, sum, error) && Near(leaves, total', sum', error')
    ensures Near(leaves, total + total', sum + sum', error + error')
  {
    assert leaves * (total + total') == leaves * total + leaves * total';
    assert leaves * (error + error') == leaves * error + leaves * error';
  }

  lemma NearDivide(leaves: nat, n: nat, total: real, sum: real, error: real)
    requires leaves > 0 && n > 0 && Near(leaves as real, total, sum, Times(n, error))
    ensures Near(Area(n, leaves) as real, TwoDecimals(total / n as real), sum, error + 0.005)
  {
    hide TwoDecimals;
    var mean := total / n as real;
    var average := TwoDecimals(mean);
    var k := Area(n, leaves) as real;
    RealProduct(n, leaves);
    Associate(leaves as real, n as real, mean, k);
    Associate(leaves as real, n as real, error, k);
    TwoDecimalsIsNear(mean);
    RealScale(k, average - mean, 0.005);
    RealScale(k, -0.005, average - mean);
    Distribute(k, average, -mean);
    Distribute(k, error, 0.005);
    NearFromParts(k, average, sum, error + 0.005, leaves as real * total, leaves as real * Times(n, error));
  }

  lemma Associate(leaves: real, n: real, x: real, k: real)
    requires k == n * leaves
    ensures leaves * (n * x) == k * x
  {
  }

  lemma Distribute(k: real, x: real, y: real)
    ensures k * (x + y) == k * x + k * y
  {
  }

  lemma NearFromParts(k: real, average: real, sum: real, error: real, whole: real, bound: real)
    requires -bound <= whole - sum <= bound
    requires bound - k * error <= k * average - whole <= k * error - bound
    ensures Near(k, average, sum, error)
  {
  }

  lemma RealScaleStrict(k: real, x: real, y: real)
    requires k > 0.0
    ensures x < y ==> k * x < k * y
  {
  }

  lemma RealScale(k: real, x: real, y: real)
    requires k >= 0.0 && x <= y
    ensures k * x <= k * y
  {
  }

  lemma {:induction false} GaugeDrift(t: Tree, fan: seq<nat>, part: Part, i: nat)
    requires Sound(t) && Uniform(t, fan) && i < part.Shape().gauges
    ensures Near(Leaves(fan) as real, Gauge(Value(t), part, i), LeafTotal(t, part, i), Error(|fan|))
    decreases t, 0
  {
    hide Average, Value, Gauge, GaugeTotal, TwoDecimals, Near, Times, Error, Area;
    Errors(|fan|);
    if t.Node? {
      var n, rest := |t.children|, Leaves(fan[1..]);
      GaugeDrifts(t, n, fan, part, i);
      assert Values(t)[..n] == Values(t);
      GaugeOfAverage(Values(t), part, i);
      LeafCountOfUniform(t.children[0], fan[1..]);
      NearDivide(rest, n, GaugeTotal(Values(t), part, i), LeafTotal(t, part, i), Error(|fan| - 1));
    } else {
      NearItself(Gauge(Value(t), part, i));
      assert Leaves(fan) as real == 1.0;
    }
  }

  /** d half-hundredths. */
  function Error(depth: int): real {
    0.005 * depth as real
  }

  lemma Errors(depth: nat)
    ensures Error(0) == 0.0
    ensures Error(depth - 1) + 0.005 == Error(depth)
  {
  }

  lemma OneMoreTime(n: nat, x: real)
    ensures Times(n, x) + x == Times(n + 1, x)
  {
  }

  lemma RealProduct(n: nat, k: nat)
    ensures n as real * k as real == Area(n, k) as real
  {
  }

  lemma NearItself(x: real)
    ensures Near(1.0, x, x, 0.0) && forall leaves: real :: Near(leaves, 0.0, 0.0, 0.0)
  {
  }

  lemma {:induction false} GaugeDrifts(t: Tree, n: nat, fan: seq<nat>, part: Part, i: nat)
    requires t.Node? && Sound(t) && Uniform(t, fan) && n <= |t.children| && i < part.Shape().gauges
    ensures Near(Leaves(fan[1..]) as real, GaugeTotal(Values(t)[..n], part, i), LeafTotalUpTo(t, n, part, i), Times(n, Error(|fan| - 1)))
    decreases t.children, n
  {
    hide Average, Gauge, Near, Leaves, Value, Times, Error;
    var error := Error(|fan| - 1);
    NoTimes(error);
    NearItself(0.0);
    if n > 0 {
      var c := t.children[n - 1];
      GaugeDrifts(t, n - 1, fan, part, i);
      GaugeDrift(c, fan[1..], part, i);
      assert Values(t)[..n][..n - 1] == Values(t)[..n - 1];
      assert Values(t)[..n][n - 1] == Value(c);
      OneMoreTime(n - 1, error);
      NearAdd(Leaves(fan[1..]) as real, GaugeTotal(Values(t)[..n - 1], part, i), LeafTotalUpTo(t, n - 1, part, i),
              Times(n - 1, error), Gauge(Value(c), part, i), LeafTotal(c, part, i), error);
    }
  }

  /** Rounded averages through d levels of a uniform roll-up differ from the mean over the leaves by at most
      d half-hundredths. */
  lemma GaugeDriftBound(t: Tree, fan: seq<nat>, part: Part, i: nat)
    requires Sound(t) && Uniform(t, fan) && i < part.Shape().gauges
    ensures LeafCount(t) > 0
    ensures var mean := LeafTotal(t, part, i) / LeafCount(t) as real;
            -(0.005 * |fan| as real) <= Gauge(Value(t), part, i) - mean <= 0.005 * |fan| as real
  {
    hide Value, Gauge, LeafTotal, Near;
    GaugeDrift(t, fan, part, i);
    LeafCountOfUniform(t, fan);
    MeanIsNear(LeafCount(t) as real, Gauge(Value(t), part, i), LeafTotal(t, part, i), Error(|fan|));
  }

  lemma MeanIsNear(leaves: real, a: real, sum: real, error: real)
    requires leaves > 0.0 && Near(leaves, a, sum, error)
    ensures -error <= a - sum / leaves <= error
  {
    var mean := sum / leaves;
    assert leaves * mean == sum;
    assert leaves * a - sum == leaves * (a - mean);
    RealScaleStrict(leaves, error, a - mean);
    RealScaleStrict(leaves, a - mean, -error);
    assert leaves * -error == -(leaves * error);
  }
}
