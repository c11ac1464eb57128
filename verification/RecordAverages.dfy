/** Averaging of statistics records: internal/records/records.go lines 176-420.

    A record is modelled by its averaged numbers, its counters and their peaks, for the system itself and
    for every extra filesystem. Fields that the source treats alike share one list; the index constants
    say which is which. */
module RecordAverages {
  import opened UInt64
  import opened Rounding

  /** The fields of one record (or one filesystem) that are averaged and whose peaks are kept: `gauges` are
      averaged and rounded to two decimals, `counters` are averaged by integer division. `peaks[i]` is the
      peak of gauge `source[i]` and `counterPeaks[i]` that of counter i. */
  datatype Block = Block(gauges: seq<real>, peaks: seq<real>, counters: seq<u64>, counterPeaks: seq<u64>)

  /** How many gauges a block has, which of them have a peak, and how many counters it has. */
  datatype Shape = Shape(gauges: nat, sources: seq<nat>, counters: nat)
  {
    predicate Valid() {
      forall i | 0 <= i < |sources| :: sources[i] < gauges
    }

    predicate Fits(b: Block) {
      |b.gauges| == gauges && |b.peaks| == |sources| && |b.counters| == |b.counterPeaks| == counters
    }

    function Zero(): Block {
      Block(seq(gauges, i => 0.0), seq(|sources|, i => 0.0), seq(counters, i => 0), seq(counters, i => 0))
    }
  }

  // Places of the gauges of a system record that have a peak. The order is that of lines 193-225: Cpu, Mem, MemUsed,
  // MemPct, MemBuffCache, MemZfsArc, Swap, SwapUsed, DiskTotal, DiskUsed, DiskPct, DiskReadPs, DiskWritePs,
  // NetworkSent, NetworkRecv, LoadAvg[3], DiskIoStats[6].
  const CPU: nat := 0
  const MEM_USED: nat := 2
  const DISK_READ_PS: nat := 11
  const DISK_WRITE_PS: nat := 12
  const NETWORK_SENT: nat := 13
  const NETWORK_RECV: nat := 14
  const DISK_IO_STATS: nat := 18

  /** Peaks MaxCpu, MaxMem, MaxNetworkSent, MaxNetworkRecv, MaxDiskReadPs, MaxDiskWritePs, MaxDiskIoStats[6];
      counters Bandwidth[2] and DiskIO[2] with MaxBandwidth[2] and MaxDiskIO[2]. */
  const SYSTEM: Shape :=
    Shape(24, [CPU, MEM_USED, NETWORK_SENT, NETWORK_RECV, DISK_READ_PS, DISK_WRITE_PS,
               DISK_IO_STATS, DISK_IO_STATS + 1, DISK_IO_STATS + 2, DISK_IO_STATS + 3, DISK_IO_STATS + 4, DISK_IO_STATS + 5], 4)

  /** Gauges DiskTotal, DiskUsed, DiskWritePs, DiskReadPs, DiskIoStats[6]; peaks MaxDiskReadPS,
      MaxDiskWritePS, MaxDiskIoStats[6]; counters DiskReadBytes and DiskWriteBytes with their peaks. */
  const FILESYSTEM: Shape := Shape(10, [3, 2, 4, 5, 6, 7, 8, 9], 2)

  /** Upload and download per second, and their totals. */
  datatype Nic = Nic(up: u64, down: u64, totalUp: u64, totalDown: u64)

  datatype Stats = Stats(main: Block, extraFs: map<string, Block>, nics: map<string, Nic>)

  predicate WellFormed(s: Stats) {
    SYSTEM.Fits(s.main) && FsFit(s.extraFs)
  }

  function MaxReal(a: real, b: real): real {
    if a >= b then a else b
  }

  function MaxInt(a: u64, b: u64): u64 {
    if a >= b then a else b
  }

  // ---------------------------------------------------------------------------------------------
  // The reference: sums and maxima over a list of blocks
  // ---------------------------------------------------------------------------------------------

  function GaugeSum(blocks: seq<Block>, i: nat): real
    requires forall b <- blocks :: i < |b.gauges|
  {
    if blocks == [] then 0.0 else GaugeSum(blocks[..|blocks| - 1], i) + blocks[|blocks| - 1].gauges[i]
  }

  /** Peak `i` over all blocks, at least 0: the larger of every block's own peak and value. */
  function PeakOver(blocks: seq<Block>, i: nat, source: nat): real
    requires forall b <- blocks :: i < |b.peaks| && source < |b.gauges|
  {
    if blocks == [] then 0.0
    else
      var b := blocks[|blocks| - 1];
      MaxReal(MaxReal(PeakOver(blocks[..|blocks| - 1], i, source), b.peaks[i]), b.gauges[source])
  }

  function CounterSum(blocks: seq<Block>, i: nat): u64
    requires forall b <- blocks :: i < |b.counters|
  {
    if blocks == [] then 0 else Add(CounterSum(blocks[..|blocks| - 1], i), blocks[|blocks| - 1].counters[i])
  }

  function CounterPeakOver(blocks: seq<Block>, i: nat): u64
    requires forall b <- blocks :: i < |b.counters| && i < |b.counterPeaks|
  {
    if blocks == [] then 0
    else
      var b := blocks[|blocks| - 1];
      MaxInt(MaxInt(CounterPeakOver(blocks[..|blocks| - 1], i), b.counterPeaks[i]), b.counters[i])
  }

  predicate AllFit(shape: Shape, blocks: seq<Block>) {
    shape.Valid() && forall b <- blocks :: shape.Fits(b)
  }

  /** Totals before averaging. */
  function SumOf(shape: Shape, blocks: seq<Block>): Block
    requires AllFit(shape, blocks)
  {
    Block(seq(shape.gauges, i requires 0 <= i < shape.gauges => GaugeSum(blocks, i)),
          seq(|shape.sources|, i requires 0 <= i < |shape.sources| => PeakOver(blocks, i, shape.sources[i])),
          seq(shape.counters, i requires 0 <= i < shape.counters => CounterSum(blocks, i)),
          seq(shape.counters, i requires 0 <= i < shape.counters => CounterPeakOver(blocks, i)))
  }

  /** Averages over `count` records; peaks are kept as they are. */
  function Averaged(sum: Block, count: nat): Block
    requires count > 0
  {
    sum.(gauges := seq(|sum.gauges|, i requires 0 <= i < |sum.gauges| => TwoDecimals(sum.gauges[i] / count as real)),
         counters := seq(|sum.counters|, i requires 0 <= i < |sum.counters| => sum.counters[i] / count))
  }

  function Mains(records: seq<Stats>): seq<Block> {
    seq(|records|, i requires 0 <= i < |records| => records[i].main)
  }

  /** The blocks of one filesystem, from the records that have it. */
  function FsBlocks(records: seq<Stats>, key: string): seq<Block> {
    if records == [] then []
    else
      var init, s := FsBlocks(records[..|records| - 1], key), records[|records| - 1];
      if key in s.extraFs then init + [s.extraFs[key]] else init
  }

  function FsKeys(records: seq<Stats>): set<string> {
    if records == [] then {} else FsKeys(records[..|records| - 1]) + records[|records| - 1].extraFs.Keys
  }

  function NicKeys(records: seq<Stats>): set<string> {
    if records == [] then {} else NicKeys(records[..|records| - 1]) + records[|records| - 1].nics.Keys
  }

  function AddNic(sum: Nic, v: Nic): Nic {
    Nic(Add(sum.up, v.up), Add(sum.down, v.down), MaxInt(sum.totalUp, v.totalUp), MaxInt(sum.totalDown, v.totalDown))
  }

  /** Rates are summed and totals maximised over the records that have the interface. */
  function NicSum(records: seq<Stats>, key: string): Nic {
    if records == [] then Nic(0, 0, 0, 0)
    else
      var init, s := NicSum(records[..|records| - 1], key), records[|records| - 1];
      if key in s.nics then AddNic(init, s.nics[key]) else init
  }

  function AveragedNic(sum: Nic, count: nat): Nic
    requires count > 0
  {
    sum.(up := sum.up / count, down := sum.down / count)
  }

  predicate AllWellFormed(records: seq<Stats>) {
    forall i | 0 <= i < |records| :: WellFormed(records[i])
  }

  lemma {:induction false} FsBlocksFit(records: seq<Stats>, key: string)
    requires AllWellFormed(records)
    ensures AllFit(FILESYSTEM, FsBlocks(records, key)) && |FsBlocks(records, key)| <= |records|
    decreases |records|
  {
    if records != [] {
      FsBlocksFit(records[..|records| - 1], key);
    }
  }

  function FsSum(records: seq<Stats>, key: string): Block
    requires AllWellFormed(records)
  {
    FsBlocksFit(records, key);
    SumOf(FILESYSTEM, FsBlocks(records, key))
  }

  /** AverageSystemStatsSlice. */
  function Average(records: seq<Stats>): Stats
    requires AllWellFormed(records)
  {
    if records == [] then Stats(SYSTEM.Zero(), map[], map[])
    else
      Stats(Averaged(SumOf(SYSTEM, Mains(records)), |records|),
            map k | k in FsKeys(records) :: Averaged(FsSum(records, k), |records|),
            map k | k in NicKeys(records) :: AveragedNic(NicSum(records, k), |records|))
  }

  lemma AverageIsWellFormed(records: seq<Stats>)
    requires AllWellFormed(records)
    ensures WellFormed(Average(records))
  {
  }

  // ---------------------------------------------------------------------------------------------
  // Which peak belongs to which gauge
  // ---------------------------------------------------------------------------------------------

  /** The number is the largest that peak `i` or gauge `source` of any block shows, or 0 if none shows more. */
  ghost predicate IsPeakOf(p: real, blocks: seq<Block>, i: nat, source: nat)
    requires forall b <- blocks :: i < |b.peaks| && source < |b.gauges|
  {
    && p >= 0.0 && (forall b <- blocks :: b.peaks[i] <= p && b.gauges[source] <= p)
    && (p == 0.0 || exists b <- blocks :: b.peaks[i] == p || b.gauges[source] == p)
  }

  lemma {:induction false} PeakIsLargest(blocks: seq<Block>, i: nat, source: nat)
    requires forall b <- blocks :: i < |b.peaks| && source < |b.gauges|
    ensures IsPeakOf(PeakOver(blocks, i, source), blocks, i, source)
    decreases |blocks|
  {
    if blocks != [] {
      var init, b := blocks[..|blocks| - 1], blocks[|blocks| - 1];
      PeakIsLargest(init, i, source);
      assert blocks == init + [b];
      assert b in blocks;
    }
  }

  /** Each peak is that of the gauge named. */
  ghost predicate PeaksOf(peaks: seq<real>, blocks: seq<Block>, sources: seq<nat>) {
    && |peaks| == |sources| && (forall i, b | 0 <= i < |sources| && b in blocks :: i < |b.peaks| && sources[i] < |b.gauges|)
    && forall i | 0 <= i < |sources| :: IsPeakOf(peaks[i], blocks, i, sources[i])
  }

  lemma PeaksOfSum(shape: Shape, blocks: seq<Block>)
    requires AllFit(shape, blocks)
    ensures PeaksOf(SumOf(shape, blocks).peaks, blocks, shape.sources)
  {
    hide IsPeakOf, PeakOver;
    forall i | 0 <= i < |shape.sources|
      ensures IsPeakOf(PeakOver(blocks, i, shape.sources[i]), blocks, i, shape.sources[i])
    {
      PeakIsLargest(blocks, i, shape.sources[i]);
    }
  }

  /** MaxCpu is the peak of Cpu (gauge 0), MaxMem of MemUsed (2), MaxNetworkSent of NetworkSent (13), MaxNetworkRecv of
      NetworkRecv (14), MaxDiskReadPs of DiskReadPs (11), MaxDiskWritePs of DiskWritePs (12), and MaxDiskIoStats of
      DiskIoStats (18 to 23). */
  lemma SystemPeaks(records: seq<Stats>)
    requires AllWellFormed(records) && records != []
    ensures PeaksOf(Average(records).main.peaks, Mains(records), [0, 2, 13, 14, 11, 12, 18, 19, 20, 21, 22, 23])
  {
    hide PeaksOf, SumOf;
    PeaksOfSum(SYSTEM, Mains(records));
  }

  /** The filesystems of an average are those of its records. MaxDiskReadPS is the peak of DiskReadPs (gauge 3),
      MaxDiskWritePS of DiskWritePs (2) and MaxDiskIoStats of DiskIoStats (4 to 9). */
  lemma FilesystemPeaks(records: seq<Stats>, key: string)
    requires AllWellFormed(records)
    ensures key in Average(records).extraFs <==> exists s <- records :: key in s.extraFs
    ensures key in Average(records).extraFs ==>
              PeaksOf(Average(records).extraFs[key].peaks, FsBlocks(records, key), [3, 2, 4, 5, 6, 7, 8, 9])
  {
    hide PeaksOf, SumOf, AllFit;
    FsKeysAre(records, key);
    FsBlocksFit(records, key);
    PeaksOfSum(FILESYSTEM, FsBlocks(records, key));
  }

  lemma {:induction false} FsKeysAre(records: seq<Stats>, key: string)
    ensures key in FsKeys(records) <==> exists s <- records :: key in s.extraFs
    decreases |records|
  {
    if records != [] {
      FsKeysAre(records[..|records| - 1], key);
      assert records == records[..|records| - 1] + [records[|records| - 1]];
    }
  }

  // ---------------------------------------------------------------------------------------------
  // The program
  // ---------------------------------------------------------------------------------------------

  /** One more block added to the totals. */
  function AddBlock(shape: Shape, sum: Block, b: Block): Block
    requires shape.Valid() && shape.Fits(sum) && shape.Fits(b)
  {
    Block(seq(shape.gauges, i requires 0 <= i < shape.gauges => sum.gauges[i] + b.gauges[i]),
          seq(|shape.sources|, i requires 0 <= i < |shape.sources| =>
            MaxReal(MaxReal(sum.peaks[i], b.peaks[i]), b.gauges[shape.sources[i]])),
          seq(shape.counters, i requires 0 <= i < shape.counters => Add(sum.counters[i], b.counters[i])),
          seq(shape.counters, i requires 0 <= i < shape.counters =>
            MaxInt(MaxInt(sum.counterPeaks[i], b.counterPeaks[i]), b.counters[i])))
  }

  lemma SumOfSnoc(shape: Shape, blocks: seq<Block>, b: Block)
    requires AllFit(shape, blocks) && shape.Fits(b)
    ensures AllFit(shape, blocks + [b])
    ensures SumOf(shape, blocks + [b]) == AddBlock(shape, SumOf(shape, blocks), b)
  {
    assert (blocks + [b])[..|blocks|] == blocks;
  }

  lemma SumOfNothing(shape: Shape)
    requires shape.Valid()
    ensures SumOf(shape, []) == shape.Zero()
  {
  }

  method Accumulate(shape: Shape, sum: Block, b: Block) returns (r: Block)
    requires shape.Valid() && shape.Fits(sum) && shape.Fits(b)
    ensures r == AddBlock(shape, sum, b)
  {
    r := sum;
    for i := 0 to shape.gauges
      invariant shape.Fits(r) && r == sum.(gauges := r.gauges)
      invariant forall j | 0 <= j < shape.gauges :: r.gauges[j] == if j < i then sum.gauges[j] + b.gauges[j] else sum.gauges[j]
    {
      r := r.(gauges := r.gauges[i := r.gauges[i] + b.gauges[i]]);
    }
    var added := r;
    for i := 0 to |shape.sources|
      invariant shape.Fits(r) && r == added.(peaks := r.peaks)
      invariant forall j | 0 <= j < |shape.sources| ::
                  r.peaks[j] == if j < i then MaxReal(MaxReal(sum.peaks[j], b.peaks[j]), b.gauges[shape.sources[j]]) else sum.peaks[j]
    {
      r := r.(peaks := r.peaks[i := MaxReal(MaxReal(r.peaks[i], b.peaks[i]), b.gauges[shape.sources[i]])]);
    }
    added := r;
    for i := 0 to shape.counters
      invariant shape.Fits(r) && r == added.(counters := r.counters, counterPeaks := r.counterPeaks)
      invariant forall j | 0 <= j < shape.counters ::
                  r.counters[j] == if j < i then Add(sum.counters[j], b.counters[j]) else sum.counters[j]
      invariant forall j | 0 <= j < shape.counters ::
                  r.counterPeaks[j] == if j < i then MaxInt(MaxInt(sum.counterPeaks[j], b.counterPeaks[j]), b.counters[j]) else sum.counterPeaks[j]
    {
      r := r.(counters := r.counters[i := Add(r.counters[i], b.counters[i])],
              counterPeaks := r.counterPeaks[i := MaxInt(MaxInt(r.counterPeaks[i], b.counterPeaks[i]), b.counters[i])]);
    }
  }

  method Divide(sum: Block, count: nat) returns (r: Block)
    requires count > 0
    ensures r == Averaged(sum, count)
  {
    r := sum;
    for i := 0 to |sum.gauges|
      invariant |r.gauges| == |sum.gauges| && r == sum.(gauges := r.gauges)
      invariant forall j | 0 <= j < |sum.gauges| :: r.gauges[j] == if j < i then TwoDecimals(sum.gauges[j] / count as real) else sum.gauges[j]
    {
      r := r.(gauges := r.gauges[i := TwoDecimals(r.gauges[i] / count as real)]);
    }
    var averaged := r;
    for i := 0 to |sum.counters|
      invariant |r.counters| == |sum.counters| && r == averaged.(counters := r.counters)
      invariant forall j | 0 <= j < |sum.counters| :: r.counters[j] == if j < i then sum.counters[j] / count else sum.counters[j]
    {
      r := r.(counters := r.counters[i := r.counters[i] / count]);
    }
  }

  function FsSums(records: seq<Stats>): map<string, Block>
    requires AllWellFormed(records)
  {
    map k | k in FsKeys(records) :: FsSum(records, k)
  }

  function NicSums(records: seq<Stats>): map<string, Nic> {
    map k | k in NicKeys(records) :: NicSum(records, k)
  }

  /** One more record's interfaces and filesystems added to the totals so far. */
  function WithNics(sums: map<string, Nic>, nics: map<string, Nic>): map<string, Nic> {
    map k | k in sums.Keys + nics.Keys :: NicWith(sums, nics, k)
  }

  function NicWith(sums: map<string, Nic>, nics: map<string, Nic>, k: string): Nic
    requires k in sums.Keys + nics.Keys
  {
    if k !in nics then sums[k] else AddNic(if k in sums then sums[k] else Nic(0, 0, 0, 0), nics[k])
  }

  predicate FsFit(extraFs: map<string, Block>) {
    forall k <- extraFs :: FILESYSTEM.Fits(extraFs[k])
  }

  function WithFs(sums: map<string, Block>, extraFs: map<string, Block>): map<string, Block>
    requires FsFit(sums) && FsFit(extraFs)
  {
    map k | k in sums.Keys + extraFs.Keys :: FsWith(sums, extraFs, k)
  }

  function FsWith(sums: map<string, Block>, extraFs: map<string, Block>, k: string): Block
    requires FsFit(sums) && FsFit(extraFs) && k in sums.Keys + extraFs.Keys
  {
    if k !in extraFs then sums[k] else AddBlock(FILESYSTEM, if k in sums then sums[k] else FILESYSTEM.Zero(), extraFs[k])
  }

  /** The totals while the records are read. */
  function Totals(records: seq<Stats>): Stats
    requires AllWellFormed(records)
  {
    Stats(SumOf(SYSTEM, Mains(records)), FsSums(records), NicSums(records))
  }

  method AverageSystemStatsSlice(records: seq<Stats>) returns (sum: Stats)
    requires AllWellFormed(records)
    ensures sum == Average(records)
  {
    hide SumOf, FsSums, NicSums, WithNics, WithFs, AddBlock, Averaged, FsKeys, NicKeys, FsSum, NicSum, Mains;
    sum := Stats(SYSTEM.Zero(), map[], map[]);
    var count := |records|;
    if count == 0 {
      return;
    }
    NoRecords();
    for i := 0 to count
      invariant sum == Totals(records[..i])
    {
      OneMoreRecord(records[..i], records[i]);
      assert records[..i] + [records[i]] == records[..i + 1];
      sum := AddRecord(sum, records[i]);
    }
    assert records[..count] == records;
    sum := DivideAll(sum, count);
    AverageDividesTotals(records);
  }

  method AddRecord(sum: Stats, s: Stats) returns (r: Stats)
    requires WellFormed(sum) && WellFormed(s)
    ensures r == Stats(AddBlock(SYSTEM, sum.main, s.main), WithFs(sum.extraFs, s.extraFs), WithNics(sum.nics, s.nics))
  {
    var main := Accumulate(SYSTEM, sum.main, s.main);
    var nics := AccumulateNics(sum.nics, s.nics);
    var extraFs := AccumulateFilesystems(sum.extraFs, s.extraFs);
    r := Stats(main, extraFs, nics);
  }

  method DivideAll(sum: Stats, count: nat) returns (r: Stats)
    requires count > 0
    ensures r == Divided(sum, count)
  {
    var main := Divide(sum.main, count);
    var nics := DivideNics(sum.nics, count);
    var extraFs := DivideFilesystems(sum.extraFs, count);
    r := Stats(main, extraFs, nics);
  }

  function Divided(sum: Stats, count: nat): Stats
    requires count > 0
  {
    Stats(Averaged(sum.main, count),
          map k | k in sum.extraFs :: Averaged(sum.extraFs[k], count),
          map k | k in sum.nics :: AveragedNic(sum.nics[k], count))
  }

  lemma AverageDividesTotals(records: seq<Stats>)
    requires AllWellFormed(records) && records != []
    ensures Average(records) == Divided(Totals(records), |records|)
  {
    hide SumOf, FsSum, NicSum, Averaged, AveragedNic;
  }

  lemma NoRecords()
    ensures Totals([]) == Stats(SYSTEM.Zero(), map[], map[])
  {
    assert Mains([]) == [];
    SumOfNothing(SYSTEM);
  }

  lemma TotalsFit(records: seq<Stats>)
    requires AllWellFormed(records)
    ensures WellFormed(Totals(records))
  {
    hide SYSTEM, FILESYSTEM;
  }

  lemma OneMoreRecord(records: seq<Stats>, s: Stats)
    requires AllWellFormed(records) && WellFormed(s)
    ensures AllWellFormed(records + [s]) && WellFormed(Totals(records))
    ensures Totals(records + [s]) ==
            Stats(AddBlock(SYSTEM, Totals(records).main, s.main), WithFs(FsSums(records), s.extraFs), WithNics(NicSums(records), s.nics))
  {
    hide SumOf, AddBlock, FsSums, NicSums, WithFs, WithNics;
    TotalsFit(records);
    assert Mains(records + [s]) == Mains(records) + [s.main];
    SumOfSnoc(SYSTEM, Mains(records), s.main);
    NicsOfOneMore(records, s);
    FsOfOneMore(records, s);
  }

  lemma NicsOfOneMore(records: seq<Stats>, s: Stats)
    ensures NicSums(records + [s]) == WithNics(NicSums(records), s.nics)
  {
    hide AddNic;
    assert (records + [s])[..|records|] == records;
    forall k | k in s.nics
      ensures k !in NicKeys(records) ==> NicSum(records, k) == Nic(0, 0, 0, 0)
    {
      MissingNic(records, k);
    }
  }

  lemma FsOfOneMore(records: seq<Stats>, s: Stats)
    requires AllWellFormed(records) && WellFormed(s)
    ensures AllWellFormed(records + [s])
    ensures FsFit(FsSums(records))
    ensures FsSums(records + [s]) == WithFs(FsSums(records), s.extraFs)
  {
    hide AddBlock, SumOf, FsSum, FILESYSTEM;
    assert (records + [s])[..|records|] == records;
    forall k | k in FsKeys(records)
      ensures FILESYSTEM.Fits(FsSum(records, k))
    {
      FsSumFits(records, k);
    }
    forall k | k in FsKeys(records) + s.extraFs.Keys
      ensures FsSum(records + [s], k) == WithFs(FsSums(records), s.extraFs)[k]
    {
      MissingFs(records, k);
      FsSumOfOneMore(records, s, k);
    }
  }

  lemma FsSumFits(records: seq<Stats>, key: string)
    requires AllWellFormed(records)
    ensures FILESYSTEM.Fits(FsSum(records, key))
  {
  }

  lemma FsSumOfOneMore(records: seq<Stats>, s: Stats, key: string)
    requires AllWellFormed(records) && WellFormed(s)
    ensures AllWellFormed(records + [s])
    ensures FILESYSTEM.Fits(FsSum(records, key))
    ensures FsSum(records + [s], key) ==
            if key in s.extraFs then AddBlock(FILESYSTEM, FsSum(records, key), s.extraFs[key]) else FsSum(records, key)
  {
    hide AddBlock, SumOf;
    assert (records + [s])[..|records|] == records;
    FsSumFits(records, key);
    FsBlocksFit(records, key);
    if key in s.extraFs {
      SumOfSnoc(FILESYSTEM, FsBlocks(records, key), s.extraFs[key]);
    }
  }

  lemma {:induction false} MissingNic(records: seq<Stats>, key: string)
    ensures key !in NicKeys(records) ==> NicSum(records, key) == Nic(0, 0, 0, 0)
    decreases |records|
  {
    if records != [] {
      MissingNic(records[..|records| - 1], key);
    }
  }

  lemma {:induction false} MissingFs(records: seq<Stats>, key: string)
    requires AllWellFormed(records)
    ensures key !in FsKeys(records) ==> FsBlocks(records, key) == [] && FsSum(records, key) == FILESYSTEM.Zero()
    decreases |records|
  {
    hide SumOf;
    SumOfNothing(FILESYSTEM);
    if records != [] {
      MissingFs(records[..|records| - 1], key);
    }
  }

  method AccumulateNics(sums: map<string, Nic>, nics: map<string, Nic>) returns (r: map<string, Nic>)
    ensures r == WithNics(sums, nics)
  {
    hide NicsPartly, WithNics, NicWith;
    r := sums;
    var rest := nics.Keys;
    NicsNotYet(sums, nics);
    while rest != {}
      invariant rest <= nics.Keys && NicsPartly(sums, nics, rest, r)
      decreases |rest|
    {
      var key :| key in rest;
      OneNicMore(sums, nics, rest, r, key);
      r := AccumulateNic(sums, nics, key, r);
      rest := rest - {key};
    }
    AllNics(sums, nics, r);
  }

  /** The totals when all interfaces but those in `rest` are added. */
  ghost predicate NicsPartly(sums: map<string, Nic>, nics: map<string, Nic>, rest: set<string>, r: map<string, Nic>) {
    && r.Keys == sums.Keys + (nics.Keys - rest)
    && forall k | k in r :: r[k] == if k in rest then sums[k] else NicWith(sums, nics, k)
  }

  lemma NicsNotYet(sums: map<string, Nic>, nics: map<string, Nic>)
    ensures NicsPartly(sums, nics, nics.Keys, sums)
  {
  }

  lemma OneNicMore(sums: map<string, Nic>, nics: map<string, Nic>, rest: set<string>, r: map<string, Nic>, key: string)
    requires rest <= nics.Keys && key in rest && NicsPartly(sums, nics, rest, r)
    ensures (key in r <==> key in sums) && (key in sums ==> r[key] == sums[key])
    ensures NicsPartly(sums, nics, rest - {key}, r[key := NicWith(sums, nics, key)])
  {
    hide NicWith;
  }

  lemma AllNics(sums: map<string, Nic>, nics: map<string, Nic>, r: map<string, Nic>)
    requires NicsPartly(sums, nics, {}, r)
    ensures r == WithNics(sums, nics)
  {
    hide NicWith;
  }

  method AccumulateNic(ghost sums: map<string, Nic>, nics: map<string, Nic>, key: string, had: map<string, Nic>)
    returns (r: map<string, Nic>)
    requires key in nics && (key in had <==> key in sums) && (key in sums ==> had[key] == sums[key])
    ensures r == had[key := NicWith(sums, nics, key)]
  {
    r := had[key := AddNic(if key in had then had[key] else Nic(0, 0, 0, 0), nics[key])];
  }

  method AccumulateFilesystems(sums: map<string, Block>, extraFs: map<string, Block>) returns (r: map<string, Block>)
    requires FsFit(sums) && FsFit(extraFs)
    ensures r == WithFs(sums, extraFs)
  {
    hide FsPartly, WithFs, FsWith, FsFit;
    r := sums;
    var rest := extraFs.Keys;
    FsNotYet(sums, extraFs);
    while rest != {}
      invariant rest <= extraFs.Keys && FsPartly(sums, extraFs, rest, r)
      decreases |rest|
    {
      var key :| key in rest;
      OneFsMore(sums, extraFs, rest, r, key);
      r := AccumulateFilesystem(sums, extraFs, key, r);
      rest := rest - {key};
    }
    AllFs(sums, extraFs, r);
  }

  /** The totals when all filesystems but those in `rest` are added. */
  ghost predicate FsPartly(sums: map<string, Block>, extraFs: map<string, Block>, rest: set<string>, r: map<string, Block>)
    requires FsFit(sums) && FsFit(extraFs)
  {
    && r.Keys == sums.Keys + (extraFs.Keys - rest)
    && forall k | k in r :: r[k] == if k in rest then sums[k] else FsWith(sums, extraFs, k)
  }

  lemma FsNotYet(sums: map<string, Block>, extraFs: map<string, Block>)
    requires FsFit(sums) && FsFit(extraFs)
    ensures FsPartly(sums, extraFs, extraFs.Keys, sums)
  {
    hide FsFit, AddBlock;
  }

  lemma OneFsMore(sums: map<string, Block>, extraFs: map<string, Block>, rest: set<string>, r: map<string, Block>, key: string)
    requires FsFit(sums) && FsFit(extraFs)
    requires rest <= extraFs.Keys && key in rest && FsPartly(sums, extraFs, rest, r)
    ensures (key in r <==> key in sums) && (key in sums ==> r[key] == sums[key])
    ensures FsPartly(sums, extraFs, rest - {key}, r[key := FsWith(sums, extraFs, key)])
  {
    hide FsWith, FsFit;
  }

  lemma AllFs(sums: map<string, Block>, extraFs: map<string, Block>, r: map<string, Block>)
    requires FsFit(sums) && FsFit(extraFs) && FsPartly(sums, extraFs, {}, r)
    ensures r == WithFs(sums, extraFs)
  {
    hide FsWith, FsFit;
  }

  method AccumulateFilesystem(ghost sums: map<string, Block>, extraFs: map<string, Block>, key: string, had: map<string, Block>)
    returns (r: map<string, Block>)
    requires FsFit(sums) && FsFit(extraFs)
    requires key in extraFs && (key in had <==> key in sums) && (key in sums ==> had[key] == sums[key])
    ensures r == had[key := FsWith(sums, extraFs, key)]
  {
    hide AddBlock;
    var fs := Accumulate(FILESYSTEM, if key in had then had[key] else FILESYSTEM.Zero(), extraFs[key]);
    r := had[key := fs];
  }

  method DivideNics(nics: map<string, Nic>, count: nat) returns (r: map<string, Nic>)
    requires count > 0
    ensures r == map k | k in nics :: AveragedNic(nics[k], count)
  {
    r := nics;
    var rest := nics.Keys;
    while rest != {}
      invariant rest <= nics.Keys && r.Keys == nics.Keys
      invariant forall k <- nics :: r[k] == if k in rest then nics[k] else AveragedNic(nics[k], count)
      decreases |rest|
    {
      var key :| key in rest;
      r := r[key := Nic(r[key].up / count, r[key].down / count, r[key].totalUp, r[key].totalDown)];
      rest := rest - {key};
    }
  }

  method DivideFilesystems(extraFs: map<string, Block>, count: nat) returns (r: map<string, Block>)
    requires count > 0
    ensures r == map k | k in extraFs :: Averaged(extraFs[k], count)
  {
    r := extraFs;
    var rest := extraFs.Keys;
    while rest != {}
      invariant rest <= extraFs.Keys && r.Keys == extraFs.Keys
      invariant forall k <- extraFs :: r[k] == if k in rest then extraFs[k] else Averaged(extraFs[k], count)
      decreases |rest|
    {
      var key :| key in rest;
      var fs := Divide(r[key], count);
      r := r[key := fs];
      rest := rest - {key};
    }
  }
}
