/** The jobs that create longer records and delete old ones: internal/records/records.go lines 43-161 and
    internal/records/records_deletion.go lines 51-90. Times are in milliseconds. */
module RecordJobsSpec {

  datatype Level = M1 | M10 | M20 | M120 | M480

  datatype Collection = SystemStats | ContainerStats

  datatype Owner = Owner(system: string, collection: Collection)

  const MINUTE: int := 60_000
  const HOUR: int := 3_600_000

  /** longerTimeDuration, shorterType and minShorterRecords of a longer level. */
  function Duration(level: Level): int
    requires level != M1
  {
    match level
    case M10 => 10 * MINUTE
    case M20 => 20 * MINUTE
    case M120 => 120 * MINUTE
    case M480 => 480 * MINUTE
  }

  function Shorter(level: Level): Level
    requires level != M1
  {
    match level
    case M10 => M1
    case M20 => M10
    case M120 => M20
    case M480 => M120
  }

  function MinShorter(level: Level): nat
    requires level != M1
  {
    match level
    case M10 => 9
    case M20 => 2
    case M120 => 6
    case M480 => 4
  }

  function Retention(level: Level): int {
    match level
    case M1 => HOUR
    case M10 => 12 * HOUR
    case M20 => 24 * HOUR
    case M120 => 7 * 24 * HOUR
    case M480 => 30 * 24 * HOUR
  }

  /** The levels whose creation is guarded by the newest record of the same level. */
  predicate Guarded(level: Level) {
    level == M20 || level == M120 || level == M480
  }

  /** The least time between two records of a guarded level. */
  function Spacing(level: Level): int
    requires Guarded(level)
  {
    Duration(level) - MINUTE
  }

  /** A row. For a longer record, `guardTime` and `windowTime` are the two readings of the clock that the job took
      for the guard and for the window, and `inputs` are the rows it averaged. */
  datatype Row = Row(owner: Owner, level: Level, created: int, guardTime: int, windowTime: int, inputs: set<nat>)

  /** `log` holds every row ever created; `alive` says which are still in the table. */
  datatype State = State(log: seq<Row>, alive: set<nat>, clock: int, cleaned: int)
  {
    predicate IsAlive(i: nat, owner: Owner, level: Level) {
      i < |log| && i in alive && log[i].owner == owner && log[i].level == level
    }
  }

  datatype Step =
    | Sample(owner: Owner, created: int)
    | Create(owner: Owner, level: Level, guardTime: int, windowTime: int, created: int)
    | Cleanup(time: int)

  /** The query of the guard: a record of the level since the duration less one minute. */
  predicate HasRecent(s: State, owner: Owner, level: Level, guardTime: int)
    requires level != M1
  {
    exists i | i in s.alive :: s.IsAlive(i, owner, level) && s.log[i].created > guardTime - Duration(level) + MINUTE
  }

  /** The rows of the shorter level in the window. */
  function Window(s: State, owner: Owner, level: Level, windowTime: int): set<nat>
    requires level != M1
  {
    set i | i in s.alive && s.IsAlive(i, owner, Shorter(level)) && s.log[i].created > windowTime - Duration(level)
  }

  /** The clock does not run backwards, and a job runs in one transaction: no row of the owner and no clean-up is
      later than the job's reading of the clock. */
  predicate Enabled(s: State, step: Step) {
    match step
    case Sample(_, created) => s.clock <= created
    case Create(owner, level, guardTime, windowTime, created) =>
      && level != M1 && s.cleaned <= guardTime <= windowTime <= created && s.clock <= created
      && forall i | 0 <= i < |s.log| && s.log[i].owner == owner :: s.log[i].created <= guardTime
    case Cleanup(time) => s.clock <= time
  }

  function Added(s: State, row: Row): State {
    s.(log := s.log + [row], alive := s.alive + {|s.log|}, clock := row.created)
  }

  predicate Kept(s: State, i: nat, time: int) {
    i < |s.log| && s.log[i].created >= time - Retention(s.log[i].level)
  }

  function Apply(s: State, step: Step): State
    requires Enabled(s, step)
  {
    match step
    case Sample(owner, created) => Added(s, Row(owner, M1, created, created, created, {}))
    case Create(owner, level, guardTime, windowTime, created) =>
      if Guarded(level) && HasRecent(s, owner, level, guardTime) then s.(clock := created)
      else
        var inputs := Window(s, owner, level, windowTime);
        if |inputs| < MinShorter(level) then s.(clock := created)
        else Added(s, Row(owner, level, created, guardTime, windowTime, inputs))
    case Cleanup(time) =>
      s.(alive := (set i | i in s.alive && Kept(s, i, time)), clock := time, cleaned := time)
  }

  function Init(time: int): State {
    State([], {}, time, time)
  }

  // ---------------------------------------------------------------------------------------------
  // What every step keeps
  // ---------------------------------------------------------------------------------------------

  /** Rows are not from the future, and only rows older than their retention are gone. */
  predicate Ages(s: State) {
    && s.cleaned <= s.clock
    && (forall i | i in s.alive :: i < |s.log|)
    && (forall i | 0 <= i < |s.log| :: s.log[i].created <= s.clock && (i in s.alive || s.log[i].created < s.cleaned - Retention(s.log[i].level)))
    && (forall i, j | 0 <= i < j < |s.log| && s.log[i].owner == s.log[j].owner :: s.log[i].created <= s.log[j].created)
  }

  /** Two records of a guarded level: the later one's guard saw the earlier one, or it was long gone. */
  predicate Spaced(s: State) {
    forall i, j | 0 <= i < j < |s.log| :: SpacedPair(s.log[i], s.log[j])
  }

  predicate SpacedPair(a: Row, b: Row) {
    a.owner == b.owner && a.level == b.level && Guarded(a.level) ==> b.guardTime - a.created >= Spacing(a.level)
  }

  /** A longer record was made of exactly the shorter ones in its window. */
  ghost predicate Complete(s: State) {
    forall j | 0 <= j < |s.log| && s.log[j].level != M1 :: WindowOf(s.log, j)
  }

  /** A row of the shorter level, created less than the duration ago. */
  predicate InWindow(row: Row, owner: Owner, level: Level, windowTime: int)
    requires level != M1
  {
    row.owner == owner && row.level == Shorter(level) && row.created > windowTime - Duration(level)
  }

  ghost predicate WindowOf(log: seq<Row>, j: nat)
    requires j < |log| && log[j].level != M1
  {
    var x := log[j];
    && x.guardTime <= x.windowTime <= x.created
    && |x.inputs| >= MinShorter(x.level)
    && (forall i: nat :: i in x.inputs <==> i < j && InWindow(log[i], x.owner, x.level, x.windowTime))
    && (forall i | 0 <= i < j && log[i].owner == x.owner :: log[i].created <= x.guardTime)
  }

  ghost predicate Valid(s: State) {
    Ages(s) && Spaced(s) && Complete(s)
  }

  lemma AgesKept(s: State, step: Step)
    requires Ages(s) && Enabled(s, step)
    ensures Ages(Apply(s, step))
  {
  }

  /** What the guard relies on is never deleted: the retention is longer than the duration. */
  lemma GuardIsReliable(s: State, owner: Owner, level: Level, guardTime: int, i: nat)
    requires Ages(s) && s.cleaned <= guardTime && level != M1 && !HasRecent(s, owner, level, guardTime)
    requires i < |s.log| && s.log[i].owner == owner && s.log[i].level == level
    ensures guardTime - s.log[i].created >= Duration(level) - MINUTE
  {
    if i in s.alive {
      assert s.IsAlive(i, owner, level);
    }
  }

  lemma SpacedKept(s: State, step: Step)
    requires Ages(s) && Spaced(s) && Enabled(s, step)
    ensures Spaced(Apply(s, step))
  {
    var t := Apply(s, step);
    if |t.log| > |s.log| {
      var row := t.log[|s.log|];
      forall i | 0 <= i < |s.log|
        ensures SpacedPair(s.log[i], row)
      {
        if s.log[i].owner == row.owner && s.log[i].level == row.level && Guarded(row.level) {
          GuardIsReliable(s, row.owner, row.level, row.guardTime, i);
        }
      }
    }
  }

  /** Nothing in the window was deleted either: the shorter level is kept for longer than the window. */
  lemma WindowIsComplete(s: State, owner: Owner, level: Level, windowTime: int, i: nat)
    requires Ages(s) && s.cleaned <= windowTime && level != M1
    ensures i in Window(s, owner, level, windowTime) <==> i < |s.log| && InWindow(s.log[i], owner, level, windowTime)
  {
  }

  /** The rows of an owner and level ever created after a time. */
  function Since(log: seq<Row>, owner: Owner, level: Level, time: int): set<nat> {
    set i: nat | i < |log| && log[i].owner == owner && log[i].level == level && log[i].created > time
  }

  /** The job saves a record of exactly the shorter records ever created in the last minutes, if there are at least so
      many and no record of the level itself is younger than the gap; otherwise it saves nothing. Both in terms of all rows
      ever created, not of what the clean-ups left. */
  ghost predicate CreatesFrom(s: State, step: Step, shorter: Level, minutes: int, least: nat, gap: int)
    requires step.Create? && Enabled(s, step)
  {
    var inputs := Since(s.log, step.owner, shorter, step.windowTime - 60_000 * minutes);
    if (forall i | 0 <= i < |s.log| && s.log[i].owner == step.owner && s.log[i].level == step.level ::
          step.guardTime - s.log[i].created >= 60_000 * gap)
       && |inputs| >= least
    then
      Apply(s, step) ==
        State(s.log + [Row(step.owner, step.level, step.created, step.guardTime, step.windowTime, inputs)],
              s.alive + {|s.log|}, step.created, s.cleaned)
    else Apply(s, step) == State(s.log, s.alive, step.created, s.cleaned)
  }

  /** The plan of the jobs: for each longer level, what it is made of, how many minutes back, from how many records at
      least, and how many minutes must have passed since the last one of its kind. */
  lemma CreatesIff(s: State, step: Step)
    requires Ages(s) && step.Create? && Enabled(s, step)
    ensures match step.level
            case M10 => CreatesFrom(s, step, M1, 10, 9, 0)
            case M20 => CreatesFrom(s, step, M10, 20, 2, 19)
            case M120 => CreatesFrom(s, step, M20, 120, 6, 119)
            case M480 => CreatesFrom(s, step, M120, 480, 4, 479)
  {
    GuardIff(s, step);
    WindowIsSince(s, step);
    hide Ages, HasRecent, Window, Since;
  }

  lemma GuardIff(s: State, step: Step)
    requires Ages(s) && step.Create? && Enabled(s, step)
    ensures HasRecent(s, step.owner, step.level, step.guardTime) <==>
            exists i | 0 <= i < |s.log| && s.log[i].owner == step.owner && s.log[i].level == step.level ::
              step.guardTime - s.log[i].created < Duration(step.level) - MINUTE
  {
    if !HasRecent(s, step.owner, step.level, step.guardTime) {
      forall i | 0 <= i < |s.log| && s.log[i].owner == step.owner && s.log[i].level == step.level
        ensures step.guardTime - s.log[i].created >= Duration(step.level) - MINUTE
      {
        GuardIsReliable(s, step.owner, step.level, step.guardTime, i);
      }
    }
  }

  lemma WindowIsSince(s: State, step: Step)
    requires Ages(s) && step.Create? && Enabled(s, step)
    ensures Window(s, step.owner, step.level, step.windowTime) ==
            Since(s.log, step.owner, Shorter(step.level), step.windowTime - Duration(step.level))
  {
    forall i: nat
      ensures i in Window(s, step.owner, step.level, step.windowTime) <==>
              i in Since(s.log, step.owner, Shorter(step.level), step.windowTime - Duration(step.level))
    {
      WindowIsComplete(s, step.owner, step.level, step.windowTime, i);
    }
  }

  /** A sample always adds its 1m row, and no other. */
  lemma SampleAdds(s: State, owner: Owner, created: int)
    requires Valid(s) && Enabled(s, Sample(owner, created))
    ensures var t := Next(s, Sample(owner, created));
            && |t.log| == |s.log| + 1 && t.log[..|s.log|] == s.log && t.alive == s.alive + {|s.log|} && |s.log| !in s.alive
            && t.log[|s.log|].owner == owner && t.log[|s.log|].level == M1 && t.log[|s.log|].created == created
  {
    hide Spaced, Complete;
  }

  /** How long rows are kept, in hours: exactly the younger ones are left after a clean-up. */
  lemma CleanupKeeps(s: State, now: int, i: nat)
    requires Valid(s) && Enabled(s, Cleanup(now))
    ensures var t := Next(s, Cleanup(now));
            && t.log == s.log
            && (i in t.alive <==>
                && i in s.alive
                && s.log[i].created >= now - 3_600_000 * match s.log[i].level
                                                         case M1 => 1
                                                         case M10 => 12
                                                         case M20 => 24
                                                         case M120 => 168
                                                         case M480 => 720)
  {
    hide Spaced, Complete;
  }

  lemma CompleteKept(s: State, step: Step)
    requires Ages(s) && Complete(s) && Enabled(s, step)
    ensures Complete(Apply(s, step))
  {
    var t := Apply(s, step);
    forall j | 0 <= j < |t.log| && t.log[j].level != M1
      ensures WindowOf(t.log, j)
    {
      if j < |s.log| {
        assert WindowOf(s.log, j);
        WindowStays(s.log, t.log, j);
      } else {
        NewWindow(s, step);
      }
    }
  }

  lemma WindowStays(log: seq<Row>, more: seq<Row>, j: nat)
    requires log <= more && j < |log| && log[j].level != M1 && WindowOf(log, j)
    ensures WindowOf(more, j)
  {
  }

  lemma NewWindow(s: State, step: Step)
    requires Ages(s) && Enabled(s, step) && step.Create? && |Apply(s, step).log| > |s.log|
    ensures WindowOf(Apply(s, step).log, |s.log|)
  {
    forall i: nat
      ensures i in Window(s, step.owner, step.level, step.windowTime) <==>
              i < |s.log| && InWindow(s.log[i], step.owner, step.level, step.windowTime)
    {
      WindowIsComplete(s, step.owner, step.level, step.windowTime, i);
    }
    hide Ages, Window;
  }

  lemma StepKeepsValid(s: State, step: Step)
    requires Valid(s) && Enabled(s, step)
    ensures Valid(Apply(s, step))
  {
    hide Ages, Spaced, Complete, Apply, Enabled;
    AgesKept(s, step);
    SpacedKept(s, step);
    CompleteKept(s, step);
  }

  lemma InitIsValid(time: int)
    ensures Valid(Init(time))
  {
  }

  ghost function Next(s: State, step: Step): (t: State)
    requires Valid(s)
    ensures Valid(t)
  {
    if Enabled(s, step) then StepKeepsValid(s, step); Apply(s, step) else s
  }

  ghost function After(time: int, steps: seq<Step>): (s: State)
    ensures Valid(s)
    decreases |steps|
  {
    if steps == [] then InitIsValid(time); Init(time) else Next(After(time, steps[..|steps| - 1]), steps[|steps| - 1])
  }

  // ---------------------------------------------------------------------------------------------
  // Cadence
  // ---------------------------------------------------------------------------------------------

  /** Two records of the same owner and level are at least 19, 119 or 479 minutes apart, over every run of samples, jobs
      and clean-ups. */
  lemma RecordsAreSpaced(time: int, steps: seq<Step>, i: nat, j: nat)
    requires var log := After(time, steps).log;
             i < j < |log| && log[i].owner == log[j].owner && log[i].level == log[j].level
    ensures var log := After(time, steps).log;
            log[j].created - log[i].created >= 60_000 * match log[i].level
                                                        case M1 => 0
                                                        case M10 => 0
                                                        case M20 => 19
                                                        case M120 => 119
                                                        case M480 => 479
  {
    hide After;
    var s := After(time, steps);
    assert SpacedPair(s.log[i], s.log[j]);
    if s.log[j].level != M1 {
      assert WindowOf(s.log, j);
    }
  }

  /** A longer record averages exactly the shorter records that were ever created in its window; none of them
      was deleted too early. */
  lemma InputsAreTheWindow(time: int, steps: seq<Step>, j: nat)
    requires j < |After(time, steps).log|
    ensures var log := After(time, steps).log;
            match log[j].level
            case M1 => true
            case M10 => IsMadeOf(log, j, M1, 10, 9)
            case M20 => IsMadeOf(log, j, M10, 20, 2)
            case M120 => IsMadeOf(log, j, M20, 120, 6)
            case M480 => IsMadeOf(log, j, M120, 480, 4)
  {
    hide After;
    var log := After(time, steps).log;
    if log[j].level != M1 {
      assert WindowOf(log, j);
    }
  }

  /** The row is made of the earlier rows of its owner with the shorter level that were less than the minutes old when the
      window was reckoned, of all of them, and of so many at least. */
  ghost predicate IsMadeOf(log: seq<Row>, j: nat, shorter: Level, minutes: int, least: nat)
    requires j < |log|
  {
    var row := log[j];
    && row.windowTime <= row.created && |row.inputs| >= least
    && forall i: nat :: i in row.inputs <==>
         i < j && log[i].owner == row.owner && log[i].level == shorter && log[i].created > row.windowTime - 60_000 * minutes
  }

  /** No record feeds three records of the 20m, 120m and 480m levels. */
  lemma FeedsAtMostTwo(time: int, steps: seq<Step>, i: nat, a: nat, b: nat, c: nat)
    requires a < b < c < |After(time, steps).log|
    requires forall j | j in {a, b, c} :: After(time, steps).log[j].level in {M20, M120, M480}
    ensures var log := After(time, steps).log; !(i in log[a].inputs && i in log[b].inputs && i in log[c].inputs)
  {
    hide After;
    var log := After(time, steps).log;
    assert WindowOf(log, a) && WindowOf(log, b) && WindowOf(log, c);
    assert SpacedPair(log[a], log[b]) && SpacedPair(log[b], log[c]);
  }

  /** Numbers in an interval that are pairwise at least `gap` apart are few. */
  lemma {:induction false} FewFit(log: seq<Row>, ids: set<nat>, from: int, to: int, gap: int)
    requires gap > 0 && ids != {}
    requires forall i | i in ids :: i < |log| && from <= log[i].created <= to
    requires forall i, j | i in ids && j in ids && i < j :: log[j].created - log[i].created >= gap
    ensures (|ids| - 1) * gap <= to - from
    decreases |ids|
  {
    var last := Largest(ids);
    var rest := ids - {last};
    if rest == {} {
      assert ids == {last};
    } else {
      forall i | i in rest
        ensures log[i].created <= log[last].created - gap
      {
      }
      assert |ids| == |rest| + 1;
      FewFit(log, rest, from, log[last].created - gap, gap);
      assert (|ids| - 1) * gap == (|rest| - 1) * gap + gap;
    }
  }

  lemma {:induction false} Largest(ids: set<nat>) returns (last: nat)
    requires ids != {}
    ensures last in ids && forall i | i in ids :: i <= last
    decreases |ids|
  {
    last :| last in ids;
    var rest := ids - {last};
    if rest != {} {
      var other := Largest(rest);
      forall i | i in ids
        ensures i == last || i <= other
      {
        assert i == last || i in rest;
      }
      if other > last {
        last := other;
      }
    }
  }

  /** After a clean-up at most 76, 85 or 91 records of an owner with a level above 10m are left in the table. */
  lemma CleanupBoundsRows(time: int, steps: seq<Step>, now: int, owner: Owner, level: Level, ids: set<nat>)
    requires level in {M20, M120, M480} && Enabled(After(time, steps), Cleanup(now))
    requires var t := Next(After(time, steps), Cleanup(now));
             forall i | i in ids :: i in t.alive && i < |t.log| && t.log[i].owner == owner && t.log[i].level == level
    ensures |ids| <= match level case M20 => 76 case M120 => 85 case _ => 91
  {
    hide After, Next, Enabled;
    var s := After(time, steps);
    RowsAreRecent(s, now, ids, level);
    RowsAreSpaced(Next(s, Cleanup(now)), ids, owner, level);
    FewAreRecent(Next(s, Cleanup(now)).log, ids, now, level);
  }

  lemma FewAreRecent(log: seq<Row>, ids: set<nat>, now: int, level: Level)
    requires Guarded(level) && forall i | i in ids :: i < |log| && now - Retention(level) <= log[i].created <= now
    requires forall i, j | i in ids && j in ids && i < j :: log[j].created - log[i].created >= Spacing(level)
    ensures |ids| <= Retention(level) / Spacing(level) + 1
  {
    if ids != {} {
      FewFit(log, ids, now - Retention(level), now, Spacing(level));
      QuotientBound(|ids| - 1, Spacing(level), Retention(level));
    }
  }

  lemma RowsAreRecent(s: State, now: int, ids: set<nat>, level: Level)
    requires Valid(s) && Enabled(s, Cleanup(now))
    requires var t := Next(s, Cleanup(now)); forall i | i in ids :: i in t.alive && i < |t.log| && t.log[i].level == level
    ensures var t := Next(s, Cleanup(now)); forall i | i in ids :: now - Retention(level) <= t.log[i].created <= now
  {
    hide Spaced, Complete;
  }

  lemma RowsAreSpaced(s: State, ids: set<nat>, owner: Owner, level: Level)
    requires Valid(s) && Guarded(level)
    requires forall i | i in ids :: i < |s.log| && s.log[i].owner == owner && s.log[i].level == level
    ensures forall i, j | i in ids && j in ids && i < j :: s.log[j].created - s.log[i].created >= Spacing(level)
  {
    forall i, j | i in ids && j in ids && i < j
      ensures s.log[j].created - s.log[i].created >= Spacing(level)
    {
      assert SpacedPair(s.log[i], s.log[j]) && WindowOf(s.log, j);
    }
  }

  lemma QuotientBound(n: nat, gap: int, length: int)
    requires gap > 0 && n * gap <= length
    ensures n <= length / gap
  {
    ProductGrows(n, length / gap + 1, gap);
  }

  lemma ProductGrows(n: nat, m: int, gap: int)
    requires gap > 0
    ensures n >= m ==> n * gap >= m * gap
  {
  }
}

/** The jobs themselves, on the table of rows of both collections. */
module RecordManagers {
  import opened RecordJobsSpec

  /** time.Now: never backwards; how much time passes between readings is arbitrary. */
  class Clock {
    var now: int
    var readings: nat
    const ticks: nat -> nat

    constructor (start: int, ticks: nat -> nat)
      ensures now == start
    {
      now, readings := start, 0;
      this.ticks := ticks;
    }

    method Now() returns (t: int)
      modifies this
      ensures t == now >= old(now)
    {
      now := now + ticks(readings);
      readings := readings + 1;
      t := now;
    }
  }

  datatype Stored = Stored(owner: Owner, level: Level, created: int)

  /** A run of steps, all of them enabled. */
  ghost function Ran(s: State, steps: seq<Step>): (t: State)
    requires Valid(s)
    ensures Valid(t)
    decreases |steps|
  {
    if steps == [] then s else Next(Ran(s, steps[..|steps| - 1]), steps[|steps| - 1])
  }

  ghost predicate AllEnabled(s: State, steps: seq<Step>)
    requires Valid(s)
    decreases |steps|
  {
    steps == [] || (AllEnabled(s, steps[..|steps| - 1]) && Enabled(Ran(s, steps[..|steps| - 1]), steps[|steps| - 1]))
  }

  const LEVELS: seq<Level> := [M10, M20, M120, M480]
  const COLLECTIONS: seq<Collection> := [SystemStats, ContainerStats]

  class RecordManager {
    const clock: Clock
    var rows: map<nat, Stored>
    var nextId: nat
    ghost var log: seq<Row>
    ghost var cleaned: int

    ghost function View(): State
      reads this, clock
    {
      State(log, rows.Keys, clock.now, cleaned)
    }

    ghost predicate Linked()
      reads this
    {
      nextId == |log| && forall i | i in rows :: i < |log| && rows[i] == Stored(log[i].owner, log[i].level, log[i].created)
    }

    ghost predicate Valid()
      reads this, clock
    {
      Linked() && RecordJobsSpec.Valid(View())
    }

    constructor (clock: Clock)
      ensures Valid() && View() == Init(clock.now) && this.clock == clock
    {
      this.clock := clock;
      rows, nextId, log, cleaned := map[], 0, [], clock.now;
      new;
      InitIsValid(clock.now);
    }

    /** The save of a new row, with the time of the save. */
    method Save(owner: Owner, level: Level, ghost row: Row)
      requires Linked() && row.owner == owner && row.level == level && row.created == clock.now
      modifies this`rows, this`nextId, this`log
      ensures Linked() && View() == Added(old(View()), row)
    {
      rows := rows[nextId := Stored(owner, level, clock.now)];
      nextId := nextId + 1;
      log := log + [row];
    }

    /** A new 1m record. */
    method AddSample(owner: Owner)
      requires Valid()
      modifies this`rows, this`nextId, this`log, clock
      ensures Valid() && Enabled(old(View()), Sample(owner, clock.now))
      ensures View() == Apply(old(View()), Sample(owner, clock.now))
    {
      hide Ages, Spaced, Complete;
      var created := clock.Now();
      StepKeepsValid(old(View()), Sample(owner, created));
      Save(owner, M1, Row(owner, M1, created, created, created, {}));
    }

    /** The query of the guard and of the window: rows of a system and level in a collection, created after a time. */
    function Created(owner: Owner, level: Level, since: int): set<nat>
      reads this
    {
      set i | i in rows && rows[i].owner == owner && rows[i].level == level && rows[i].created > since
    }

    /** The body of the loops in CreateLongerRecords. */
    method CreateLongerRecord(owner: Owner, level: Level, guardTime: int, windowTime: int) returns (ghost step: Step)
      requires Valid() && level != M1 && cleaned <= guardTime <= windowTime <= clock.now
      requires forall i | 0 <= i < |log| && log[i].owner == owner :: log[i].created <= guardTime
      modifies this`rows, this`nextId, this`log, clock
      ensures Valid() && cleaned == old(cleaned) && clock.now >= old(clock.now)
      ensures step == Create(owner, level, guardTime, windowTime, clock.now)
      ensures Enabled(old(View()), step) && View() == Apply(old(View()), step)
      ensures log == old(log) || (|log| == |old(log)| + 1 && log[..|old(log)|] == old(log) && log[|old(log)|].owner == owner)
    {
      hide Ages, Spaced, Complete;
      ghost var s := View();
      if level != M10 {
        var count := |Created(owner, level, guardTime - Duration(level) + MINUTE)|;
        GuardCounts(owner, level, guardTime);
        if count > 0 {
          step := Create(owner, level, guardTime, windowTime, clock.now);
          StepKeepsValid(s, step);
          return;
        }
      }
      var recordIds := Created(owner, Shorter(level), windowTime - Duration(level));
      assert recordIds == Window(s, owner, level, windowTime);
      if |recordIds| < MinShorter(level) {
        step := Create(owner, level, guardTime, windowTime, clock.now);
        StepKeepsValid(s, step);
        return;
      }
      var created := clock.Now();
      step := Create(owner, level, guardTime, windowTime, created);
      StepKeepsValid(s, step);
      Save(owner, level, Row(owner, level, created, guardTime, windowTime, recordIds));
    }

    lemma GuardCounts(owner: Owner, level: Level, guardTime: int)
      requires Linked() && level != M1
      ensures |Created(owner, level, guardTime - Duration(level) + MINUTE)| > 0 <==> HasRecent(View(), owner, level, guardTime)
    {
      var recent := Created(owner, level, guardTime - Duration(level) + MINUTE);
      if HasRecent(View(), owner, level, guardTime) {
        var i :| i in View().alive && View().IsAlive(i, owner, level) && log[i].created > guardTime - Duration(level) + MINUTE;
        assert i in recent;
      }
      if |recent| > 0 {
        var i :| i in recent;
        assert View().IsAlive(i, owner, level);
      }
    }

    /** Both collections, with the same two readings of the clock. */
    method CreateForLevel(system: string, level: Level) returns (ghost steps: seq<Step>)
      requires Valid() && level != M1
      modifies this`rows, this`nextId, this`log, clock
      ensures Valid()
      ensures AllEnabled(old(View()), steps) && View() == Ran(old(View()), steps)
      ensures |steps| == 2 && forall c | 0 <= c < 2 :: steps[c].Create? && steps[c].owner == Owner(system, COLLECTIONS[c]) && steps[c].level == level
    {
      hide RecordJobsSpec.Valid, Apply, Enabled;
      ghost var s := View();
      var guardTime := clock.Now();
      var windowTime := clock.Now();
      RowsAreOld(s);
      ClockRuns(s, clock.now);
      var first := CreateLongerRecord(Owner(system, SystemStats), level, guardTime, windowTime);
      ClockIsReadLater(s, windowTime, first);
      ghost var t := View();
      var second := CreateLongerRecord(Owner(system, ContainerStats), level, guardTime, windowTime);
      steps := [first, second];
      TwoSteps(s, first, second);
    }

    /** CreateLongerRecords for the systems that are up. */
    method CreateLongerRecords(systems: seq<string>) returns (ghost steps: seq<Step>)
      requires Valid()
      modifies this`rows, this`nextId, this`log, clock
      ensures Valid()
      ensures AllEnabled(old(View()), steps) && View() == Ran(old(View()), steps)
      ensures |steps| == 8 * |systems|
      ensures forall i, l, c | 0 <= i < |systems| && 0 <= l < 4 && 0 <= c < 2 :: IsStepOf(steps, systems, i, l, c)
    {
      hide RecordJobsSpec.Valid, Apply, Enabled, IsStepOf;
      steps := [];
      for i := 0 to |systems|
        invariant Valid() && |steps| == 8 * i
        invariant AllEnabled(old(View()), steps) && View() == Ran(old(View()), steps)
        invariant forall j, l, c | 0 <= j < i && 0 <= l < 4 && 0 <= c < 2 :: IsStepOf(steps, systems, j, l, c)
      {
        ghost var before := steps;
        var more := CreateForSystem(systems[i]);
        steps := steps + more;
        RanConcat(old(View()), before, more);
        MoreSteps(before, more, systems, i);
      }
    }

    method CreateForSystem(system: string) returns (ghost steps: seq<Step>)
      requires Valid()
      modifies this`rows, this`nextId, this`log, clock
      ensures Valid()
      ensures AllEnabled(old(View()), steps) && View() == Ran(old(View()), steps)
      ensures |steps| == 8 && forall l, c | 0 <= l < 4 && 0 <= c < 2 :: IsStepFor(steps, system, l, c)
    {
      hide RecordJobsSpec.Valid, Apply, Enabled;
      steps := [];
      for l := 0 to 4
        invariant Valid() && |steps| == 2 * l
        invariant AllEnabled(old(View()), steps) && View() == Ran(old(View()), steps)
        invariant forall m, c | 0 <= m < l && 0 <= c < 2 :: IsStepFor(steps, system, m, c)
      {
        ghost var before := steps;
        var more := CreateForLevel(system, LEVELS[l]);
        steps := steps + more;
        RanConcat(old(View()), before, more);
        MoreLevels(before, more, system, l);
      }
    }

    /** deleteOldSystemStats: one deletion per collection, with a condition per level. */
    method DeleteOldSystemStats()
      requires Valid()
      modifies this`rows, this`cleaned, clock
      ensures Valid() && Enabled(old(View()), Cleanup(clock.now)) && View() == Apply(old(View()), Cleanup(clock.now))
    {
      hide RecordJobsSpec.Valid;
      ghost var s := View();
      var now := clock.Now();
      StepKeepsValid(s, Cleanup(now));
      AliveIsLogged(s);
      for c := 0 to 2
        invariant Linked() && clock.now == now && log == s.log && cleaned == s.cleaned
        invariant forall i :: i in rows <==> i in s.alive && (Kept(s, i, now) || c <= Index(s.log[i].owner.collection))
      {
        DeleteFrom(COLLECTIONS[c], now);
      }
      cleaned := now;
      assert View() == Apply(s, Cleanup(now));
    }

    method DeleteFrom(collection: Collection, now: int)
      requires Linked()
      modifies this`rows
      ensures Linked()
      ensures forall i :: i in rows <==>
                i in old(rows) && (log[i].owner.collection != collection || log[i].created >= now - Retention(log[i].level))
    {
      var conditions := [];
      for i := 0 to 5
        invariant |conditions| == i && forall j | 0 <= j < i :: conditions[j] == (ALL_LEVELS[j], now - Retention(ALL_LEVELS[j]))
      {
        conditions := conditions + [(ALL_LEVELS[i], now - Retention(ALL_LEVELS[i]))];
      }
      forall row: Stored
        ensures Matches(conditions, row) <==> row.created < now - Retention(row.level)
      {
        MatchesOld(conditions, row, now);
      }
      rows := map id | id in rows && !(rows[id].owner.collection == collection && Matches(conditions, rows[id])) :: rows[id];
    }
  }

  /** Place in the list of collections. */
  function Index(c: Collection): (i: nat)
    ensures i < 2 && COLLECTIONS[i] == c
  {
    match c
    case SystemStats => 0
    case ContainerStats => 1
  }

  const ALL_LEVELS: seq<Level> := [M1, M10, M20, M120, M480]

  predicate Matches(conditions: seq<(Level, int)>, row: Stored) {
    exists i | 0 <= i < |conditions| :: row.level == conditions[i].0 && row.created < conditions[i].1
  }

  lemma MatchesOld(conditions: seq<(Level, int)>, row: Stored, now: int)
    requires |conditions| == 5 && forall j | 0 <= j < 5 :: conditions[j] == (ALL_LEVELS[j], now - Retention(ALL_LEVELS[j]))
    ensures Matches(conditions, row) <==> row.created < now - Retention(row.level)
  {
    var j := match row.level case M1 => 0 case M10 => 1 case M20 => 2 case M120 => 3 case M480 => 4;
    assert conditions[j].0 == row.level;
  }

  ghost predicate IsStepFor(steps: seq<Step>, system: string, l: nat, c: nat)
    requires l < 4 && c < 2
  {
    && 2 * l + c < |steps|
    && steps[2 * l + c].Create? && steps[2 * l + c].owner == Owner(system, COLLECTIONS[c]) && steps[2 * l + c].level == LEVELS[l]
  }

  ghost predicate IsStepOf(steps: seq<Step>, systems: seq<string>, i: nat, l: nat, c: nat)
    requires i < |systems| && l < 4 && c < 2
  {
    && 8 * i + 2 * l + c < |steps|
    && var step := steps[8 * i + 2 * l + c];
       step.Create? && step.owner == Owner(systems[i], COLLECTIONS[c]) && step.level == LEVELS[l]
  }

  lemma MoreLevels(before: seq<Step>, more: seq<Step>, system: string, l: nat)
    requires |before| == 2 * l && l < 4 && |more| == 2
    requires forall m, c | 0 <= m < l && 0 <= c < 2 :: IsStepFor(before, system, m, c)
    requires forall c | 0 <= c < 2 :: more[c].Create? && more[c].owner == Owner(system, COLLECTIONS[c]) && more[c].level == LEVELS[l]
    ensures forall m, c | 0 <= m <= l && 0 <= c < 2 :: IsStepFor(before + more, system, m, c)
  {
    forall m, c | 0 <= m <= l && 0 <= c < 2
      ensures IsStepFor(before + more, system, m, c)
    {
      if m < l {
        assert IsStepFor(before, system, m, c);
      } else {
        assert (before + more)[2 * l + c] == more[c];
      }
    }
  }

  lemma MoreSteps(before: seq<Step>, more: seq<Step>, systems: seq<string>, i: nat)
    requires |before| == 8 * i && i < |systems| && |more| == 8
    requires forall j, l, c | 0 <= j < i && 0 <= l < 4 && 0 <= c < 2 :: IsStepOf(before, systems, j, l, c)
    requires forall l, c | 0 <= l < 4 && 0 <= c < 2 :: IsStepFor(more, systems[i], l, c)
    ensures forall j, l, c | 0 <= j <= i && 0 <= l < 4 && 0 <= c < 2 :: IsStepOf(before + more, systems, j, l, c)
  {
    forall j, l, c | 0 <= j <= i && 0 <= l < 4 && 0 <= c < 2
      ensures IsStepOf(before + more, systems, j, l, c)
    {
      if j < i {
        assert IsStepOf(before, systems, j, l, c);
      } else {
        assert IsStepFor(more, systems[i], l, c);
        assert (before + more)[8 * i + 2 * l + c] == more[2 * l + c];
      }
    }
  }

  lemma {:induction false} RanConcat(s: State, a: seq<Step>, b: seq<Step>)
    requires Valid(s)
    ensures Ran(s, a + b) == Ran(Ran(s, a), b)
    ensures AllEnabled(s, a + b) <==> AllEnabled(s, a) && AllEnabled(Ran(s, a), b)
    decreases |b|
  {
    hide Valid, Next, Enabled;
    if b == [] {
      assert a + b == a;
    } else {
      assert (a + b)[..|a + b| - 1] == a + b[..|b| - 1];
      RanConcat(s, a, b[..|b| - 1]);
    }
  }

  lemma TwoSteps(s: State, first: Step, second: Step)
    requires Valid(s) && Enabled(s, first) && Enabled(Next(s, first), second)
    ensures AllEnabled(s, [first, second]) && Ran(s, [first, second]) == Next(Next(s, first), second)
  {
    hide Valid, Next, Enabled;
    assert [first, second][..1] == [first] && [first][..0] == [];
    assert Ran(s, []) == s && AllEnabled(s, []);
    assert Ran(s, [first]) == Next(s, first) && AllEnabled(s, [first]);
  }

  lemma RowsAreOld(s: State)
    requires Valid(s)
    ensures s.cleaned <= s.clock && forall i | 0 <= i < |s.log| :: s.log[i].created <= s.clock
  {
  }

  lemma AliveIsLogged(s: State)
    requires Valid(s)
    ensures forall i | i in s.alive :: i < |s.log|
  {
  }

  lemma ClockRuns(s: State, now: int)
    requires Valid(s) && s.clock <= now
    ensures Valid(s.(clock := now))
  {
    hide Complete;
    CompleteIsOfLog(s, s.(clock := now));
  }

  lemma CompleteIsOfLog(s: State, t: State)
    requires Complete(s) && t.log == s.log
    ensures Complete(t)
  {
    forall j | 0 <= j < |t.log| && t.log[j].level != M1
      ensures WindowOf(t.log, j)
    {
      assert WindowOf(s.log, j);
    }
  }

  lemma ClockIsReadLater(s: State, now: int, step: Step)
    requires s.clock <= now && step.Create? && Enabled(s.(clock := now), step)
    ensures Enabled(s, step) && Apply(s, step) == Apply(s.(clock := now), step)
  {
    var t := s.(clock := now);
    assert Window(s, step.owner, step.level, step.windowTime) == Window(t, step.owner, step.level, step.windowTime);
    assert HasRecent(s, step.owner, step.level, step.guardTime) <==> HasRecent(t, step.owner, step.level, step.guardTime);
  }
}
