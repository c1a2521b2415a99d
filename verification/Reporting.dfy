/** Driver statistics and final standings as functions of a race and its stored laps. */
module Reporting {
  import opened Base
  import opened RaceTables
  import opened Sorting

  // ----- SQL aggregates over the laps of one car

  function SumTimes(laps: seq<Lap>): int {
    if |laps| == 0 then 0 else SumTimes(laps[..|laps| - 1]) + laps[|laps| - 1].timeMs
  }

  function BestTime(laps: seq<Lap>): Option<int> {
    if |laps| == 0 then None
    else
      var last := laps[|laps| - 1].timeMs;
      match BestTime(laps[..|laps| - 1])
      case None => Some(last)
      case Some(b) => Some(if last < b then last else b)
  }

  function TopNumber(laps: seq<Lap>): Option<int> {
    if |laps| == 0 then None
    else
      var last := laps[|laps| - 1].number;
      match TopNumber(laps[..|laps| - 1])
      case None => Some(last)
      case Some(b) => Some(if last > b then last else b)
  }

  function TimeOfNumber(laps: seq<Lap>, number: int): Option<int> {
    if |laps| == 0 then None
    else if laps[|laps| - 1].number == number then Some(laps[|laps| - 1].timeMs)
    else TimeOfNumber(laps[..|laps| - 1], number)
  }

  function LastTime(laps: seq<Lap>): Option<int> {
    match TopNumber(laps)
    case None => None
    case Some(n) => TimeOfNumber(laps, n)
  }

  /** The nearest integer to sum / n; of two equally near ones, the even one. */
  function Rounded(sum: int, n: int): int
    requires n > 0
  {
    var q, r := sum / n, sum % n;
    if 2 * r < n then q else if 2 * r > n then q + 1 else if q % 2 == 0 then q else q + 1
  }

  lemma RoundedIsNearest(sum: int, n: int)
    requires n > 0
    ensures -n <= 2 * (Rounded(sum, n) * n - sum) <= n
    ensures 2 * (Rounded(sum, n) * n - sum) == n || 2 * (Rounded(sum, n) * n - sum) == -n ==> Rounded(sum, n) % 2 == 0
  {
    var q, r := sum / n, sum % n;
    assert sum == q * n + r && 0 <= r < n;
    assert (q + 1) * n == q * n + n;
  }

  function StatsFor(car: int, name: string, laps: seq<Lap>): DriverStats {
    DriverStats(car, name, |laps|, BestTime(laps),
                if laps == [] then None else Some(Rounded(SumTimes(laps), |laps|)),
                LastTime(laps),
                if laps == [] then None else Some(SumTimes(laps)))
  }

  /** One entry per driver among cars 1..n, by car id. */
  function DriverTable(roster: map<int, string>, laps: seq<Lap>, n: nat): seq<DriverStats> {
    if n == 0 then []
    else (
      DriverTable(roster, laps, n - 1)
      + (if n in roster then [StatsFor(n, roster[n], CarLaps(laps, n))] else []))
  }

  // ----- the ranking

  const NO_TIME: int := 0x4000_0000_0000_0000

  function OrNoTime(t: Option<int>): int { if t.Some? then t.value else NO_TIME }

  /** The sort key (-laps, total, best, car), compared lexicographically. */
  predicate Ahead(a: DriverStats, b: DriverStats) {
    || a.laps > b.laps
    || (a.laps == b.laps
        && (|| OrNoTime(a.total) < OrNoTime(b.total)
            || (OrNoTime(a.total) == OrNoTime(b.total)
                && (|| OrNoTime(a.best) < OrNoTime(b.best)
                    || (OrNoTime(a.best) == OrNoTime(b.best) && a.car < b.car)))))
  }

  function Ranked(stats: seq<DriverStats>): seq<DriverStats> { SortBy(stats, Ahead) }

  function RowOf(leader: DriverStats, s: DriverStats, position: nat): StandingsRow {
    var behind := leader.laps - s.laps;
    StandingsRow(position, s.car, s.name, s.laps, s.best, s.total,
                 if behind == 0 && leader.total.Some? && s.total.Some?
                 then Some(s.total.value - leader.total.value) else None,
                 behind)
  }

  function RowsOf(ranked: seq<DriverStats>): seq<StandingsRow>
    requires ranked != []
  {
    seq(|ranked|, i requires 0 <= i < |ranked| => RowOf(ranked[0], ranked[i], i + 1))
  }

  predicate NobodyHasLaps(stats: seq<DriverStats>) { forall i :: 0 <= i < |stats| ==> stats[i].laps == 0 }

  function Standings(stats: seq<DriverStats>): seq<StandingsRow> {
    var ranked := Ranked(stats);
    if NobodyHasLaps(stats) || ranked == [] then []
    else RowsOf(ranked)
  }

  function SummaryOf(race: Race, laps: seq<Lap>, now: int): Summary {
    var stats := DriverTable(race.form.roster, laps, CARS);
    Summary(race,
            if race.startedAt.None? then None
            else Some((if race.finishedAt.Some? then race.finishedAt.value else now) - race.startedAt.value),
            stats, Standings(stats))
  }

  // ----- what the numbers mean

  /** Row i carries lap number i + 1. */
  predicate Numbered(laps: seq<Lap>) { forall i :: 0 <= i < |laps| ==> laps[i].number == i + 1 }

  /** On continuously numbered laps the highest number is the count and "last lap" is the newest row. */
  lemma {:induction false} ContinuousAggregates(laps: seq<Lap>)
    requires Numbered(laps) && laps != []
    ensures TopNumber(laps) == Some(|laps|)
    ensures LastTime(laps) == Some(laps[|laps| - 1].timeMs)
  {
    if |laps| > 1 {
      ContinuousAggregates(laps[..|laps| - 1]);
    }
  }

  lemma {:induction false} BestIsMinimum(laps: seq<Lap>)
    requires laps != []
    ensures BestTime(laps).Some?
    ensures forall i :: 0 <= i < |laps| ==> BestTime(laps).value <= laps[i].timeMs
    ensures exists i :: 0 <= i < |laps| && BestTime(laps).value == laps[i].timeMs
  {
    var init, last := laps[..|laps| - 1], laps[|laps| - 1];
    if init != [] {
      BestIsMinimum(init);
      var k :| 0 <= k < |init| && BestTime(init).value == init[k].timeMs;
      assert laps[k].timeMs == BestTime(init).value;
    }
    assert laps[|laps| - 1] == last;
  }

  /** `t` is the sum of all lap times. */
  ghost predicate IsTotal(laps: seq<Lap>, t: int) { t == SumBy(laps, (l: Lap) => l.timeMs) }

  lemma {:induction false} TotalIsSum(laps: seq<Lap>)
    ensures IsTotal(laps, SumTimes(laps))
  {
    if |laps| > 0 {
      var f := (l: Lap) => l.timeMs;
      TotalIsSum(laps[..|laps| - 1]);
      SameSum(laps[..|laps| - 1], f);
      SameSum(laps, f);
    }
  }

  lemma {:induction false} SameSum(laps: seq<Lap>, f: Lap -> int)
    requires forall l :: f(l) == l.timeMs
    ensures IsTotal(laps, SumBy(laps, f))
  {
    SumOfSameValues(laps, f, (l: Lap) => l.timeMs);
  }

  /** `b` is the time of some lap, and no lap is faster. */
  ghost predicate IsBest(laps: seq<Lap>, b: int) {
    (exists l <- laps :: l.timeMs == b) && forall l <- laps :: b <= l.timeMs
  }

  /** `a` is the nearest integer to total / n; of two equally near ones, the even one. */
  predicate IsAverage(a: int, total: int, n: int) {
    && -n <= 2 * (a * n - total) <= n
    && (2 * (a * n - total) == n || 2 * (a * n - total) == -n ==> a % 2 == 0)
  }

  /** `t` is the time of a lap, and no lap has a higher number. */
  ghost predicate IsLast(laps: seq<Lap>, t: int) {
    exists l <- laps :: l.timeMs == t && forall x <- laps :: x.number <= l.number
  }

  /** What one entry says about the laps of its driver. */
  ghost predicate TellsLaps(s: DriverStats, mine: seq<Lap>) {
    && s.laps == |mine|
    && (if mine == [] then s.best.None? && s.average.None? && s.last.None? && s.total.None?
        else
          && s.total.Some? && IsTotal(mine, s.total.value)
          && s.average.Some? && IsAverage(s.average.value, s.total.value, |mine|)
          && s.best.Some? && IsBest(mine, s.best.value)
          && s.last.Some? && IsLast(mine, s.last.value))
  }

  /** One entry for each driver of the race, by car id, true to the stored laps. */
  ghost predicate StatsTell(stats: seq<DriverStats>, roster: map<int, string>, laps: seq<Lap>) {
    && (forall i, j :: 0 <= i < j < |stats| ==> stats[i].car < stats[j].car)
    && (forall s <- stats :: s.car in roster && s.name == roster[s.car] && TellsLaps(s, CarLaps(laps, s.car)))
    && (forall c <- roster :: exists s <- stats :: s.car == c)
  }

  lemma {:induction false} TopIsHighest(laps: seq<Lap>)
    requires laps != []
    ensures TopNumber(laps).Some? && forall l <- laps :: l.number <= TopNumber(laps).value
    ensures exists l <- laps :: l.number == TopNumber(laps).value
  {
    var init, last := laps[..|laps| - 1], laps[|laps| - 1];
    assert last in laps && forall l <- init :: l in laps;
    if init != [] { TopIsHighest(init); }
    forall l | l in laps ensures l == last || l in init { }
  }

  lemma {:induction false} NumberIsFound(laps: seq<Lap>, number: int)
    ensures TimeOfNumber(laps, number).Some? <==> exists l <- laps :: l.number == number
    ensures TimeOfNumber(laps, number).Some? ==>
              exists l <- laps :: l.number == number && l.timeMs == TimeOfNumber(laps, number).value
  {
    if |laps| > 0 {
      var init, last := laps[..|laps| - 1], laps[|laps| - 1];
      NumberIsFound(init, number);
      assert last in laps && forall l <- init :: l in laps;
      forall l | l in laps ensures l == last || l in init { }
    }
  }

  lemma LastIsLast(laps: seq<Lap>)
    requires laps != []
    ensures LastTime(laps).Some? && IsLast(laps, LastTime(laps).value)
  {
    TopIsHighest(laps);
    NumberIsFound(laps, TopNumber(laps).value);
    var l :| l in laps && l.number == TopNumber(laps).value && l.timeMs == TimeOfNumber(laps, TopNumber(laps).value).value;
  }

  lemma EntryTells(car: int, name: string, mine: seq<Lap>)
    ensures TellsLaps(StatsFor(car, name, mine), mine)
  {
    if mine != [] {
      TotalIsSum(mine);
      RoundedIsNearest(SumTimes(mine), |mine|);
      BestIsMinimum(mine);
      LastIsLast(mine);
      var k :| 0 <= k < |mine| && BestTime(mine).value == mine[k].timeMs;
      assert mine[k] in mine;
    }
  }

  /** The table of statistics, entry by entry. */
  lemma TableTells(roster: map<int, string>, laps: seq<Lap>)
    requires forall c <- roster :: 1 <= c <= CARS
    ensures StatsTell(DriverTable(roster, laps, CARS), roster, laps)
  {
    var stats := DriverTable(roster, laps, CARS);
    DriverTableShape(roster, laps, CARS);
    forall s | s in stats ensures TellsLaps(s, CarLaps(laps, s.car)) { EntryTells(s.car, s.name, CarLaps(laps, s.car)); }
    forall c | c in roster ensures exists s <- stats :: s.car == c {
      assert StatsFor(c, roster[c], CarLaps(laps, c)) in stats;
    }
  }

  lemma {:induction false} DriverTableShape(roster: map<int, string>, laps: seq<Lap>, n: nat)
    ensures forall s <- DriverTable(roster, laps, n) ::
              && 1 <= s.car <= n && s.car in roster
              && s == StatsFor(s.car, roster[s.car], CarLaps(laps, s.car))
    ensures forall c :: 1 <= c <= n && c in roster ==>
              StatsFor(c, roster[c], CarLaps(laps, c)) in DriverTable(roster, laps, n)
    ensures forall i, j :: 0 <= i < j < |DriverTable(roster, laps, n)| ==>
              DriverTable(roster, laps, n)[i].car < DriverTable(roster, laps, n)[j].car
  {
    if n > 0 {
      DriverTableShape(roster, laps, n - 1);
      var shorter := DriverTable(roster, laps, n - 1);
      forall i | 0 <= i < |shorter| ensures shorter[i].car <= n - 1 {
        assert shorter[i] in shorter;
      }
    }
  }

  ghost predicate RankedOrder(ranked: seq<DriverStats>) { Ordered(ranked, Ahead) }

  lemma AheadIsStrict()
    ensures StrictOrder(Ahead)
  {
  }

  lemma RankedIsSortedPermutation(stats: seq<DriverStats>)
    requires forall i, j :: 0 <= i < j < |stats| ==> stats[i].car < stats[j].car
    ensures RankedOrder(Ranked(stats))
    ensures multiset(Ranked(stats)) == multiset(stats)
  {
    AheadIsStrict();
    SortIsOrdered(stats, Ahead);
    SortIsPermutation(stats, Ahead);
  }

  // ----- rows account for every stored lap

  function LapTotal(stats: seq<DriverStats>): nat {
    if |stats| == 0 then 0 else LapTotal(stats[..|stats| - 1]) + stats[|stats| - 1].laps
  }

  function LapsUpToCar(laps: seq<Lap>, n: nat): nat {
    if n == 0 then 0 else LapsUpToCar(laps, n - 1) + |CarLaps(laps, n)|
  }

  lemma CarLapsSnoc(laps: seq<Lap>, l: Lap, car: int)
    ensures CarLaps(laps + [l], car) == if l.car == car then CarLaps(laps, car) + [l] else CarLaps(laps, car)
  {
    FilterSnoc(laps, l, (x: Lap) => x.car == car);
    assert CarLaps(laps, car) + [] == CarLaps(laps, car);
  }

  lemma {:induction false} LapsUpToCarSnoc(laps: seq<Lap>, x: Lap, n: nat)
    ensures LapsUpToCar(laps + [x], n) == LapsUpToCar(laps, n) + (if 1 <= x.car <= n then 1 else 0)
  {
    if n > 0 {
      LapsUpToCarSnoc(laps, x, n - 1);
      CarLapsSnoc(laps, x, n);
    }
  }

  lemma {:induction false} EveryLapHasACar(laps: seq<Lap>, n: nat)
    requires forall l <- laps :: 1 <= l.car <= n
    ensures LapsUpToCar(laps, n) == |laps|
  {
    if |laps| == 0 {
      NoLapsNoCount(n);
    } else {
      var init, last := laps[..|laps| - 1], laps[|laps| - 1];
      assert laps == init + [last];
      EveryLapHasACar(init, n);
      LapsUpToCarSnoc(init, last, n);
    }
  }

  lemma {:induction false} NoLapsNoCount(n: nat)
    ensures LapsUpToCar([], n) == 0
  {
    if n > 0 { NoLapsNoCount(n - 1); }
  }

  lemma {:induction false} TableCountsRosterLaps(roster: map<int, string>, laps: seq<Lap>, n: nat)
    requires forall l <- laps :: l.car in roster
    ensures LapTotal(DriverTable(roster, laps, n)) == LapsUpToCar(laps, n)
  {
    if n > 0 {
      TableCountsRosterLaps(roster, laps, n - 1);
      if n !in roster && CarLaps(laps, n) != [] {
        var l := CarLaps(laps, n)[0];
        FilterIn(laps, l, (x: Lap) => x.car == n);
        assert false;
      }
      var shorter := DriverTable(roster, laps, n - 1);
      if n in roster {
        assert DriverTable(roster, laps, n)[..|shorter|] == shorter;
      } else {
        assert DriverTable(roster, laps, n) == shorter;
      }
    }
  }

  /** Row a is strictly above row b in the published order. */
  predicate RowAhead(a: StandingsRow, b: StandingsRow) {
    || a.laps > b.laps
    || (a.laps == b.laps
        && (|| OrNoTime(a.total) < OrNoTime(b.total)
            || (a.total == b.total
                && (OrNoTime(a.best) < OrNoTime(b.best) || (a.best == b.best && a.car < b.car)))))
  }

  /** A row tells the truth about its driver's stored laps. */
  ghost predicate RowMatches(row: StandingsRow, roster: map<int, string>, laps: seq<Lap>) {
    var mine := CarLaps(laps, row.car);
    && row.car in roster && row.name == roster[row.car]
    && row.laps == |mine|
    && (if mine == [] then row.best.None? && row.total.None?
        else row.best.Some? && IsBest(mine, row.best.value) && row.total.Some? && IsTotal(mine, row.total.value))
  }

  /** Strictly ordered, and the number of laps behind the leader never decreases downwards. */
  ghost predicate TableOrder(rows: seq<StandingsRow>) {
    forall i, j :: 0 <= i < j < |rows| ==> RowAhead(rows[i], rows[j]) && rows[i].lapsBehind <= rows[j].lapsBehind
  }

  /**
   * Laps behind are counted from the leader. A gap is published exactly on the lead lap and is the time
   * lost to the leader; gaps start at 0 and never decrease.
   */
  ghost predicate GapsGrow(rows: seq<StandingsRow>) {
    && (rows != [] ==> rows[0].lapsBehind == 0 && rows[0].gap == Some(0))
    && (forall i :: 0 <= i < |rows| ==> GapIs(rows[0], rows[i]))
    && (forall i, j :: 0 <= i < j < |rows| && rows[i].gap.Some? && rows[j].gap.Some? ==>
          rows[i].gap.value <= rows[j].gap.value)
  }

  predicate GapIs(leader: StandingsRow, row: StandingsRow) {
    && row.lapsBehind + row.laps == leader.laps && row.lapsBehind >= 0
    && (row.gap.Some? <==> row.laps == leader.laps)
    && (row.gap.Some? ==> leader.total.Some? && row.total.Some? && leader.total.value + row.gap.value == row.total.value)
  }

  ghost predicate HasRow(rows: seq<StandingsRow>, car: int) { exists i :: 0 <= i < |rows| && rows[i].car == car }

  ghost predicate HasDriver(stats: seq<DriverStats>, car: int) { exists i :: 0 <= i < |stats| && stats[i].car == car }

  /** One row for each driver of the roster and for nobody else. */
  ghost predicate OneRowPerDriver(rows: seq<StandingsRow>, roster: map<int, string>) {
    && (forall i :: 0 <= i < |rows| ==> rows[i].car in roster)
    && (forall i, j :: 0 <= i < j < |rows| ==> rows[i].car != rows[j].car)
    && (forall c <- roster :: HasRow(rows, c))
  }

  ghost predicate TrueStats(s: DriverStats, roster: map<int, string>, laps: seq<Lap>) {
    s.car in roster && s == StatsFor(s.car, roster[s.car], CarLaps(laps, s.car))
  }

  ghost predicate AllTrueStats(ranked: seq<DriverStats>, roster: map<int, string>, laps: seq<Lap>) {
    forall i :: 0 <= i < |ranked| ==> TrueStats(ranked[i], roster, laps)
  }

  lemma RowsAreOrdered(ranked: seq<DriverStats>, roster: map<int, string>, laps: seq<Lap>)
    requires ranked != [] && RankedOrder(ranked)
    requires AllTrueStats(ranked, roster, laps)
    ensures TableOrder(RowsOf(ranked))
  {
    var rows := RowsOf(ranked);
    forall i, j | 0 <= i < j < |rows| ensures RowAhead(rows[i], rows[j]) && rows[i].lapsBehind <= rows[j].lapsBehind {
      assert Ahead(ranked[i], ranked[j]);
      if ranked[i].laps == ranked[j].laps {
        SameKeySameValue(ranked[i], ranked[j], laps);
      }
    }
  }

  lemma RowsHaveGrowingGaps(ranked: seq<DriverStats>, roster: map<int, string>, laps: seq<Lap>)
    requires ranked != [] && RankedOrder(ranked) && ranked[0].laps > 0
    requires AllTrueStats(ranked, roster, laps)
    ensures GapsGrow(RowsOf(ranked))
  {
    var rows := RowsOf(ranked);
    forall i | 0 <= i < |rows| ensures GapIs(rows[0], rows[i]) {
      if i > 0 { assert Ahead(ranked[0], ranked[i]); }
      assert TrueStats(ranked[i], roster, laps);
    }
    forall i, j | 0 <= i < j < |rows| && rows[i].gap.Some? && rows[j].gap.Some?
      ensures rows[i].gap.value <= rows[j].gap.value
    {
      assert Ahead(ranked[i], ranked[j]);
    }
  }

  lemma RankedIsTrue(roster: map<int, string>, laps: seq<Lap>)
    requires forall c <- roster :: 1 <= c <= CARS
    ensures RankedOrder(Ranked(DriverTable(roster, laps, CARS)))
    ensures AllTrueStats(Ranked(DriverTable(roster, laps, CARS)), roster, laps)
  {
    var stats := DriverTable(roster, laps, CARS);
    DriverTableShape(roster, laps, CARS);
    RankedIsSortedPermutation(stats);
    var ranked := Ranked(stats);
    forall i | 0 <= i < |ranked| ensures TrueStats(ranked[i], roster, laps) {
      assert ranked[i] in multiset(stats);
    }
  }

  lemma RankedCoversRoster(roster: map<int, string>, laps: seq<Lap>)
    requires forall c <- roster :: 1 <= c <= CARS
    ensures forall c <- roster :: HasDriver(Ranked(DriverTable(roster, laps, CARS)), c)
  {
    var stats := DriverTable(roster, laps, CARS);
    var ranked := Ranked(stats);
    DriverTableShape(roster, laps, CARS);
    RankedIsSortedPermutation(stats);
    forall c | c in roster ensures HasDriver(ranked, c) {
      var s := StatsFor(c, roster[c], CarLaps(laps, c));
      assert s in multiset(stats);
      assert s in multiset(ranked);
      var i :| 0 <= i < |ranked| && ranked[i] == s;
      assert ranked[i].car == c;
    }
  }

  /** Two different places of the ranking are two different drivers. */
  lemma RankedIsDistinct(ranked: seq<DriverStats>, roster: map<int, string>, laps: seq<Lap>, i: nat, j: nat)
    requires RankedOrder(ranked) && AllTrueStats(ranked, roster, laps) && i < j < |ranked|
    ensures ranked[i].car != ranked[j].car
  {
    assert TrueStats(ranked[i], roster, laps) && TrueStats(ranked[j], roster, laps);
    assert Ahead(ranked[i], ranked[j]);
  }

  /** The table is empty exactly when no driver has a lap. */
  lemma StandingsEmptyIff(roster: map<int, string>, laps: seq<Lap>)
    requires forall c <- roster :: 1 <= c <= CARS
    ensures Standings(DriverTable(roster, laps, CARS)) == [] <==> forall c <- roster :: |CarLaps(laps, c)| == 0
  {
    var stats := DriverTable(roster, laps, CARS);
    DriverTableShape(roster, laps, CARS);
    if NobodyHasLaps(stats) {
      forall c | c in roster ensures |CarLaps(laps, c)| == 0 {
        assert StatsFor(c, roster[c], CarLaps(laps, c)) in stats;
      }
    } else {
      var k :| 0 <= k < |stats| && stats[k].laps != 0;
      assert stats[k] in stats;
      RankedIsSortedPermutation(stats);
      LeaderHasLaps(stats, Ranked(stats));
    }
  }

  /** Positions are 1..n and every row is true to the stored laps of its driver. */
  ghost predicate RowsTrue(rows: seq<StandingsRow>, roster: map<int, string>, laps: seq<Lap>) {
    forall i :: 0 <= i < |rows| ==> rows[i].position == i + 1 && RowMatches(rows[i], roster, laps)
  }

  ghost predicate Published(rows: seq<StandingsRow>, roster: map<int, string>, laps: seq<Lap>) {
    OneRowPerDriver(rows, roster) && RowsTrue(rows, roster, laps) && TableOrder(rows) && GapsGrow(rows)
  }

  /**
   * The published table: one row per driver, true to the stored laps, positions 1..n, strictly
   * ordered, with growing gaps on the lead lap.
   */
  lemma StandingsAreRight(roster: map<int, string>, laps: seq<Lap>)
    requires forall c <- roster :: 1 <= c <= CARS
    ensures var rows := Standings(DriverTable(roster, laps, CARS));
            rows != [] ==> Published(rows, roster, laps)
  {
    var stats := DriverTable(roster, laps, CARS);
    var ranked := Ranked(stats);
    if Standings(stats) != [] {
      assert Standings(stats) == RowsOf(ranked);
      DriverTableShape(roster, laps, CARS);
      RankedIsTrue(roster, laps);
      RankedCoversRoster(roster, laps);
      LeaderHasLaps(stats, ranked) by { RankedIsSortedPermutation(stats); }
      RowsAreOrdered(ranked, roster, laps);
      RowsHaveGrowingGaps(ranked, roster, laps);
      RowsTellTheTruth(ranked, roster, laps);
      forall i | 0 <= i < |ranked| ensures ranked[i].car in roster { assert TrueStats(ranked[i], roster, laps); }
      forall i, j | 0 <= i < j < |ranked| ensures ranked[i].car != ranked[j].car {
        RankedIsDistinct(ranked, roster, laps, i, j);
      }
      RowsCoverRoster(ranked, roster);
    }
  }

  lemma RowsTellTheTruth(ranked: seq<DriverStats>, roster: map<int, string>, laps: seq<Lap>)
    requires ranked != []
    requires AllTrueStats(ranked, roster, laps)
    ensures RowsTrue(RowsOf(ranked), roster, laps)
  {
    forall i | 0 <= i < |ranked| ensures RowMatches(RowsOf(ranked)[i], roster, laps) {
      assert TrueStats(ranked[i], roster, laps);
      EntryTells(ranked[i].car, ranked[i].name, CarLaps(laps, ranked[i].car));
      assert RowsOf(ranked)[i] == RowOf(ranked[0], ranked[i], i + 1);
    }
  }

  lemma RowCars(ranked: seq<DriverStats>)
    requires ranked != []
    ensures |RowsOf(ranked)| == |ranked| && forall i :: 0 <= i < |ranked| ==> RowsOf(ranked)[i].car == ranked[i].car
  {
  }

  lemma DriverHasRow(ranked: seq<DriverStats>, rows: seq<StandingsRow>, c: int)
    requires |rows| == |ranked| && (forall i :: 0 <= i < |ranked| ==> rows[i].car == ranked[i].car)
    requires HasDriver(ranked, c)
    ensures HasRow(rows, c)
  {
    var i :| 0 <= i < |ranked| && ranked[i].car == c;
    assert rows[i].car == c;
  }

  lemma RowsCoverRoster(ranked: seq<DriverStats>, roster: map<int, string>)
    requires ranked != []
    requires forall i :: 0 <= i < |ranked| ==> ranked[i].car in roster
    requires forall i, j :: 0 <= i < j < |ranked| ==> ranked[i].car != ranked[j].car
    requires forall c <- roster :: HasDriver(ranked, c)
    ensures OneRowPerDriver(RowsOf(ranked), roster)
  {
    var rows := RowsOf(ranked);
    RowCars(ranked);
    forall c | c in roster ensures HasRow(rows, c) { DriverHasRow(ranked, rows, c); }
  }

  lemma LeaderHasLaps(stats: seq<DriverStats>, ranked: seq<DriverStats>)
    requires !NobodyHasLaps(stats) && RankedOrder(ranked) && multiset(ranked) == multiset(stats)
    ensures ranked != [] && ranked[0].laps > 0
  {
    var k :| 0 <= k < |stats| && stats[k].laps != 0;
    assert stats[k] in multiset(ranked);
    var i :| 0 <= i < |ranked| && ranked[i] == stats[k];
    if i > 0 { assert Ahead(ranked[0], ranked[i]); }
  }

  lemma SameKeySameValue(a: DriverStats, b: DriverStats, laps: seq<Lap>)
    requires a == StatsFor(a.car, a.name, CarLaps(laps, a.car)) && b == StatsFor(b.car, b.name, CarLaps(laps, b.car))
    requires a.laps == b.laps
    ensures OrNoTime(a.total) == OrNoTime(b.total) ==> a.total == b.total
    ensures OrNoTime(a.best) == OrNoTime(b.best) ==> a.best == b.best
  {
    if a.laps > 0 {
      BestIsMinimum(CarLaps(laps, a.car));
      BestIsMinimum(CarLaps(laps, b.car));
    }
  }

  /** How long the race took, or has taken so far. */
  lemma SummaryTells(race: Race, laps: seq<Lap>, now: int)
    ensures var s := SummaryOf(race, laps, now);
            && s.race == race
            && (s.durationMs.Some? <==> race.startedAt.Some?)
            && (race.startedAt.Some? ==>
                  race.startedAt.value + s.durationMs.value == if race.finishedAt.Some? then race.finishedAt.value else now)
            && StatsTell(s.drivers, race.form.roster, laps)
  {
    TableTells(race.form.roster, laps);
  }

  /** The lap totals of a race whose laps all belong to drivers add up to the stored rows. */
  lemma TotalsAddUp(roster: map<int, string>, laps: seq<Lap>)
    requires forall c <- roster :: 1 <= c <= CARS
    requires forall l <- laps :: l.car in roster
    ensures LapTotal(DriverTable(roster, laps, CARS)) == |laps|
  {
    TableCountsRosterLaps(roster, laps, CARS);
    EveryLapHasACar(laps, CARS);
  }
}
