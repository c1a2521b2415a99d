/** What reports say in every reachable state of the race service. */
module RaceReports {
  import opened Base
  import opened RaceTables
  import opened Sorting
  import opened Reporting
  import opened RaceRules
  import opened RaceInvariants

  ghost predicate RowCountsLaps(s: DriverStats, laps: seq<Lap>) {
    var mine := CarLaps(laps, s.car);
    && s.laps == |mine|
    && TopNumber(mine) == (if s.laps == 0 then None else Some(s.laps))
    && s.last == (if s.laps == 0 then None else Some(mine[s.laps - 1].timeMs))
  }

  /**
   * In every reachable state each driver's lap total is also its highest lap number, its "last lap" is
   * the newest row, and the totals together account for every stored lap of the race.
   */
  lemma ReportsCountEveryLap(cfg: Config, ops: seq<Op>, id: RaceId)
    requires !cfg.allowEditRunning && id in Run(cfg, INITIAL, ops).db.races
    ensures var db := Run(cfg, INITIAL, ops).db;
            var laps := RaceLaps(db.laps, id);
            var stats := DriverTable(db.races[id].form.roster, laps, CARS);
            LapTotal(stats) == |laps| && forall s <- stats :: RowCountsLaps(s, laps)
  {
    EveryRunKeepsDatabase(cfg, ops);
    var db := Run(cfg, INITIAL, ops).db;
    var laps, roster := RaceLaps(db.laps, id), db.races[id].form.roster;
    assert RaceRoster(db, id);
    TotalsAddUp(roster, laps);
    DriverTableShape(roster, laps, CARS);
    forall s | s in DriverTable(roster, laps, CARS) ensures RowCountsLaps(s, laps) {
      assert CarContinuous(db, id, s.car);
      if CarLaps(laps, s.car) != [] { ContinuousAggregates(CarLaps(laps, s.car)); }
    }
  }

  /** No other arrangement of the drivers is in ranking order. */
  lemma RankingIsUnique(roster: map<int, string>, laps: seq<Lap>, other: seq<DriverStats>)
    requires multiset(other) == multiset(DriverTable(roster, laps, CARS)) && Ordered(other, Ahead)
    ensures other == Ranked(DriverTable(roster, laps, CARS))
  {
    var stats := DriverTable(roster, laps, CARS);
    DriverTableShape(roster, laps, CARS);
    RankedIsSortedPermutation(stats);
    AheadIsStrict();
    OrderIsUnique(other, Ranked(stats), Ahead);
  }
}
