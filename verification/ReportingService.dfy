/** The reporting service over the race database. */
module ReportingService {
  import opened Base
  import opened RaceTables
  import opened Sorting
  import opened Reporting
  import opened RaceRules
  import opened RaceStore

  /** One group of the per-car query: COUNT, MIN, SUM of the lap times and MAX of the lap number. */
  datatype Group = Group(count: nat, best: int, total: int, top: int)

  function OrZero(x: Option<int>): int { if x.Some? then x.value else 0 }

  function GroupOf(laps: seq<Lap>): Group { Group(|laps|, OrZero(BestTime(laps)), SumTimes(laps), OrZero(TopNumber(laps))) }

  predicate GroupsOf(groups: map<int, Group>, laps: seq<Lap>, car: int) {
    var mine := CarLaps(laps, car);
    if mine == [] then car !in groups else car in groups && groups[car] == GroupOf(mine)
  }

  function Joined(g: Group, l: Lap): Group {
    Group(g.count + 1, if l.timeMs < g.best then l.timeMs else g.best, g.total + l.timeMs, if l.number > g.top then l.number else g.top)
  }

  function Regrouped(groups: map<int, Group>, l: Lap): map<int, Group> {
    groups[l.car := if l.car in groups then Joined(groups[l.car], l) else Group(1, l.timeMs, l.timeMs, l.number)]
  }

  lemma JoinedIsGroup(laps: seq<Lap>, l: Lap)
    ensures GroupOf(laps + [l]) == if laps == [] then Group(1, l.timeMs, l.timeMs, l.number) else Joined(GroupOf(laps), l)
  {
    var more := laps + [l];
    assert more[..|more| - 1] == laps && more[|more| - 1] == l;
    assert SumTimes(more) == SumTimes(laps) + l.timeMs;
    if laps == [] {
      assert BestTime(laps) == None && TopNumber(laps) == None && SumTimes(laps) == 0;
    } else {
      GroupHasValues(laps);
      assert BestTime(more) == Some(Joined(GroupOf(laps), l).best);
      assert TopNumber(more) == Some(Joined(GroupOf(laps), l).top);
    }
  }

  lemma GroupJoined(groups: map<int, Group>, laps: seq<Lap>, l: Lap, car: int)
    requires GroupsOf(groups, laps, car)
    ensures GroupsOf(Regrouped(groups, l), laps + [l], car)
  {
    CarLapsSnoc(laps, l, car);
    if l.car == car { JoinedIsGroup(CarLaps(laps, car), l); }
  }

  lemma GroupHasValues(laps: seq<Lap>)
    requires laps != []
    ensures BestTime(laps) == Some(GroupOf(laps).best) && TopNumber(laps) == Some(GroupOf(laps).top)
  {
  }

  class ReportingService {
    const db: Database
    const repo: RaceRepository

    constructor (db: Database)
      ensures this.db == db
    {
      this.db := db;
      repo := new RaceRepository();
    }

    method GroupByCar(laps: seq<Lap>) returns (groups: map<int, Group>)
      ensures forall car: int :: GroupsOf(groups, laps, car)
    {
      groups := map[];
      for k := 0 to |laps|
        invariant forall car: int :: GroupsOf(groups, laps[..k], car)
      {
        var l := laps[k];
        ghost var seen := laps[..k + 1];
        assert seen == laps[..k] + [l];
        forall car: int ensures GroupsOf(Regrouped(groups, l), seen, car) { GroupJoined(groups, laps[..k], l, car); }
        groups := Regrouped(groups, l);
      }
      assert laps[..|laps|] == laps;
    }

    /** One row per driver of the race, by car id; None when there is no such race. */
    method DriverStatistics(id: RaceId) returns (stats: Option<seq<DriverStats>>)
      ensures stats == if id in db.tables.races
                       then Some(DriverTable(db.tables.races[id].form.roster, RaceLaps(db.tables.laps, id), CARS)) else None
      ensures id in db.tables.races ==>
                stats.Some? && StatsTell(stats.value, db.tables.races[id].form.roster, RaceLaps(db.tables.laps, id))
    {
      if id !in db.tables.races { return None; }
      var roster, laps := db.tables.races[id].form.roster, RaceLaps(db.tables.laps, id);
      var groups := GroupByCar(laps);
      var rows := [];
      for car := 0 to CARS
        invariant rows == DriverTable(roster, laps, car)
      {
        assert GroupsOf(groups, laps, car + 1);
        if car + 1 in roster {
          if car + 1 in groups {
            var g := groups[car + 1];
            GroupHasValues(CarLaps(laps, car + 1));
            rows := rows + [DriverStats(car + 1, roster[car + 1], g.count, Some(g.best), Some(Rounded(g.total, g.count)),
                                        TimeOfNumber(CarLaps(laps, car + 1), g.top), Some(g.total))];
          } else {
            rows := rows + [DriverStats(car + 1, roster[car + 1], 0, None, None, None, None)];
          }
        }
      }
      TableTells(roster, laps);
      stats := Some(rows);
    }

    method FinalStandings(id: RaceId) returns (rows: Option<seq<StandingsRow>>)
      ensures rows == if id in db.tables.races
                      then Some(Standings(DriverTable(db.tables.races[id].form.roster, RaceLaps(db.tables.laps, id), CARS))) else None
      ensures rows.Some? && rows.value != [] ==>
                Published(rows.value, db.tables.races[id].form.roster, RaceLaps(db.tables.laps, id))
    {
      var stats := DriverStatistics(id);
      if stats.None? { return None; }
      var out := RankRows(stats.value);
      StandingsAreRight(db.tables.races[id].form.roster, RaceLaps(db.tables.laps, id));
      rows := Some(out);
    }

    /** No rows before anybody has a lap; otherwise all drivers, ranked. */
    method RankRows(stats: seq<DriverStats>) returns (rows: seq<StandingsRow>)
      ensures rows == Standings(stats)
    {
      var ranked := SortBy(stats, Ahead);
      if NobodyHasLaps(stats) || ranked == [] { return []; }
      var leader := ranked[0];
      rows := [];
      for k := 0 to |ranked|
        invariant rows == RowsOf(ranked)[..k]
      {
        var s := ranked[k];
        var behind := leader.laps - s.laps;
        var gap := None;
        if behind == 0 && leader.total.Some? && s.total.Some? { gap := Some(s.total.value - leader.total.value); }
        rows := rows + [StandingsRow(k + 1, s.car, s.name, s.laps, s.best, s.total, gap, behind)];
      }
      assert RowsOf(ranked)[..|ranked|] == RowsOf(ranked);
    }

    method RaceSummary(id: RaceId, now: int) returns (summary: Option<Summary>)
      ensures summary == if id in db.tables.races
                         then Some(SummaryOf(db.tables.races[id], RaceLaps(db.tables.laps, id), now)) else None
    {
      if id !in db.tables.races { return None; }
      var race := db.tables.races[id];
      var duration := Duration(race, now);
      var stats := DriverStatistics(id);
      var rows := FinalStandings(id);
      summary := Some(Summary(race, duration, stats.value, rows.value));
    }

    /** Up to the finish, or up to now while there is none. */
    static method Duration(race: Race, now: int) returns (duration: Option<int>)
      ensures duration.Some? <==> race.startedAt.Some?
      ensures duration.Some? ==>
                race.startedAt.value + duration.value == if race.finishedAt.Some? then race.finishedAt.value else now
    {
      if race.startedAt.None? { return None; }
      var end := if race.finishedAt.Some? then race.finishedAt.value else now;
      duration := Some(end - race.startedAt.value);
    }

    method SaveReport(id: RaceId, summary: Summary, fails: bool) returns (ok: bool)
      modifies db
      ensures ok == (id in old(db.tables).races && !fails)
      ensures db.tables == if ok then old(db.tables).(reports := old(db.tables).reports + [Report(id, summary)]) else old(db.tables)
    {
      var session := new Session(db);
      if id !in session.work.races { return false; }
      repo.AddReport(session, Report(id, summary));
      ok := session.Commit(fails);
    }
  }
}
