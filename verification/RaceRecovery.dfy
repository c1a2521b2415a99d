/** What a recovery that storage does not disturb makes of any tables, reachable or not. */
module RaceRecovery {
  import opened Base
  import opened RaceTables
  import opened RaceRules
  import opened RaceInvariants

  predicate Undisturbed(txs: seq<Tx>) { forall tx <- txs :: tx.Commits? }

  lemma UndisturbedHead(txs: seq<Tx>)
    requires Undisturbed(txs)
    ensures Head(txs).Commits? && Undisturbed(Tail(txs))
  {
  }

  // ----- the list that recovery works through

  lemma {:induction false} ListsEveryRace(ids: set<RaceId>)
    ensures |NewestFirst(ids)| == |ids| && forall id :: id in NewestFirst(ids) <==> id in ids
    decreases ids
  {
    if ids != {} {
      var top := Maximum(ids);
      ListsEveryRace(ids - {top});
      assert NewestFirst(ids) == [top] + NewestFirst(ids - {top});
      forall id ensures id in NewestFirst(ids) <==> id in ids {
        assert id in NewestFirst(ids) <==> id == top || id in NewestFirst(ids - {top});
      }
    }
  }

  lemma {:induction false} OldestIsLast(ids: set<RaceId>)
    requires ids != {}
    ensures var list := NewestFirst(ids);
            |list| > 0 && list[|list| - 1] in ids && forall id <- ids :: list[|list| - 1] <= id
    decreases ids
  {
    var top := Maximum(ids);
    var rest := ids - {top};
    assert ids == rest + {top};
    if rest == {} {
      assert NewestFirst(rest) == [];
    } else {
      OldestIsLast(rest);
      var list := NewestFirst(ids);
      assert list == [top] + NewestFirst(rest) && list[|list| - 1] == NewestFirst(rest)[|NewestFirst(rest)| - 1];
      forall id | id in ids ensures list[|list| - 1] <= id { if id != top { assert id in rest; } }
    }
  }

  // ----- reattaching

  lemma {:induction false} Reattaches(cfg: Config, s: Sys, ids: seq<RaceId>, txs: seq<Tx>)
    requires cfg.recoverRunning && Undisturbed(txs)
    ensures var s' := Recover(cfg, s, ids, txs);
            && s' == s.(db := s.db.(checkpoints := s'.db.checkpoints), active := s'.active)
            && s'.active == if ids == [] then s.active else Some(ids[|ids| - 1])
    decreases |ids|
  {
    if |ids| != 0 {
      UndisturbedHead(txs);
      Reattaches(cfg, SeededSys(s, ids[0]).(active := Some(ids[0])), ids[1..], Tail(txs));
    }
  }

  // ----- pausing

  function PausedRaces(races: map<RaceId, Race>, ids: seq<RaceId>, now: int): map<RaceId, Race> {
    map r | r in races :: if r in ids && races[r].status.Running? then Moved(races[r], Pause, now) else races[r]
  }

  lemma PausedInTurn(races: map<RaceId, Race>, ids: seq<RaceId>, now: int)
    requires ids != []
    ensures PausedRaces(PausedRaces(races, [ids[0]], now), ids[1..], now) == PausedRaces(races, ids, now)
  {
  }

  lemma PausesOne(cfg: Config, s: Sys, id: RaceId)
    ensures var p := PauseRace(cfg, s, id, Commits).sys;
            && p.db.races == PausedRaces(s.db.races, [id], s.clock) && p.clock == s.clock && (s.active.None? ==> p.active.None?)
            && p.db.laps == s.db.laps && p.db.identities == s.db.identities && p.db.reports == s.db.reports
            && p.db.checkpoints == s.db.checkpoints
  {
  }

  lemma {:induction false} PausesAll(cfg: Config, s: Sys, ids: seq<RaceId>, txs: seq<Tx>)
    requires !cfg.recoverRunning && Undisturbed(txs) && s.active.None?
    ensures var s' := Recover(cfg, s, ids, txs);
            && s'.active.None? && s'.db.races == PausedRaces(s.db.races, ids, s.clock)
            && s'.db.laps == s.db.laps && s'.db.identities == s.db.identities && s'.db.reports == s.db.reports
    decreases |ids|
  {
    if |ids| == 0 {
      assert PausedRaces(s.db.races, ids, s.clock) == s.db.races;
    } else {
      UndisturbedHead(txs);
      UndisturbedHead(Tail(txs));
      var s' := SeededSys(s, ids[0]);
      PausesOne(cfg, s', ids[0]);
      var p := PauseRace(cfg, s', ids[0], Commits).sys;
      assert Recover(cfg, s, ids, txs) == Recover(cfg, p, ids[1..], Tail(Tail(txs)));
      PausesAll(cfg, p, ids[1..], Tail(Tail(txs)));
      PausedInTurn(s.db.races, ids, s.clock);
    }
  }

  // ----- checkpoints

  lemma SeedsOne(s: Sys, listed: RaceId, id: RaceId, car: int)
    requires id in s.db.races
    ensures var s' := SeededSys(s, listed);
            && s'.db.races == s.db.races && s'.db.laps == s.db.laps
            && (if id == listed && 1 <= car <= CARS && car in s.db.races[id].form.roster
                then (id, car) in s'.db.checkpoints && s'.db.checkpoints[(id, car)] == Checkpoint(0, |LapsOf(s.db.laps, id, car)|)
                else && ((id, car) in s'.db.checkpoints <==> (id, car) in s.db.checkpoints)
                     && ((id, car) in s.db.checkpoints ==> s'.db.checkpoints[(id, car)] == s.db.checkpoints[(id, car)]))
  {
    if listed in s.db.races { SeededAt(s.db, listed, s.db.races[listed].form.roster, CARS, (id, car)); }
  }

  /** Under either setting: reseeded for the drivers of the listed races, and untouched for everybody else. */
  lemma {:induction false} Reseeds(cfg: Config, s: Sys, ids: seq<RaceId>, txs: seq<Tx>, id: RaceId, car: int)
    requires Undisturbed(txs) && id in s.db.races
    ensures var s' := Recover(cfg, s, ids, txs);
            && s'.db.laps == s.db.laps
            && (if id in ids && 1 <= car <= CARS && car in s.db.races[id].form.roster
                then (id, car) in s'.db.checkpoints && s'.db.checkpoints[(id, car)] == Checkpoint(0, |LapsOf(s.db.laps, id, car)|)
                else (id, car) in s'.db.checkpoints <==> (id, car) in s.db.checkpoints)
            && (id !in ids && (id, car) in s.db.checkpoints ==> s'.db.checkpoints[(id, car)] == s.db.checkpoints[(id, car)])
    decreases |ids|
  {
    if |ids| != 0 {
      UndisturbedHead(txs);
      UndisturbedHead(Tail(txs));
      var s' := SeededSys(s, ids[0]);
      SeedsOne(s, ids[0], id, car);
      if cfg.recoverRunning {
        Reseeds(cfg, s'.(active := Some(ids[0])), ids[1..], Tail(txs), id, car);
      } else {
        PausesOne(cfg, s', ids[0]);
        Reseeds(cfg, PauseRace(cfg, s', ids[0], Commits).sys, ids[1..], Tail(Tail(txs)), id, car);
      }
    }
  }

  // ----- whole recoveries

  /** Every race that runs is paused; all others are as they were. */
  ghost function RunningPaused(db: Tables, now: int): map<RaceId, Race> {
    map r | r in db.races :: if db.races[r].status.Running? then Moved(db.races[r], Pause, now) else db.races[r]
  }

  lemma AllListed(db: Tables)
    requires |RunningIds(db)| <= 100
    ensures forall id :: id in Listed(db) <==> id in RunningIds(db)
    ensures Listed(db) == NewestFirst(RunningIds(db)) && (Listed(db) == [] <==> RunningIds(db) == {})
  {
    ListsEveryRace(RunningIds(db));
  }

  lemma PausedIsRunningPaused(db: Tables, ids: seq<RaceId>, now: int)
    requires forall id :: id in ids <==> id in RunningIds(db)
    ensures PausedRaces(db.races, ids, now) == RunningPaused(db, now)
  {
    forall r | r in db.races ensures (r in ids && db.races[r].status.Running?) == db.races[r].status.Running? {
      assert r in ids <==> r in RunningIds(db);
    }
  }

  /** With reattaching configured no race changes, and the oldest running race becomes the active one. */
  lemma ReattachesFromAnyTables(cfg: Config, s: Sys, txs: seq<Tx>)
    requires Undisturbed(txs) && |RunningIds(s.db)| <= 100 && cfg.recoverRunning
    ensures var s', running := Restart(cfg, s, txs), RunningIds(s.db);
            && s' == Sys(s.db.(checkpoints := s'.db.checkpoints), s'.active, map[], s.clock)
            && (s'.active.None? <==> running == {})
            && (s'.active.Some? ==> s'.active.value in running && forall id <- running :: s'.active.value <= id)
  {
    AllListed(s.db);
    Reattaches(cfg, Crashed(s), Listed(s.db), txs);
    if RunningIds(s.db) != {} { OldestIsLast(RunningIds(s.db)); }
  }

  /** Otherwise every running race is paused, no other race changes, and none is active. */
  lemma PausesFromAnyTables(cfg: Config, s: Sys, txs: seq<Tx>)
    requires Undisturbed(txs) && |RunningIds(s.db)| <= 100 && !cfg.recoverRunning
    ensures var s' := Restart(cfg, s, txs);
            && s'.active.None? && s'.safety == map[] && s'.clock == s.clock
            && s'.db.races == RunningPaused(s.db, s.clock)
            && s'.db.laps == s.db.laps && s'.db.identities == s.db.identities && s'.db.reports == s.db.reports
  {
    var ids := Listed(s.db);
    AllListed(s.db);
    PausedIsRunningPaused(s.db, ids, s.clock);
    RecoverKeepsClock(cfg, Crashed(s), ids, txs);
    PausesAll(cfg, Crashed(s), ids, txs);
  }

  /** Under either setting the checkpoints of the drivers of running races, and of no other race, say how many laps are stored. */
  lemma RecoverySeeds(cfg: Config, s: Sys, txs: seq<Tx>, id: RaceId, car: int)
    requires Undisturbed(txs) && |RunningIds(s.db)| <= 100 && id in s.db.races
    ensures var s' := Restart(cfg, s, txs);
            && (s.db.races[id].status.Running? && 1 <= car <= CARS && car in s.db.races[id].form.roster ==>
                  (id, car) in s'.db.checkpoints && s'.db.checkpoints[(id, car)] == Checkpoint(0, |LapsOf(s.db.laps, id, car)|))
            && (!s.db.races[id].status.Running? ==>
                  && ((id, car) in s'.db.checkpoints <==> (id, car) in s.db.checkpoints)
                  && ((id, car) in s.db.checkpoints ==> s'.db.checkpoints[(id, car)] == s.db.checkpoints[(id, car)]))
  {
    AllListed(s.db);
    Reseeds(cfg, Crashed(s), Listed(s.db), txs, id, car);
  }
}
