/** The database, one session on it, and the repository's row operations. */
module RaceStore {
  import opened Base
  import opened RaceTables
  import opened RaceRules

  class Database {
    var tables: Tables

    constructor ()
      ensures tables == EMPTY
    {
      tables := EMPTY;
    }
  }

  /** A unit of work: `work` is what the session would commit. */
  class Session {
    const db: Database
    var work: Tables

    constructor (db: Database)
      ensures this.db == db && work == db.tables
    {
      this.db := db;
      work := db.tables;
    }

    method Commit(fails: bool) returns (ok: bool)
      modifies this, db
      ensures ok == !fails
      ensures db.tables == (if ok then old(work) else old(db.tables))
      ensures work == db.tables
    {
      ok := !fails;
      if ok { db.tables := work; } else { work := db.tables; }
    }

    method Rollback()
      modifies this
      ensures work == db.tables
    {
      work := db.tables;
    }
  }

  /** Every method works on the caller's session and never commits. */
  class RaceRepository {
    constructor () {}

    method CreateRace(session: Session, id: RaceId, form: Form, status: Status) returns (ok: bool)
      modifies session
      ensures ok == (id !in old(session.work).races)
      ensures session.work == (if ok then Apply(old(session.work), AddRace(id, form, status)) else old(session.work))
    {
      ok := id !in session.work.races;
      if ok {
        session.work := session.work.(races := session.work.races[id := Race(form, status, None, None)]);
      }
    }

    method UpdateRace(session: Session, id: RaceId, form: Form)
      requires id in session.work.races
      modifies session
      ensures session.work == Apply(old(session.work), EditRace(id, form))
    {
      var race := session.work.races[id];
      session.work := session.work.(races := session.work.races[id := race.(form := form)]);
    }

    method SetStatus(session: Session, id: RaceId, status: Status)
      requires id in session.work.races
      modifies session
      ensures session.work == old(session.work).(races := old(session.work).races[id := old(session.work).races[id].(status := status)])
    {
      var race := session.work.races[id];
      session.work := session.work.(races := session.work.races[id := race.(status := status)]);
    }

    method SetTimestamps(session: Session, id: RaceId, startedAt: Option<int>, finishedAt: Option<int>)
      requires id in session.work.races
      modifies session
      ensures var race := old(session.work).races[id];
              session.work == old(session.work).(races := old(session.work).races[id := race.(
                startedAt := if startedAt.Some? then startedAt else race.startedAt,
                finishedAt := if finishedAt.Some? then finishedAt else race.finishedAt)])
    {
      var race := session.work.races[id];
      if startedAt.Some? { race := race.(startedAt := startedAt); }
      if finishedAt.Some? { race := race.(finishedAt := finishedAt); }
      session.work := session.work.(races := session.work.races[id := race]);
    }

    method AddEvent(session: Session, event: RaceEvent) returns (ok: bool)
      modifies session
      ensures ok == (event.car.Some? ==> 1 <= event.car.value <= CARS)
      ensures session.work == (if ok then old(session.work).(events := old(session.work).events + [event]) else old(session.work))
    {
      ok := event.car.None? || 1 <= event.car.value <= CARS;
      if ok { session.work := session.work.(events := session.work.events + [event]); }
    }

    method AddReport(session: Session, report: Report)
      modifies session
      ensures session.work == old(session.work).(reports := old(session.work).reports + [report])
    {
      session.work := session.work.(reports := session.work.reports + [report]);
    }

    /** Fails, leaving the session as it was, when a UNIQUE or CHECK constraint of the table is violated. */
    method AddLap(session: Session, lap: Lap) returns (ok: bool)
      modifies session
      ensures ok == (1 <= lap.car <= CARS && lap.timeMs > 0 && lap.number > 0
                     && forall l <- old(session.work).laps :: !(l.race == lap.race && l.car == lap.car && l.number == lap.number))
      ensures session.work == (if ok then old(session.work).(laps := old(session.work).laps + [lap]) else old(session.work))
    {
      ok := 1 <= lap.car <= CARS && lap.timeMs > 0 && lap.number > 0
        && forall l <- session.work.laps :: !(l.race == lap.race && l.car == lap.car && l.number == lap.number);
      if ok { session.work := session.work.(laps := session.work.laps + [lap]); }
    }

    method UpsertLapCheckpoint(session: Session, id: RaceId, car: int, lastCuMs: int, lapCount: int)
      modifies session
      ensures session.work == old(session.work).(
                checkpoints := old(session.work).checkpoints[(id, car) := Checkpoint(lastCuMs, lapCount)])
    {
      session.work := session.work.(checkpoints := session.work.checkpoints[(id, car) := Checkpoint(lastCuMs, lapCount)]);
    }

    /** Inserts inside a savepoint: when a constraint is violated only the savepoint is rolled back. */
    method InsertLapIdentityIfNew(session: Session, row: Identity) returns (isNew: bool)
      modifies session
      ensures isNew == (row !in old(session.work).identities && 1 <= row.car <= CARS && row.cuMs >= 0)
      ensures session.work == (if isNew then old(session.work).(identities := old(session.work).identities + [row])
                               else old(session.work))
    {
      var savepoint := session.work;
      session.work := session.work.(identities := session.work.identities + [row]);
      isNew := row !in savepoint.identities && 1 <= row.car <= CARS && row.cuMs >= 0;
      if !isNew { session.work := savepoint; }
    }

    method CountLapsForCar(session: Session, id: RaceId, car: int) returns (count: nat)
      ensures count == |LapsOf(session.work.laps, id, car)|
    {
      count := |LapsOf(session.work.laps, id, car)|;
    }

    /** COUNT(*) GROUP BY car_id: exactly the cars with laps, each with its number of rows, in the order seen. */
    method LapCountByCar(session: Session, id: RaceId) returns (cars: seq<int>, counts: map<int, nat>)
      ensures forall k :: 0 <= k < |cars| ==> cars[k] in counts
      ensures forall c <- counts :: c in cars
      ensures forall c :: c in counts <==> |LapsOf(session.work.laps, id, c)| > 0
      ensures forall c <- counts :: counts[c] == |LapsOf(session.work.laps, id, c)|
    {
      cars, counts := [], map[];
      var rows := session.work.laps;
      for k := 0 to |rows|
        invariant forall i :: 0 <= i < |cars| ==> cars[i] in counts
        invariant forall c <- counts :: c in cars
        invariant forall c :: c in counts <==> |LapsOf(rows[..k], id, c)| > 0
        invariant forall c <- counts :: counts[c] == |LapsOf(rows[..k], id, c)|
      {
        var l := rows[k];
        assert rows[..k + 1] == rows[..k] + [l];
        forall c ensures |LapsOf(rows[..k + 1], id, c)|
                         == |LapsOf(rows[..k], id, c)| + (if l.race == id && l.car == c then 1 else 0) {
          LapsOfSnoc(rows[..k], l, id, c);
        }
        if l.race == id {
          if l.car !in counts { cars := cars + [l.car]; }
          counts := counts[l.car := (if l.car in counts then counts[l.car] else 0) + 1];
        }
      }
      assert rows[..|rows|] == rows;
    }

    /** The kind of the newest safety-car event by (timestamp, row id), found in one pass. */
    method LatestSafetyEvent(session: Session, id: RaceId) returns (latest: Option<RaceEvent>)
      ensures latest == Newest(SafetyLog(session.work.events, id))
    {
      latest := None;
      var rows := session.work.events;
      for k := 0 to |rows|
        invariant latest == Newest(SafetyLog(rows[..k], id))
      {
        var e := rows[k];
        assert rows[..k + 1] == rows[..k] + [e];
        SafetyLogSnoc(rows[..k], e, id);
        ghost var log := SafetyLog(rows[..k], id);
        assert log + [] == log && (log + [e])[..|log|] == log;
        if e.race == id && e.kind.Safety() {
          if latest.None? || e.at >= latest.value.at { latest := Some(e); }
        }
      }
      assert rows[..|rows|] == rows;
    }

    /** Cascades to every child table. */
    method DeleteRace(session: Session, id: RaceId)
      modifies session
      ensures session.work == Apply(old(session.work), DropRace(id))
    {
      var w := session.work;
      session.work := Tables(
        w.races - {id}, LapsWithout(w.laps, id), IdentitiesWithout(w.identities, id),
        map k | k in w.checkpoints && k.0 != id :: w.checkpoints[k],
        EventsWithout(w.events, id), ReportsWithout(w.reports, id));
    }

    /** Running races, newest first, at most LIST_LIMIT of them. */
    method ListRunning(session: Session) returns (ids: seq<RaceId>)
      ensures ids == Listed(session.work)
    {
      var left := set r | r in session.work.races && session.work.races[r].status.Running?;
      ghost var all := left;
      ids := [];
      while left != {}
        invariant NewestFirst(all) == ids + NewestFirst(left)
        decreases left
      {
        HasMaximum(left);
        var m :| m in left && forall x <- left :: x <= m;
        assert m == Maximum(left);
        ids := ids + [m];
        left := left - {m};
      }
      if |ids| > LIST_LIMIT { ids := ids[..LIST_LIMIT]; }
    }
  }
}
