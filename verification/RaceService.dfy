/**
 * The race service: lifecycle, safety car, lap ingest, ticker and recovery, as methods that change
 * the database through sessions and the in-memory pointer and cache in place.
 */
module RaceService {
  import opened Base
  import opened Telemetry
  import opened RaceTables
  import opened RaceRules
  import opened RaceStore
  import ReportingService

  /** Process-wide pointer to the race that ingest writes to. */
  class ActiveRaceContext {
    var raceId: Option<RaceId>

    constructor ()
      ensures raceId == None
    {
      raceId := None;
    }

    method Set(id: RaceId)
      modifies this
      ensures raceId == Some(id)
    {
      raceId := Some(id);
    }

    method Clear()
      modifies this
      ensures raceId == None
    {
      raceId := None;
    }

    method ClearIf(id: RaceId)
      modifies this
      ensures raceId == Unless(old(raceId), id)
    {
      if raceId == Some(id) { raceId := None; }
    }
  }

  class RaceService {
    const cfg: Config
    const db: Database
    const repo: RaceRepository
    const context: ActiveRaceContext
    var safetyCar: map<RaceId, bool>
    /** What utcnow reads; only time itself moves it. */
    var clock: int

    ghost function State(): Sys
      reads this, db, context
    {
      Sys(db.tables, context.raceId, safetyCar, clock)
    }

    constructor (cfg: Config, db: Database, context: ActiveRaceContext, clock: int)
      ensures this.cfg == cfg && this.db == db && this.context == context
      ensures safetyCar == map[] && this.clock == clock
    {
      this.cfg, this.db, this.context := cfg, db, context;
      repo := new RaceRepository();
      safetyCar := map[];
      this.clock := clock;
    }

    // ----- create, edit, delete

    method Create(id: RaceId, form: Form, tx: Tx) returns (reply: Reply)
      modifies this, db, context
      ensures Outcome(State(), reply) == CreateRace(cfg, old(State()), id, form, tx)
    {
      var session := new Session(db);
      var ok := repo.CreateRace(session, id, form, cfg.defaultStatus);
      if !ok { return StorageError; }
      var committed := session.Commit(!tx.Lands());
      reply := if tx.Commits? then Done else StorageError;
    }

    method Update(id: RaceId, form: Form, tx: Tx) returns (reply: Reply)
      modifies this, db, context
      ensures Outcome(State(), reply) == UpdateRace(cfg, old(State()), id, form, tx)
    {
      if tx.ReadFails? { return StorageError; }
      var session := new Session(db);
      if id !in session.work.races { return NotFound; }
      var race := session.work.races[id];
      if !race.status.Unstarted() && !cfg.allowEditRunning { return NotEditable; }
      repo.UpdateRace(session, id, form);
      var committed := session.Commit(tx.WriteFails?);
      reply := if tx.Commits? then Done else StorageError;
    }

    method Delete(id: RaceId, fails: bool) returns (reply: Reply)
      modifies this, db, context
      ensures Outcome(State(), reply) == DeleteRace(old(State()), id, fails)
    {
      var session := new Session(db);
      if id !in session.work.races { return NotFound; }
      if session.work.races[id].status.Running? { return InvalidState; }
      repo.DeleteRace(session, id);
      var committed := session.Commit(fails);
      if !committed { return StorageError; }
      context.ClearIf(id);
      reply := Done;
    }

    // ----- lifecycle

    /** One transaction: check the table, stamp the times, set the status, log the event, commit. */
    method TransitionRace(id: RaceId, move: Move, tx: Tx) returns (reply: Reply)
      modifies db
      ensures (db.tables, reply) == Transition(cfg, old(db.tables), id, move, clock, tx)
    {
      if tx.ReadFails? { return StorageError; }
      var session := new Session(db);
      if id !in session.work.races { return NotFound; }
      var race := session.work.races[id];
      if !Allowed(move, race.status) { return InvalidState; }
      if move.Start? && race.startedAt.None? {
        repo.SetTimestamps(session, id, Some(clock), None);
      }
      if (move.Finish? || move.Cancel?) && race.finishedAt.None? {
        repo.SetTimestamps(session, id, None, Some(clock));
      }
      repo.SetStatus(session, id, Target(move));
      if cfg.persistEvents && !move.MarkReady? {
        var logged := repo.AddEvent(session, RaceEvent(id, clock, Lifecycle(move), None));
      }
      assert old(db.tables).events + [] == old(db.tables).events;
      assert session.work.races == old(db.tables).races[id := Moved(race, move, clock)];
      var committed := session.Commit(tx.WriteFails?);
      reply := if tx.Commits? then Done else StorageError;
    }

    method MarkReady(id: RaceId, tx: Tx) returns (reply: Reply)
      modifies this, db, context
      ensures Outcome(State(), reply) == MarkReadyRace(cfg, old(State()), id, tx)
    {
      reply := TransitionRace(id, Move.MarkReady, tx);
    }

    /** Pauses whatever race is active instead of `id`, if any. */
    method PauseOther(id: RaceId, pauseTx: Tx) returns (paused: Reply)
      modifies db
      ensures (db.tables, paused) == PausedFirst(cfg, old(State()), id, pauseTx)
    {
      paused := Done;
      if context.raceId.Some? && context.raceId.value != id {
        paused := TransitionRace(context.raceId.value, Move.Pause, pauseTx);
      }
    }

    /** A refused pause is no obstacle, a storage error is. */
    method Activate(id: RaceId, move: Move, pauseTx: Tx, tx: Tx) returns (reply: Reply)
      modifies this, db, context
      ensures Outcome(State(), reply) == ActivateRace(cfg, old(State()), id, move, pauseTx, tx)
    {
      reply := PauseOther(id, pauseTx);
      ghost var paused := db.tables;
      assert (paused, reply) == PausedFirst(cfg, old(State()), id, pauseTx);
      if reply.StorageError? { return; }
      reply := TransitionRace(id, move, tx);
      assert (db.tables, reply) == Transition(cfg, paused, id, move, clock, tx);
      if reply.Done? { context.Set(id); }
    }

    method Start(id: RaceId, pauseTx: Tx, tx: Tx) returns (reply: Reply)
      modifies this, db, context
      ensures Outcome(State(), reply) == ActivateRace(cfg, old(State()), id, Move.Start, pauseTx, tx)
    {
      reply := Activate(id, Move.Start, pauseTx, tx);
    }

    method Resume(id: RaceId, pauseTx: Tx, tx: Tx) returns (reply: Reply)
      modifies this, db, context
      ensures Outcome(State(), reply) == ActivateRace(cfg, old(State()), id, Move.Resume, pauseTx, tx)
    {
      reply := Activate(id, Move.Resume, pauseTx, tx);
    }

    method Pause(id: RaceId, tx: Tx) returns (reply: Reply)
      modifies this, db, context
      ensures Outcome(State(), reply) == PauseRace(cfg, old(State()), id, tx)
    {
      reply := TransitionRace(id, Move.Pause, tx);
      if reply.Done? { context.ClearIf(id); }
    }

    method Finish(id: RaceId, tx: Tx, snapshotFails: bool) returns (reply: Reply)
      modifies this, db, context
      ensures Outcome(State(), reply) == CloseRace(cfg, old(State()), id, Move.Finish, tx, snapshotFails)
    {
      reply := TransitionRace(id, Move.Finish, tx);
      if !reply.Done? { return; }
      context.ClearIf(id);
      safetyCar := safetyCar - {id};
      AutoSnapshot(id, snapshotFails);
    }

    method Cancel(id: RaceId, tx: Tx, snapshotFails: bool) returns (reply: Reply)
      modifies this, db, context
      ensures Outcome(State(), reply) == CloseRace(cfg, old(State()), id, Move.Cancel, tx, snapshotFails)
    {
      var hadLaps := RaceLaps(db.tables.laps, id) != [];
      reply := TransitionRace(id, Move.Cancel, tx);
      if !reply.Done? { return; }
      context.ClearIf(id);
      safetyCar := safetyCar - {id};
      if hadLaps { AutoSnapshot(id, snapshotFails); }
    }

    /** Best effort: a failing snapshot is logged and forgotten. */
    method AutoSnapshot(id: RaceId, fails: bool)
      modifies db
      ensures State() == Snapshot(old(State()), id, fails)
    {
      var reporting := new ReportingService.ReportingService(db);
      var summary := reporting.RaceSummary(id, clock);
      if summary.Some? { var saved := reporting.SaveReport(id, summary.value, fails); }
    }

    // ----- safety car

    method IsSafetyCarActive(id: RaceId, readFails: bool) returns (active: bool)
      modifies this
      ensures (State(), active) == ReadSafety(old(State()), id, readFails)
    {
      if readFails { return false; }
      var session := new Session(db);
      if id !in session.work.races || !session.work.races[id].status.Live() {
        safetyCar := safetyCar - {id};
        return false;
      }
      if id in safetyCar { return safetyCar[id]; }
      var last := repo.LatestSafetyEvent(session, id);
      active := last.Some? && last.value.kind.SafetyCarStarted?;
      safetyCar := safetyCar[id := active];
    }

    method SetSafetyCar(id: RaceId, on: bool, readFails: bool, fails: bool) returns (reply: Reply)
      modifies this, db, context
      ensures Outcome(State(), reply) == SetSafety(old(State()), id, on, readFails, fails)
    {
      var session := new Session(db);
      if id !in session.work.races { return NotFound; }
      if !session.work.races[id].status.Live() { return InvalidState; }
      var current := IsSafetyCarActive(id, readFails);
      if current == on { return Done; }
      var logged := repo.AddEvent(session, RaceEvent(id, clock, if on then SafetyCarStarted else SafetyCarEnded, None));
      var committed := session.Commit(fails);
      if !committed { return StorageError; }
      safetyCar := safetyCar[id := on];
      reply := Done;
    }

    // ----- ingest

    /**
     * Identity, lap row and checkpoint in one transaction, undone as a whole wherever it fails; then the
     * leader check in its own.
     */
    method IngestLap(e: Event, fault: LapFault, finishTx: Tx, snapshotFails: bool)
      modifies this, db, context
      ensures State() == RecordLap(cfg, old(State()), e, fault, finishTx, snapshotFails)
    {
      if context.raceId.None? || !e.payload.LapData? || e.car.None? || fault.CannotRead? { return; }
      var id := context.raceId.value;
      if id !in db.tables.races {
        context.Clear();
        return;
      }
      var stored := StoreLapOf(id, e, fault);
      if !stored { return; }
      assert State() == LapStored(old(State()), e);
      var race := db.tables.races[id];
      if race.form.mode.FixedLaps? && race.form.lapTarget.Some? {
        MaybeAutoFinish(id, race.form.lapTarget.value, finishTx, snapshotFails);
      }
    }

    /** The lap transaction: commits all three rows or none. */
    method StoreLapOf(id: RaceId, e: Event, fault: LapFault) returns (stored: bool)
      requires context.raceId == Some(id) && id in db.tables.races && e.payload.LapData? && e.car.Some? && !fault.CannotRead?
      modifies db
      ensures stored == (LapAccepted(old(State()), e) && fault.NoFault?)
      ensures State() == if stored then LapStored(old(State()), e) else old(State())
    {
      var session := new Session(db);
      var race, car, cuMs := session.work.races[id], e.car.value, CrossingMs(e);
      if !race.status.Running? || car !in race.form.roster { return false; }
      var isNew := repo.InsertLapIdentityIfNew(session, Identity(id, car, cuMs));
      if fault.IdentityFails? {
        session.Rollback();
        return false;
      }
      if !isNew {
        var closed := session.Commit(fault.CommitFails?);
        return false;
      }
      var written := WriteLapRows(session, id, e, fault);
      if !written {
        session.Rollback();
        return false;
      }
      stored := session.Commit(fault.CommitFails?);
    }

    /** Lap row and checkpoint, numbered from the checkpoint or, without one, from the stored rows. */
    method WriteLapRows(session: Session, id: RaceId, e: Event, fault: LapFault) returns (written: bool)
      requires id in session.work.races && e.payload.LapData? && e.car.Some? && e.car.value in session.work.races[id].form.roster
      modifies session
      ensures var work, car := old(session.work), e.car.value;
              var lap := Lap(id, car, work.races[id].form.roster[car], LapCount(work, id, car) + 1, e.payload.timeMs, e.at);
              && written == (lap.timeMs > 0 && lap.number > 0 && !fault.LapRowFails? && !fault.CheckpointFails?
                             && forall l <- work.laps :: !(l.race == id && l.car == car && l.number == lap.number))
              && (written ==> session.work == work.(
                    laps := work.laps + [lap],
                    checkpoints := work.checkpoints[(id, car) := Checkpoint(CrossingMs(e), lap.number)]))
    {
      var race, car := session.work.races[id], e.car.value;
      if (id, car) !in session.work.checkpoints {
        var seeded := repo.CountLapsForCar(session, id, car);
        repo.UpsertLapCheckpoint(session, id, car, 0, seeded);
      }
      var number := session.work.checkpoints[(id, car)].lapCount + 1;
      var added := repo.AddLap(session, Lap(id, car, race.form.roster[car], number, e.payload.timeMs, e.at));
      if !added || fault.LapRowFails? { return false; }
      repo.UpsertLapCheckpoint(session, id, car, CrossingMs(e), number);
      written := !fault.CheckpointFails?;
    }

    method MaybeAutoFinish(id: RaceId, target: int, finishTx: Tx, snapshotFails: bool)
      modifies this, db, context
      ensures State() == if LeaderReached(old(db.tables.laps), id, target)
                         then CloseRace(cfg, old(State()), id, Move.Finish, finishTx, snapshotFails).sys
                         else old(State())
    {
      var session := new Session(db);
      var cars, counts := repo.LapCountByCar(session, id);
      var leaderLaps := LargestCount(cars, counts);
      assert leaderLaps >= target <==> LeaderReached(session.work.laps, id, target) by {
        if leaderLaps >= target && target > 0 {
          var c :| c in counts && counts[c] == leaderLaps;
          assert |LapsOf(session.work.laps, id, c)| >= target;
        }
      }
      if leaderLaps >= target {
        var reply := Finish(id, finishTx, snapshotFails);
      }
    }

    static method LargestCount(cars: seq<int>, counts: map<int, nat>) returns (top: nat)
      requires forall k :: 0 <= k < |cars| ==> cars[k] in counts
      requires forall c <- counts :: c in cars
      ensures forall c <- counts :: counts[c] <= top
      ensures top > 0 ==> exists c :: c in counts && counts[c] == top
    {
      top := 0;
      for k := 0 to |cars|
        invariant forall j :: 0 <= j < k ==> counts[cars[j]] <= top
        invariant top > 0 ==> exists c :: c in counts && counts[c] == top
      {
        var c := cars[k];
        if counts[c] > top { top := counts[c]; }
      }
    }

    method IngestEvent(e: Event, fails: bool)
      modifies this, db, context
      ensures State() == RecordEvent(cfg, old(State()), e, fails)
    {
      if !cfg.persistEvents || context.raceId.None? { return; }
      var id := context.raceId.value;
      var session := new Session(db);
      if id !in session.work.races || !session.work.races[id].status.Live() { return; }
      var ok := repo.AddEvent(session, RaceEvent(id, e.at, Telemetered, e.car));
      if !ok {
        session.Rollback();
        return;
      }
      var committed := session.Commit(fails);
    }

    /** One beat of the fixed-duration ticker. */
    method TickOnce(tx: Tx, snapshotFails: bool)
      modifies this, db, context
      ensures State() == Tick(cfg, old(State()), tx, snapshotFails)
    {
      if context.raceId.None? { return; }
      var id := context.raceId.value;
      if id !in db.tables.races { return; }
      var race := db.tables.races[id];
      if !race.status.Running? || !race.form.mode.FixedDuration? || race.startedAt.None? || race.form.durationSeconds.None? {
        return;
      }
      var elapsed := clock - race.startedAt.value;
      if elapsed >= 1000 * race.form.durationSeconds.value {
        var reply := Finish(id, tx, snapshotFails);
      }
    }

    // ----- crash and recovery

    /** A new process: nothing in memory, then recover_on_startup. */
    method RestartProcess(txs: seq<Tx>)
      modifies this, db, context
      ensures State() == Restart(cfg, old(State()), txs)
    {
      context.Clear();
      safetyCar := map[];
      var session := new Session(db);
      var ids := repo.ListRunning(session);
      ghost var start := State();
      var k, left := 0, txs;
      while k < |ids|
        invariant 0 <= k <= |ids|
        invariant Recover(cfg, start, ids, txs) == Recover(cfg, State(), ids[k..], left)
      {
        var id := ids[k];
        assert ids[k..][0] == id && ids[k..][1..] == ids[k + 1..];
        if Head(left).ReadFails? { return; }
        SeedFromExistingLaps(id, Head(left).WriteFails?);
        if !Head(left).Commits? { return; }
        left := Tail(left);
        if cfg.recoverRunning {
          context.Set(id);
        } else {
          var reply := Pause(id, Head(left));
          if reply.StorageError? { return; }
          left := Tail(left);
        }
        k := k + 1;
      }
    }

    method SeedFromExistingLaps(id: RaceId, fails: bool)
      modifies db
      ensures db.tables == if !fails && id in old(db.tables).races then Apply(old(db.tables), SeedCars(id)) else old(db.tables)
    {
      var session := new Session(db);
      if id !in session.work.races { return; }
      var roster := session.work.races[id].form.roster;
      ghost var before := session.work;
      for car := 1 to CARS + 1
        invariant session.db == db && db.tables == before
        invariant session.work == before.(checkpoints := Seeded(before, id, roster, car - 1))
      {
        if car in roster {
          var count := repo.CountLapsForCar(session, id, car);
          repo.UpsertLapCheckpoint(session, id, car, 0, count);
        }
      }
      var committed := session.Commit(fails);
    }

    /** Any operation of the machine, dispatched to the method that performs it. */
    method Perform(op: Op)
      modifies this, db, context
      ensures State() == Step(cfg, old(State()), op)
    {
      match op
      case Create(id, form, tx) => var r := Create(id, form, tx);
      case Update(id, form, tx) => var r := Update(id, form, tx);
      case Delete(id, fails) => var r := Delete(id, fails);
      case DoMarkReady(id, tx) => var r := MarkReady(id, tx);
      case DoStart(id, pauseTx, tx) => var r := Start(id, pauseTx, tx);
      case DoPause(id, tx) => var r := Pause(id, tx);
      case DoResume(id, pauseTx, tx) => var r := Resume(id, pauseTx, tx);
      case DoFinish(id, tx, snapshotFails) => var r := Finish(id, tx, snapshotFails);
      case DoCancel(id, tx, snapshotFails) => var r := Cancel(id, tx, snapshotFails);
      case DoSetSafety(id, on, readFails, fails) => var r := SetSafetyCar(id, on, readFails, fails);
      case DoReadSafety(id, readFails) => var r := IsSafetyCarActive(id, readFails);
      case DoLap(e, fault, finishTx, snapshotFails) => IngestLap(e, fault, finishTx, snapshotFails);
      case DoEvent(e, fails) => IngestEvent(e, fails);
      case DoTick(tx, snapshotFails) => TickOnce(tx, snapshotFails);
      case DoRestart(txs) => RestartProcess(txs);
      case Wait(ms) => clock := clock + ms;
    }
  }
}
