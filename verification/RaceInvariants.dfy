/**
 * Invariants of the database. Each is kept by every single committed transaction, and every
 * operation is a sequence of such transactions, so they also hold wherever a crash cuts one short.
 */
module RaceInvariants {
  import opened Base
  import opened Telemetry
  import opened RaceTables
  import opened Reporting
  import opened RaceRules

  // ----- operations are sequences of committed transactions

  ghost predicate LegalAll(cfg: Config, now: int, db: Tables, ws: seq<Write>)
    decreases |ws|
  {
    |ws| > 0 ==> Legal(cfg, now, db, ws[0]) && LegalAll(cfg, now, Apply(db, ws[0]), ws[1..])
  }

  ghost function ApplyAll(cfg: Config, now: int, db: Tables, ws: seq<Write>): Tables
    requires LegalAll(cfg, now, db, ws)
    decreases |ws|
  {
    if |ws| == 0 then db else ApplyAll(cfg, now, Apply(db, ws[0]), ws[1..])
  }

  ghost predicate Reaches(cfg: Config, now: int, db: Tables, ws: seq<Write>, db': Tables) {
    LegalAll(cfg, now, db, ws) && ApplyAll(cfg, now, db, ws) == db'
  }

  lemma {:induction false} ReachesTransitive(cfg: Config, now: int, a: Tables, ws: seq<Write>, b: Tables, vs: seq<Write>, c: Tables)
    requires Reaches(cfg, now, a, ws, b) && Reaches(cfg, now, b, vs, c)
    ensures Reaches(cfg, now, a, ws + vs, c)
    decreases |ws|
  {
    if |ws| == 0 {
      assert ws + vs == vs;
    } else {
      ReachesTransitive(cfg, now, Apply(a, ws[0]), ws[1..], b, vs, c);
      assert (ws + vs)[0] == ws[0] && (ws + vs)[1..] == ws[1..] + vs;
    }
  }

  lemma OneWrite(cfg: Config, now: int, db: Tables, w: Write)
    requires Legal(cfg, now, db, w)
    ensures Reaches(cfg, now, db, [w], Apply(db, w))
  {
    assert [w][1..] == [];
  }

  /** Neither a lap nor a deletion. */
  predicate Calm(ws: seq<Write>) { forall w <- ws :: !w.DropRace? && !w.StoreLap? }

  /** Adds and deletes no race and logs no safety-car event. */
  predicate Quiet(ws: seq<Write>) {
    forall w <- ws :: !w.DropRace? && !w.AddRace? && (w.LogEvent? ==> !w.event.kind.Safety())
  }

  /** The transactions that one move commits: its own, or none. */
  function MoveWrites(cfg: Config, db: Tables, id: RaceId, move: Move, now: int, tx: Tx): seq<Write> {
    if tx.Lands() && id in db.races && Allowed(move, db.races[id].status)
    then [MoveRace(id, move, now, cfg.persistEvents && !move.MarkReady?)] else []
  }

  function ActivateWrites(cfg: Config, s: Sys, id: RaceId, move: Move, pauseTx: Tx, tx: Tx): seq<Write> {
    if s.active.Some? && s.active.value != id then
      var (db, reply) := Transition(cfg, s.db, s.active.value, Pause, s.clock, pauseTx);
      MoveWrites(cfg, s.db, s.active.value, Pause, s.clock, pauseTx)
      + (if reply.StorageError? then [] else MoveWrites(cfg, db, id, move, s.clock, tx))
    else MoveWrites(cfg, s.db, id, move, s.clock, tx)
  }

  predicate SavesReport(cfg: Config, s: Sys, id: RaceId, move: Move, tx: Tx, snapshotFails: bool) {
    && !snapshotFails && Transition(cfg, s.db, id, move, s.clock, tx).1.Done?
    && (move.Finish? || RaceLaps(s.db.laps, id) != [])
  }

  function CloseWrites(cfg: Config, s: Sys, id: RaceId, move: Move, tx: Tx, snapshotFails: bool): seq<Write> {
    MoveWrites(cfg, s.db, id, move, s.clock, tx)
    + (if SavesReport(cfg, s, id, move, tx, snapshotFails) then [SaveReport(id, s.clock)] else [])
  }

  ghost function LapWrites(cfg: Config, s: Sys, e: Event, fault: LapFault, finishTx: Tx, snapshotFails: bool): seq<Write> {
    if !fault.NoFault? || !LapAccepted(s, e) then []
    else
      var id, s' := s.active.value, LapStored(s, e);
      [StoreLap(id, e.car.value, e.payload.timeMs, CrossingMs(e), e.at)]
      + (if TargetReached(s'.db, id) then CloseWrites(cfg, s', id, Finish, finishTx, snapshotFails) else [])
  }

  function SeedWrites(db: Tables, id: RaceId): seq<Write> { if id in db.races then [SeedCars(id)] else [] }

  function SeededSys(s: Sys, id: RaceId): Sys { if id in s.db.races then s.(db := Apply(s.db, SeedCars(id))) else s }

  function RecoverWrites(cfg: Config, s: Sys, ids: seq<RaceId>, txs: seq<Tx>): seq<Write>
    decreases |ids|
  {
    if |ids| == 0 || !Head(txs).Lands() then []
    else
      var seed, s' := SeedWrites(s.db, ids[0]), SeededSys(s, ids[0]);
      if Head(txs).ReadBackFails? then seed
      else if cfg.recoverRunning then seed + RecoverWrites(cfg, s'.(active := Some(ids[0])), ids[1..], Tail(txs))
      else
        var p := PauseRace(cfg, s', ids[0], Head(Tail(txs)));
        seed + MoveWrites(cfg, s'.db, ids[0], Pause, s.clock, Head(Tail(txs)))
        + (if p.reply.StorageError? then [] else RecoverWrites(cfg, p.sys, ids[1..], Tail(Tail(txs))))
  }

  /** The transactions an operation commits, in order. */
  ghost function Writes(cfg: Config, s: Sys, op: Op): seq<Write> {
    match op
    case Create(id, form, tx) => if tx.Lands() && id !in s.db.races then [AddRace(id, form, cfg.defaultStatus)] else []
    case Update(id, form, tx) =>
      if tx.Lands() && id in s.db.races && Editable(s.db.races[id].status, cfg.allowEditRunning) then [EditRace(id, form)] else []
    case Delete(id, fails) => if !fails && id in s.db.races && !s.db.races[id].status.Running? then [DropRace(id)] else []
    case DoMarkReady(id, tx) => MoveWrites(cfg, s.db, id, MarkReady, s.clock, tx)
    case DoStart(id, pauseTx, tx) => ActivateWrites(cfg, s, id, Start, pauseTx, tx)
    case DoPause(id, tx) => MoveWrites(cfg, s.db, id, Pause, s.clock, tx)
    case DoResume(id, pauseTx, tx) => ActivateWrites(cfg, s, id, Resume, pauseTx, tx)
    case DoFinish(id, tx, snapshotFails) => CloseWrites(cfg, s, id, Finish, tx, snapshotFails)
    case DoCancel(id, tx, snapshotFails) => CloseWrites(cfg, s, id, Cancel, tx, snapshotFails)
    case DoSetSafety(id, on, readFails, fails) =>
      if id in s.db.races && s.db.races[id].status.Live() && ReadSafety(s, id, readFails).1 != on && !fails
      then [LogEvent(RaceEvent(id, s.clock, if on then SafetyCarStarted else SafetyCarEnded, None))] else []
    case DoReadSafety(_, _) => []
    case DoLap(e, fault, finishTx, snapshotFails) => LapWrites(cfg, s, e, fault, finishTx, snapshotFails)
    case DoEvent(e, fails) =>
      if Step(cfg, s, op).db == s.db || s.active.None? then [] else [LogEvent(RaceEvent(s.active.value, e.at, Telemetered, e.car))]
    case DoTick(tx, snapshotFails) => if TimeIsUp(s) then CloseWrites(cfg, s, s.active.value, Finish, tx, snapshotFails) else []
    case DoRestart(txs) => RecoverWrites(cfg, Crashed(s), Listed(s.db), txs)
    case Wait(_) => []
  }

  lemma MoveReaches(cfg: Config, db: Tables, id: RaceId, move: Move, now: int, tx: Tx)
    ensures Reaches(cfg, now, db, MoveWrites(cfg, db, id, move, now, tx), Transition(cfg, db, id, move, now, tx).0)
  {
    if MoveWrites(cfg, db, id, move, now, tx) != [] {
      OneWrite(cfg, now, db, MoveRace(id, move, now, cfg.persistEvents && !move.MarkReady?));
    }
  }

  lemma ActivateReaches(cfg: Config, s: Sys, id: RaceId, move: Move, pauseTx: Tx, tx: Tx)
    ensures Reaches(cfg, s.clock, s.db, ActivateWrites(cfg, s, id, move, pauseTx, tx), ActivateRace(cfg, s, id, move, pauseTx, tx).sys.db)
  {
    if s.active.Some? && s.active.value != id {
      var first := MoveWrites(cfg, s.db, s.active.value, Pause, s.clock, pauseTx);
      var (db, reply) := Transition(cfg, s.db, s.active.value, Pause, s.clock, pauseTx);
      MoveReaches(cfg, s.db, s.active.value, Pause, s.clock, pauseTx);
      if reply.StorageError? {
        assert first + [] == first;
      } else {
        MoveReaches(cfg, db, id, move, s.clock, tx);
        ReachesTransitive(cfg, s.clock, s.db, first, db, MoveWrites(cfg, db, id, move, s.clock, tx), Transition(cfg, db, id, move, s.clock, tx).0);
      }
    } else {
      MoveReaches(cfg, s.db, id, move, s.clock, tx);
    }
  }

  lemma CloseReaches(cfg: Config, s: Sys, id: RaceId, move: Move, tx: Tx, snapshotFails: bool)
    requires move.Finish? || move.Cancel?
    ensures Reaches(cfg, s.clock, s.db, CloseWrites(cfg, s, id, move, tx, snapshotFails), CloseRace(cfg, s, id, move, tx, snapshotFails).sys.db)
  {
    var first := MoveWrites(cfg, s.db, id, move, s.clock, tx);
    var db := Transition(cfg, s.db, id, move, s.clock, tx).0;
    MoveReaches(cfg, s.db, id, move, s.clock, tx);
    if SavesReport(cfg, s, id, move, tx, snapshotFails) {
      OneWrite(cfg, s.clock, db, SaveReport(id, s.clock));
      ReachesTransitive(cfg, s.clock, s.db, first, db, [SaveReport(id, s.clock)], Apply(db, SaveReport(id, s.clock)));
    } else {
      assert first + [] == first;
    }
  }

  lemma LapReaches(cfg: Config, s: Sys, e: Event, fault: LapFault, finishTx: Tx, snapshotFails: bool)
    ensures Reaches(cfg, s.clock, s.db, LapWrites(cfg, s, e, fault, finishTx, snapshotFails),
                    RecordLap(cfg, s, e, fault, finishTx, snapshotFails).db)
  {
    if fault.NoFault? && LapAccepted(s, e) {
      var id, s' := s.active.value, LapStored(s, e);
      var w := StoreLap(id, e.car.value, e.payload.timeMs, CrossingMs(e), e.at);
      OneWrite(cfg, s.clock, s.db, w);
      if TargetReached(s'.db, id) {
        CloseReaches(cfg, s', id, Finish, finishTx, snapshotFails);
        ReachesTransitive(cfg, s.clock, s.db, [w], s'.db, CloseWrites(cfg, s', id, Finish, finishTx, snapshotFails),
                          CloseRace(cfg, s', id, Finish, finishTx, snapshotFails).sys.db);
      } else {
        assert [w] + [] == [w];
      }
    }
  }

  lemma SeedReaches(cfg: Config, s: Sys, id: RaceId)
    ensures Reaches(cfg, s.clock, s.db, SeedWrites(s.db, id), SeededSys(s, id).db)
  {
    if id in s.db.races { OneWrite(cfg, s.clock, s.db, SeedCars(id)); }
  }

  lemma {:induction false} RecoverReaches(cfg: Config, s: Sys, ids: seq<RaceId>, txs: seq<Tx>)
    ensures Reaches(cfg, s.clock, s.db, RecoverWrites(cfg, s, ids, txs), Recover(cfg, s, ids, txs).db)
    decreases |ids|
  {
    if |ids| == 0 || !Head(txs).Lands() { return; }
    var seed, s' := SeedWrites(s.db, ids[0]), SeededSys(s, ids[0]);
    SeedReaches(cfg, s, ids[0]);
    if Head(txs).ReadBackFails? { return; }
    if cfg.recoverRunning {
      var s'' := s'.(active := Some(ids[0]));
      RecoverReaches(cfg, s'', ids[1..], Tail(txs));
      ReachesTransitive(cfg, s.clock, s.db, seed, s'.db, RecoverWrites(cfg, s'', ids[1..], Tail(txs)),
                        Recover(cfg, s'', ids[1..], Tail(txs)).db);
    } else {
      var p := PauseRace(cfg, s', ids[0], Head(Tail(txs)));
      var pause := MoveWrites(cfg, s'.db, ids[0], Pause, s.clock, Head(Tail(txs)));
      MoveReaches(cfg, s'.db, ids[0], Pause, s.clock, Head(Tail(txs)));
      ReachesTransitive(cfg, s.clock, s.db, seed, s'.db, pause, p.sys.db);
      if p.reply.StorageError? {
        assert seed + pause + [] == seed + pause;
      } else {
        RecoverReaches(cfg, p.sys, ids[1..], Tail(Tail(txs)));
        ReachesTransitive(cfg, s.clock, s.db, seed + pause, p.sys.db, RecoverWrites(cfg, p.sys, ids[1..], Tail(Tail(txs))),
                          Recover(cfg, p.sys, ids[1..], Tail(Tail(txs))).db);
      }
    }
  }

  lemma SafetyReaches(cfg: Config, s: Sys, op: Op)
    requires op.DoSetSafety?
    ensures Reaches(cfg, s.clock, s.db, Writes(cfg, s, op), Step(cfg, s, op).db)
  {
    if Writes(cfg, s, op) != [] {
      OneWrite(cfg, s.clock, s.db, LogEvent(RaceEvent(op.id, s.clock, if op.on then SafetyCarStarted else SafetyCarEnded, None)));
    }
  }

  lemma RowReaches(cfg: Config, s: Sys, op: Op)
    requires op.Create? || op.Update? || op.Delete? || op.DoEvent?
    ensures Reaches(cfg, s.clock, s.db, Writes(cfg, s, op), Step(cfg, s, op).db)
  {
    if Writes(cfg, s, op) != [] {
      match op {
        case Create(id, form, tx) => OneWrite(cfg, s.clock, s.db, AddRace(id, form, cfg.defaultStatus));
        case Update(id, form, tx) => OneWrite(cfg, s.clock, s.db, EditRace(id, form));
        case Delete(id, fails) => OneWrite(cfg, s.clock, s.db, DropRace(id));
        case DoEvent(e, fails) => OneWrite(cfg, s.clock, s.db, LogEvent(RaceEvent(s.active.value, e.at, Telemetered, e.car)));
      }
    }
  }

  /** Whatever an operation does to the database, it does by these transactions, each legal when committed. */
  lemma StepWrites(cfg: Config, s: Sys, op: Op)
    ensures Reaches(cfg, s.clock, s.db, Writes(cfg, s, op), Step(cfg, s, op).db)
  {
    match op
    case DoMarkReady(id, tx) => MoveReaches(cfg, s.db, id, MarkReady, s.clock, tx);
    case DoStart(id, pauseTx, tx) => ActivateReaches(cfg, s, id, Start, pauseTx, tx);
    case DoPause(id, tx) => MoveReaches(cfg, s.db, id, Pause, s.clock, tx);
    case DoResume(id, pauseTx, tx) => ActivateReaches(cfg, s, id, Resume, pauseTx, tx);
    case DoFinish(id, tx, snapshotFails) => CloseReaches(cfg, s, id, Finish, tx, snapshotFails);
    case DoCancel(id, tx, snapshotFails) => CloseReaches(cfg, s, id, Cancel, tx, snapshotFails);
    case DoSetSafety(_, _, _, _) => SafetyReaches(cfg, s, op);
    case DoLap(e, fault, finishTx, snapshotFails) => LapReaches(cfg, s, e, fault, finishTx, snapshotFails);
    case DoTick(tx, snapshotFails) => if TimeIsUp(s) { CloseReaches(cfg, s, s.active.value, Finish, tx, snapshotFails); }
    case DoRestart(txs) => RecoverReaches(cfg, Crashed(s), Listed(s.db), txs);
    case DoReadSafety(id, readFails) =>
    case Wait(ms) =>
    case _ => RowReaches(cfg, s, op);
  }

  lemma {:induction false} RecoverIsCalm(cfg: Config, s: Sys, ids: seq<RaceId>, txs: seq<Tx>)
    ensures Calm(RecoverWrites(cfg, s, ids, txs)) && Quiet(RecoverWrites(cfg, s, ids, txs))
    decreases |ids|
  {
    if |ids| != 0 && Head(txs).Commits? {
      var s' := SeededSys(s, ids[0]);
      RecoverIsCalm(cfg, s'.(active := Some(ids[0])), ids[1..], Tail(txs));
      RecoverIsCalm(cfg, PauseRace(cfg, s', ids[0], Head(Tail(txs))).sys, ids[1..], Tail(Tail(txs)));
    }
  }

  lemma MovesCalmly(cfg: Config, db: Tables, id: RaceId, move: Move, now: int, tx: Tx)
    ensures forall w <- MoveWrites(cfg, db, id, move, now, tx) :: w.MoveRace?
    ensures Calm(MoveWrites(cfg, db, id, move, now, tx)) && Quiet(MoveWrites(cfg, db, id, move, now, tx))
  {
  }

  lemma ClosesCalmly(cfg: Config, s: Sys, id: RaceId, move: Move, tx: Tx, snapshotFails: bool)
    ensures Calm(CloseWrites(cfg, s, id, move, tx, snapshotFails)) && Quiet(CloseWrites(cfg, s, id, move, tx, snapshotFails))
  {
  }

  lemma ActivatesCalmly(cfg: Config, s: Sys, id: RaceId, move: Move, pauseTx: Tx, tx: Tx)
    ensures Calm(ActivateWrites(cfg, s, id, move, pauseTx, tx)) && Quiet(ActivateWrites(cfg, s, id, move, pauseTx, tx))
  {
    if s.active.Some? && s.active.value != id {
      MovesCalmly(cfg, s.db, s.active.value, Pause, s.clock, pauseTx);
      MovesCalmly(cfg, Transition(cfg, s.db, s.active.value, Pause, s.clock, pauseTx).0, id, move, s.clock, tx);
    } else {
      MovesCalmly(cfg, s.db, id, move, s.clock, tx);
    }
  }

  lemma LapsQuietly(cfg: Config, s: Sys, e: Event, fault: LapFault, finishTx: Tx, snapshotFails: bool)
    ensures Quiet(LapWrites(cfg, s, e, fault, finishTx, snapshotFails))
  {
    if fault.NoFault? && LapAccepted(s, e) {
      ClosesCalmly(cfg, LapStored(s, e), s.active.value, Finish, finishTx, snapshotFails);
    }
  }

  /** Which operations can delete races, store laps, add races or log safety-car events. */
  lemma WritesByKind(cfg: Config, s: Sys, op: Op)
    ensures !op.Delete? && !op.DoLap? ==> Calm(Writes(cfg, s, op))
    ensures !op.Delete? ==> forall w <- Writes(cfg, s, op) :: !w.DropRace?
    ensures !op.Create? && !op.Delete? && !op.DoSetSafety? ==> Quiet(Writes(cfg, s, op))
  {
    match op
    case DoStart(id, pauseTx, tx) => ActivatesCalmly(cfg, s, id, Start, pauseTx, tx);
    case DoResume(id, pauseTx, tx) => ActivatesCalmly(cfg, s, id, Resume, pauseTx, tx);
    case DoFinish(id, tx, snapshotFails) => ClosesCalmly(cfg, s, id, Finish, tx, snapshotFails);
    case DoCancel(id, tx, snapshotFails) => ClosesCalmly(cfg, s, id, Cancel, tx, snapshotFails);
    case DoTick(tx, snapshotFails) => if TimeIsUp(s) { ClosesCalmly(cfg, s, s.active.value, Finish, tx, snapshotFails); }
    case DoLap(e, fault, finishTx, snapshotFails) => LapsQuietly(cfg, s, e, fault, finishTx, snapshotFails);
    case DoRestart(txs) => RecoverIsCalm(cfg, Crashed(s), Listed(s.db), txs);
    case _ =>
  }

  // ----- lap continuity

  /** Laps 1..n, one identity per lap, and a checkpoint that says n (absent only while n is 0). */
  ghost predicate CarContinuous(db: Tables, id: RaceId, car: int) {
    var mine := LapsOf(db.laps, id, car);
    && Numbered(mine)
    && |IdentitiesOf(db.identities, id, car)| == |mine|
    && if (id, car) in db.checkpoints then db.checkpoints[(id, car)].lapCount == |mine| else mine == []
  }

  ghost predicate Continuous(db: Tables) { forall id: RaceId, car: int :: CarContinuous(db, id, car) }

  /** Child rows always belong to an existing race. */
  ghost predicate NoOrphans(db: Tables) {
    forall id: RaceId :: id !in db.races ==>
      && RaceLaps(db.laps, id) == []
      && SafetyLog(db.events, id) == []
  }

  /** A race that has not started has no laps, and every lap was driven by a driver of the race. */
  ghost predicate RaceRoster(db: Tables, id: RaceId)
    requires id in db.races
  {
    var mine := RaceLaps(db.laps, id);
    && (db.races[id].status.Unstarted() ==> mine == [])
    && forall l <- mine :: l.car in db.races[id].form.roster
  }

  ghost predicate Rosters(db: Tables) { forall id <- db.races :: RaceRoster(db, id) }

  /** Every saved report says what a fresh summary of its race says now, whatever the clock. */
  ghost predicate ReportHolds(db: Tables, r: Report) {
    && r.race in db.races
    && db.races[r.race].status.Terminal() && db.races[r.race].finishedAt.Some?
    && r.summary == SummaryOf(db.races[r.race], RaceLaps(db.laps, r.race), 0)
  }

  ghost predicate Frozen(db: Tables) { forall r <- db.reports :: ReportHolds(db, r) }

  /** Timestamps match the status and are ordered. */
  predicate TimesOk(race: Race, now: int) {
    && (race.status.Unstarted() ==> race.startedAt.None?)
    && (race.status.Live() || race.status.Finished? ==> race.startedAt.Some?)
    && (race.status.Terminal() <==> race.finishedAt.Some?)
    && (race.startedAt.Some? ==> race.startedAt.value <= now)
    && (race.finishedAt.Some? ==> race.finishedAt.value <= now)
    && (race.startedAt.Some? && race.finishedAt.Some? ==> race.startedAt.value <= race.finishedAt.value)
  }

  ghost predicate Timed(db: Tables, now: int) { forall id <- db.races :: TimesOk(db.races[id], now) }

  /** Safety-car events of a race are stored in time order. */
  ghost predicate InOrder(log: seq<RaceEvent>, now: int) {
    && (forall i, j :: 0 <= i < j < |log| ==> log[i].at <= log[j].at)
    && (forall i :: 0 <= i < |log| ==> log[i].at <= now)
  }

  ghost predicate SafetyInOrder(db: Tables, now: int) { forall id: RaceId :: InOrder(SafetyLog(db.events, id), now) }

  ghost predicate DbInvariant(cfg: Config, now: int, db: Tables) {
    && NoOrphans(db) && Continuous(db) && SafetyInOrder(db, now)
    && (cfg.defaultStatus.Unstarted() ==> Timed(db, now))
    && (!cfg.allowEditRunning ==> Rosters(db) && Frozen(db))
  }

  // ----- preservation, one transaction at a time

  ghost function NewLap(db: Tables, w: Write): Lap
    requires w.StoreLap? && w.id in db.races && w.car in db.races[w.id].form.roster
  {
    Lap(w.id, w.car, db.races[w.id].form.roster[w.car], LapCount(db, w.id, w.car) + 1, w.timeMs, w.at)
  }

  lemma RowsKept(cfg: Config, now: int, db: Tables, w: Write, id: RaceId, car: int)
    requires Legal(cfg, now, db, w)
    ensures w.StoreLap? && w.id == id ==>
              && RaceLaps(Apply(db, w).laps, id) == RaceLaps(db.laps, id) + [NewLap(db, w)]
              && LapsOf(Apply(db, w).laps, id, car) == LapsOf(db.laps, id, car) + (if w.car == car then [NewLap(db, w)] else [])
              && |IdentitiesOf(Apply(db, w).identities, id, car)|
                 == |IdentitiesOf(db.identities, id, car)| + (if w.car == car then 1 else 0)
    ensures w.DropRace? && w.id == id ==>
              && RaceLaps(Apply(db, w).laps, id) == []
              && LapsOf(Apply(db, w).laps, id, car) == []
              && IdentitiesOf(Apply(db, w).identities, id, car) == []
    ensures !((w.StoreLap? || w.DropRace?) && w.id == id) ==>
              && RaceLaps(Apply(db, w).laps, id) == RaceLaps(db.laps, id)
              && LapsOf(Apply(db, w).laps, id, car) == LapsOf(db.laps, id, car)
              && IdentitiesOf(Apply(db, w).identities, id, car) == IdentitiesOf(db.identities, id, car)
  {
    if w.StoreLap? {
      LapsOfSnoc(db.laps, NewLap(db, w), id, car);
      IdentitiesOfSnoc(db.identities, Identity(w.id, w.car, w.cuMs), id, car);
    } else if w.DropRace? {
      WithoutRace(db, w.id, id, car);
      if w.id == id { assert LapsOf(Apply(db, w).laps, id, car) == CarLaps([], car); }
    }
  }

  lemma {:induction false} SeededAt(db: Tables, id: RaceId, roster: map<int, string>, n: nat, k: (RaceId, int))
    ensures var cps := Seeded(db, id, roster, n);
            if k.0 == id && 1 <= k.1 <= n && k.1 in roster
            then k in cps && cps[k] == Checkpoint(0, |LapsOf(db.laps, id, k.1)|)
            else (k in cps <==> k in db.checkpoints) && (k in cps ==> cps[k] == db.checkpoints[k])
  {
    if n > 0 { SeededAt(db, id, roster, n - 1, k); }
  }

  lemma ContinuityKept(cfg: Config, now: int, db: Tables, w: Write)
    requires Legal(cfg, now, db, w) && Continuous(db)
    ensures Continuous(Apply(db, w))
  {
    forall id: RaceId, car: int ensures CarContinuous(Apply(db, w), id, car) {
      assert CarContinuous(db, id, car);
      CarKept(cfg, now, db, w, id, car);
    }
  }

  lemma CarKept(cfg: Config, now: int, db: Tables, w: Write, id: RaceId, car: int)
    requires Legal(cfg, now, db, w) && CarContinuous(db, id, car)
    ensures CarContinuous(Apply(db, w), id, car)
  {
    match w
    case StoreLap(_, _, _, _, _) => StoredCarKept(cfg, now, db, w, id, car);
    case SeedCars(_) =>
      RowsKept(cfg, now, db, w, id, car);
      SeededAt(db, w.id, db.races[w.id].form.roster, CARS, (id, car));
    case DropRace(_) => RowsKept(cfg, now, db, w, id, car);
    case _ =>
  }

  lemma StoredCarKept(cfg: Config, now: int, db: Tables, w: Write, id: RaceId, car: int)
    requires Legal(cfg, now, db, w) && w.StoreLap? && CarContinuous(db, id, car)
    ensures CarContinuous(Apply(db, w), id, car)
  {
    var db' := Apply(db, w);
    RowsKept(cfg, now, db, w, id, car);
    if w.id == id && w.car == car {
      CarGrows(db, db', id, car, NewLap(db, w));
    } else {
      assert LapsOf(db'.laps, id, car) == LapsOf(db.laps, id, car);
    }
  }

  /** One more lap with the next number, one more identity, and a checkpoint that follows. */
  lemma CarGrows(db: Tables, db': Tables, id: RaceId, car: int, lap: Lap)
    requires CarContinuous(db, id, car) && lap.number == |LapsOf(db.laps, id, car)| + 1
    requires LapsOf(db'.laps, id, car) == LapsOf(db.laps, id, car) + [lap]
    requires |IdentitiesOf(db'.identities, id, car)| == |IdentitiesOf(db.identities, id, car)| + 1
    requires (id, car) in db'.checkpoints && db'.checkpoints[(id, car)].lapCount == lap.number
    ensures CarContinuous(db', id, car)
  {
  }

  /** The uniqueness of (race, car, lap number) never rejects a lap: only a duplicate crossing or a zero time can. */
  lemma LapRejectedOnlyByKeyOrTime(db: Tables, id: RaceId, car: int, timeMs: int, cuMs: int)
    requires Continuous(db)
    ensures LapFits(db, id, car, timeMs, cuMs)
       <==> Identity(id, car, cuMs) !in db.identities && timeMs > 0 && 1 <= car <= CARS && cuMs >= 0
  {
    assert CarContinuous(db, id, car);
    forall l | l in db.laps && l.race == id && l.car == car
      ensures l.number != LapCount(db, id, car) + 1
    {
      FilterIn(db.laps, l, (x: Lap) => x.race == id);
      FilterIn(RaceLaps(db.laps, id), l, (x: Lap) => x.car == car);
      assert l in LapsOf(db.laps, id, car);
    }
  }

  lemma EventsKept(cfg: Config, now: int, db: Tables, w: Write, id: RaceId)
    requires Legal(cfg, now, db, w)
    ensures SafetyLog(Apply(db, w).events, id)
            == if w.DropRace? && w.id == id then []
               else SafetyLog(db.events, id) + (if w.LogEvent? && w.event.race == id && w.event.kind.Safety() then [w.event] else [])
  {
    if w.DropRace? { WithoutRace(db, w.id, id, 0); }
    if w.LogEvent? { SafetyLogSnoc(db.events, w.event, id); }
    if w.MoveRace? {
      if w.logged { SafetyLogSnoc(db.events, RaceEvent(w.id, w.now, Lifecycle(w.move), None), id); }
      assert db.events + [] == db.events;
    }
  }

  lemma OrphansAndOrderKept(cfg: Config, now: int, db: Tables, w: Write)
    requires Legal(cfg, now, db, w) && NoOrphans(db) && SafetyInOrder(db, now)
    ensures NoOrphans(Apply(db, w)) && SafetyInOrder(Apply(db, w), now)
  {
    var db' := Apply(db, w);
    forall id: RaceId
      ensures InOrder(SafetyLog(db'.events, id), now)
      ensures id !in db'.races ==> RaceLaps(db'.laps, id) == [] && SafetyLog(db'.events, id) == []
    {
      EventsKept(cfg, now, db, w, id);
      RaceRowsKept(cfg, now, db, w, id);
      assert InOrder(SafetyLog(db.events, id), now);
    }
  }

  lemma TimesKept(cfg: Config, now: int, db: Tables, w: Write)
    requires Legal(cfg, now, db, w) && Timed(db, now) && cfg.defaultStatus.Unstarted()
    ensures Timed(Apply(db, w), now)
  {
  }

  lemma RaceRowsKept(cfg: Config, now: int, db: Tables, w: Write, id: RaceId)
    requires Legal(cfg, now, db, w)
    ensures RaceLaps(Apply(db, w).laps, id)
            == if w.StoreLap? && w.id == id then RaceLaps(db.laps, id) + [NewLap(db, w)]
               else if w.DropRace? && w.id == id then [] else RaceLaps(db.laps, id)
  {
    RowsKept(cfg, now, db, w, id, 0);
  }

  lemma RostersKept(cfg: Config, now: int, db: Tables, w: Write)
    requires Legal(cfg, now, db, w) && NoOrphans(db) && Rosters(db) && !cfg.allowEditRunning
    ensures Rosters(Apply(db, w))
  {
    var db' := Apply(db, w);
    forall id | id in db'.races ensures RaceRoster(db', id) {
      RaceRowsKept(cfg, now, db, w, id);
      if w.AddRace? && w.id == id {
        assert RaceLaps(db'.laps, id) == [];
      } else {
        assert RaceRoster(db, id);
        if w.EditRace? && w.id == id { assert RaceLaps(db'.laps, id) == []; }
      }
    }
  }

  lemma FrozenKept(cfg: Config, now: int, db: Tables, w: Write)
    requires Legal(cfg, now, db, w) && Frozen(db) && !cfg.allowEditRunning
    ensures Frozen(Apply(db, w))
  {
    var db' := Apply(db, w);
    forall r | r in db'.reports ensures ReportHolds(db', r) {
      if w.DropRace? { FilterIn(db.reports, r, (x: Report) => x.race != w.id); }
      RaceRowsKept(cfg, now, db, w, r.race);
      if r in db.reports { assert ReportHolds(db, r); }
    }
  }

  lemma InvariantKept(cfg: Config, now: int, db: Tables, w: Write)
    requires Legal(cfg, now, db, w) && DbInvariant(cfg, now, db)
    ensures DbInvariant(cfg, now, Apply(db, w))
  {
    ContinuityKept(cfg, now, db, w);
    OrphansAndOrderKept(cfg, now, db, w);
    if cfg.defaultStatus.Unstarted() { TimesKept(cfg, now, db, w); }
    if !cfg.allowEditRunning {
      RostersKept(cfg, now, db, w);
      FrozenKept(cfg, now, db, w);
    }
  }

  lemma {:induction false} InvariantKeptAll(cfg: Config, now: int, db: Tables, ws: seq<Write>)
    requires LegalAll(cfg, now, db, ws) && DbInvariant(cfg, now, db)
    ensures DbInvariant(cfg, now, ApplyAll(cfg, now, db, ws))
    decreases |ws|
  {
    if |ws| > 0 {
      InvariantKept(cfg, now, db, ws[0]);
      InvariantKeptAll(cfg, now, Apply(db, ws[0]), ws[1..]);
    }
  }

  lemma InvariantKeptByStep(cfg: Config, s: Sys, op: Op)
    requires DbInvariant(cfg, s.clock, s.db)
    ensures DbInvariant(cfg, Step(cfg, s, op).clock, Step(cfg, s, op).db)
  {
    StepWrites(cfg, s, op);
    InvariantKeptAll(cfg, s.clock, s.db, Writes(cfg, s, op));
    ClockOnlyWaits(cfg, s, op);
    LaterStillHolds(cfg, s.clock, Step(cfg, s, op).clock, Step(cfg, s, op).db);
  }

  lemma LaterStillHolds(cfg: Config, now: int, later: int, db: Tables)
    requires DbInvariant(cfg, now, db) && now <= later
    ensures DbInvariant(cfg, later, db)
  {
    forall id: RaceId ensures InOrder(SafetyLog(db.events, id), later) {
      assert InOrder(SafetyLog(db.events, id), now);
    }
  }

  lemma {:induction false} RecoverKeepsClock(cfg: Config, s: Sys, ids: seq<RaceId>, txs: seq<Tx>)
    ensures Recover(cfg, s, ids, txs).clock == s.clock && Recover(cfg, s, ids, txs).safety == s.safety
    decreases |ids|
  {
    if |ids| != 0 && Head(txs).Lands() {
      var s' := SeededSys(s, ids[0]);
      RecoverKeepsClock(cfg, s'.(active := Some(ids[0])), ids[1..], Tail(txs));
      RecoverKeepsClock(cfg, PauseRace(cfg, s', ids[0], Head(Tail(txs))).sys, ids[1..], Tail(Tail(txs)));
    }
  }

  lemma CloseKeepsClock(cfg: Config, s: Sys, id: RaceId, move: Move, tx: Tx, snapshotFails: bool)
    ensures CloseRace(cfg, s, id, move, tx, snapshotFails).sys.clock == s.clock
  {
  }

  lemma LapKeepsClock(cfg: Config, s: Sys, e: Event, fault: LapFault, finishTx: Tx, snapshotFails: bool)
    ensures RecordLap(cfg, s, e, fault, finishTx, snapshotFails).clock == s.clock
  {
    if LapAccepted(s, e) { CloseKeepsClock(cfg, LapStored(s, e), s.active.value, Finish, finishTx, snapshotFails); }
  }

  lemma ClockOnlyWaits(cfg: Config, s: Sys, op: Op)
    ensures Step(cfg, s, op).clock == s.clock + (if op.Wait? then op.ms else 0)
  {
    match op
    case DoFinish(id, tx, snapshotFails) => CloseKeepsClock(cfg, s, id, Finish, tx, snapshotFails);
    case DoCancel(id, tx, snapshotFails) => CloseKeepsClock(cfg, s, id, Cancel, tx, snapshotFails);
    case DoTick(tx, snapshotFails) => if TimeIsUp(s) { CloseKeepsClock(cfg, s, s.active.value, Finish, tx, snapshotFails); }
    case DoLap(e, fault, finishTx, snapshotFails) => LapKeepsClock(cfg, s, e, fault, finishTx, snapshotFails);
    case DoRestart(txs) => RecoverKeepsClock(cfg, Crashed(s), Listed(s.db), txs);
    case _ =>
  }

  // ----- the theorem about every run

  lemma EmptyDatabase(cfg: Config)
    ensures DbInvariant(cfg, 0, EMPTY)
  {
  }

  /**
   * After any operations, successful or failing, with crashes and restarts anywhere: laps, identities
   * and checkpoints are continuous, timestamps fit the status, and saved reports still hold.
   */
  lemma {:induction false} EveryRunKeepsDatabase(cfg: Config, ops: seq<Op>)
    ensures DbInvariant(cfg, Run(cfg, INITIAL, ops).clock, Run(cfg, INITIAL, ops).db)
  {
    if |ops| == 0 {
      EmptyDatabase(cfg);
    } else {
      EveryRunKeepsDatabase(cfg, ops[..|ops| - 1]);
      InvariantKeptByStep(cfg, Run(cfg, INITIAL, ops[..|ops| - 1]), ops[|ops| - 1]);
    }
  }

  /** Any prefix of legal transactions is legal. */
  lemma {:induction false} LegalPrefix(cfg: Config, now: int, db: Tables, ws: seq<Write>, k: nat)
    requires LegalAll(cfg, now, db, ws) && k <= |ws|
    ensures LegalAll(cfg, now, db, ws[..k])
    decreases k
  {
    if k > 0 {
      LegalPrefix(cfg, now, Apply(db, ws[0]), ws[1..], k - 1);
      assert ws[..k][1..] == ws[1..][..k - 1];
    }
  }
}
