/**
 * What each operation of the race service does to the whole system: the database tables plus the
 * in-memory active-race pointer and safety-car cache. The service's methods are proved against
 * these functions; the invariants are proved about them.
 */
module RaceRules {
  import opened Base
  import opened Telemetry
  import opened RaceTables
  import opened Reporting

  datatype Config = Config(persistEvents: bool, allowEditRunning: bool, defaultStatus: Status, recoverRunning: bool)

  /** How one transaction ends: committed; its first read or its writes fail; or committed, but the row cannot be read back. */
  datatype Tx = Commits | ReadFails | WriteFails | ReadBackFails {
    predicate Lands() { Commits? || ReadBackFails? }
  }

  /** Which statement of the lap transaction raises, if any. */
  datatype LapFault = NoFault | CannotRead | IdentityFails | LapRowFails | CheckpointFails | CommitFails

  datatype Reply = Done | NotFound | InvalidState | NotEditable | StorageError

  datatype Sys = Sys(db: Tables, active: Option<RaceId>, safety: map<RaceId, bool>, clock: int)

  datatype Outcome = Outcome(sys: Sys, reply: Reply)

  // ----- committed transactions

  datatype Write =
    | AddRace(id: RaceId, form: Form, status: Status)
    | EditRace(id: RaceId, form: Form)
    | DropRace(id: RaceId)
    | MoveRace(id: RaceId, move: Move, now: int, logged: bool)
    | StoreLap(id: RaceId, car: int, timeMs: int, cuMs: int, at: int)
    | SeedCars(id: RaceId)
    | LogEvent(event: RaceEvent)
    | SaveReport(id: RaceId, now: int)

  predicate Allowed(move: Move, from: Status) {
    match move
    case MarkReady => from.Unstarted()
    case Start => from.Unstarted()
    case Pause => from.Running?
    case Resume => from.Paused?
    case Finish => from.Live()
    case Cancel => from.Unstarted() || from.Live()
  }

  function Target(move: Move): Status {
    match move
    case MarkReady => Ready
    case Start => Running
    case Pause => Paused
    case Resume => Running
    case Finish => Finished
    case Cancel => Cancelled
  }

  function Moved(race: Race, move: Move, now: int): Race {
    race.(status := Target(move),
          startedAt := if move.Start? && race.startedAt.None? then Some(now) else race.startedAt,
          finishedAt := if (move.Finish? || move.Cancel?) && race.finishedAt.None? then Some(now) else race.finishedAt)
  }

  /** Lap count of a car as ingest sees it: the checkpoint, seeded from the stored rows when absent. */
  function LapCount(db: Tables, id: RaceId, car: int): int {
    if (id, car) in db.checkpoints then db.checkpoints[(id, car)].lapCount else |LapsOf(db.laps, id, car)|
  }

  predicate Editable(status: Status, allowEdit: bool) { status.Unstarted() || allowEdit }

  /** Checkpoints after the drivers among cars 1..n were reseeded from their stored laps. */
  function Seeded(db: Tables, id: RaceId, roster: map<int, string>, n: nat): map<(RaceId, int), Checkpoint> {
    if n == 0 then db.checkpoints
    else
      var before := Seeded(db, id, roster, n - 1);
      if n in roster then before[(id, n) := Checkpoint(0, |LapsOf(db.laps, id, n)|)] else before
  }

  /** UNIQUE and CHECK constraints of the lap and identity tables. */
  predicate LapFits(db: Tables, id: RaceId, car: int, timeMs: int, cuMs: int) {
    && 1 <= car <= CARS && cuMs >= 0
    && Identity(id, car, cuMs) !in db.identities
    && timeMs > 0
    && LapCount(db, id, car) + 1 > 0
    && forall l <- db.laps :: !(l.race == id && l.car == car && l.number == LapCount(db, id, car) + 1)
  }

  /** The guard under which the service, configured by `cfg` and reading the clock as `now`, commits a write. */
  predicate Legal(cfg: Config, now: int, db: Tables, w: Write) {
    match w
    case AddRace(id, _, status) => id !in db.races && status == cfg.defaultStatus
    case EditRace(id, _) => id in db.races && Editable(db.races[id].status, cfg.allowEditRunning)
    case DropRace(id) => id in db.races && !db.races[id].status.Running?
    case MoveRace(id, move, at, _) => id in db.races && Allowed(move, db.races[id].status) && at == now
    case StoreLap(id, car, timeMs, cuMs, _) =>
      id in db.races && db.races[id].status.Running? && car in db.races[id].form.roster && LapFits(db, id, car, timeMs, cuMs)
    case SeedCars(id) => id in db.races
    case LogEvent(e) => e.race in db.races && db.races[e.race].status.Live() && !e.kind.Lifecycle? && (e.kind.Safety() ==> e.at == now)
    case SaveReport(id, at) => id in db.races && db.races[id].status.Terminal() && db.races[id].finishedAt.Some? && at == now
  }

  function Apply(db: Tables, w: Write): Tables
    requires !w.AddRace? && !w.DropRace? && !w.LogEvent? ==> w.id in db.races
    requires w.StoreLap? ==> w.car in db.races[w.id].form.roster
  {
    match w
    case AddRace(id, form, status) => db.(races := db.races[id := Race(form, status, None, None)])
    case EditRace(id, form) => db.(races := db.races[id := db.races[id].(form := form)])
    case DropRace(id) => Tables(
      db.races - {id}, LapsWithout(db.laps, id), IdentitiesWithout(db.identities, id),
      map k | k in db.checkpoints && k.0 != id :: db.checkpoints[k],
      EventsWithout(db.events, id), ReportsWithout(db.reports, id))
    case MoveRace(id, move, now, logged) => db.(
      races := db.races[id := Moved(db.races[id], move, now)],
      events := db.events + (if logged then [RaceEvent(id, now, Lifecycle(move), None)] else []))
    case StoreLap(id, car, timeMs, cuMs, at) =>
      var number := LapCount(db, id, car) + 1;
      db.(laps := db.laps + [Lap(id, car, db.races[id].form.roster[car], number, timeMs, at)],
          identities := db.identities + [Identity(id, car, cuMs)],
          checkpoints := db.checkpoints[(id, car) := Checkpoint(cuMs, number)])
    case SeedCars(id) => db.(checkpoints := Seeded(db, id, db.races[id].form.roster, CARS))
    case LogEvent(e) => db.(events := db.events + [e])
    case SaveReport(id, now) => db.(
      reports := db.reports + [Report(id, SummaryOf(db.races[id], RaceLaps(db.laps, id), now))])
  }

  // ----- lifecycle

  function Transition(cfg: Config, db: Tables, id: RaceId, move: Move, now: int, tx: Tx): (Tables, Reply) {
    if tx.ReadFails? then (db, StorageError)
    else if id !in db.races then (db, NotFound)
    else if !Allowed(move, db.races[id].status) then (db, InvalidState)
    else if !tx.Lands() then (db, StorageError)
    else (
      Apply(db, MoveRace(id, move, now, cfg.persistEvents && !move.MarkReady?)),
      if tx.Commits? then Done else StorageError)
  }

  function MarkReadyRace(cfg: Config, s: Sys, id: RaceId, tx: Tx): Outcome {
    var (db, reply) := Transition(cfg, s.db, id, MarkReady, s.clock, tx);
    Outcome(s.(db := db), reply)
  }

  function PausedFirst(cfg: Config, s: Sys, id: RaceId, pauseTx: Tx): (Tables, Reply) {
    if s.active.Some? && s.active.value != id then Transition(cfg, s.db, s.active.value, Pause, s.clock, pauseTx)
    else (s.db, Done)
  }

  /** start_race and resume_race: whatever race is active is paused first, and stays paused if the move itself fails. */
  function ActivateRace(cfg: Config, s: Sys, id: RaceId, move: Move, pauseTx: Tx, tx: Tx): Outcome {
    var (db, paused) := PausedFirst(cfg, s, id, pauseTx);
    if paused.StorageError? then Outcome(s.(db := db), StorageError)
    else
      var (db', reply) := Transition(cfg, db, id, move, s.clock, tx);
      Outcome(s.(db := db', active := if reply.Done? then Some(id) else s.active), reply)
  }

  function Unless(active: Option<RaceId>, id: RaceId): Option<RaceId> { if active == Some(id) then None else active }

  function PauseRace(cfg: Config, s: Sys, id: RaceId, tx: Tx): Outcome {
    var (db, reply) := Transition(cfg, s.db, id, Pause, s.clock, tx);
    Outcome(s.(db := db, active := if reply.Done? then Unless(s.active, id) else s.active), reply)
  }

  function Snapshot(s: Sys, id: RaceId, fails: bool): Sys {
    if fails || id !in s.db.races then s else s.(db := Apply(s.db, SaveReport(id, s.clock)))
  }

  /** finish_race and cancel_race; a cancelled race is only reported on if it has laps. */
  function CloseRace(cfg: Config, s: Sys, id: RaceId, move: Move, tx: Tx, snapshotFails: bool): Outcome {
    var (db, reply) := Transition(cfg, s.db, id, move, s.clock, tx);
    if !reply.Done? then Outcome(s.(db := db), reply)
    else
      var s' := s.(db := db, active := Unless(s.active, id), safety := s.safety - {id});
      Outcome(if move.Finish? || RaceLaps(s.db.laps, id) != [] then Snapshot(s', id, snapshotFails) else s', Done)
  }

  // ----- create, edit, delete

  function CreateRace(cfg: Config, s: Sys, id: RaceId, form: Form, tx: Tx): Outcome {
    if !tx.Lands() || id in s.db.races then Outcome(s, StorageError)
    else Outcome(s.(db := Apply(s.db, AddRace(id, form, cfg.defaultStatus))), if tx.Commits? then Done else StorageError)
  }

  function UpdateRace(cfg: Config, s: Sys, id: RaceId, form: Form, tx: Tx): Outcome {
    if tx.ReadFails? then Outcome(s, StorageError)
    else if id !in s.db.races then Outcome(s, NotFound)
    else if !Editable(s.db.races[id].status, cfg.allowEditRunning) then Outcome(s, NotEditable)
    else if !tx.Lands() then Outcome(s, StorageError)
    else Outcome(s.(db := Apply(s.db, EditRace(id, form))), if tx.Commits? then Done else StorageError)
  }

  function DeleteRace(s: Sys, id: RaceId, fails: bool): Outcome {
    if id !in s.db.races then Outcome(s, NotFound)
    else if s.db.races[id].status.Running? then Outcome(s, InvalidState)
    else if fails then Outcome(s, StorageError)
    else Outcome(s.(db := Apply(s.db, DropRace(id)), active := Unless(s.active, id)), Done)
  }

  // ----- safety car

  /** The newest event by (timestamp, row id). */
  function Newest(log: seq<RaceEvent>): Option<RaceEvent> {
    if |log| == 0 then None
    else
      var last := log[|log| - 1];
      match Newest(log[..|log| - 1])
      case None => Some(last)
      case Some(e) => Some(if last.at >= e.at then last else e)
  }

  /** What a service without a cache reads from the event log. */
  predicate SafetyFromLog(db: Tables, id: RaceId) {
    var e := Newest(SafetyLog(db.events, id));
    e.Some? && e.value.kind.SafetyCarStarted?
  }

  function ReadSafety(s: Sys, id: RaceId, readFails: bool): (Sys, bool) {
    if readFails then (s, false)
    else if id !in s.db.races || !s.db.races[id].status.Live() then (s.(safety := s.safety - {id}), false)
    else if id in s.safety then (s, s.safety[id])
    else (s.(safety := s.safety[id := SafetyFromLog(s.db, id)]), SafetyFromLog(s.db, id))
  }

  function SetSafety(s: Sys, id: RaceId, on: bool, readFails: bool, fails: bool): Outcome {
    if id !in s.db.races then Outcome(s, NotFound)
    else if !s.db.races[id].status.Live() then Outcome(s, InvalidState)
    else
      var (s', current) := ReadSafety(s, id, readFails);
      if current == on then Outcome(s', Done)
      else if fails then Outcome(s', StorageError)
      else
        var e := RaceEvent(id, s.clock, if on then SafetyCarStarted else SafetyCarEnded, None);
        Outcome(s'.(db := Apply(s.db, LogEvent(e)), safety := s'.safety[id := on]), Done)
  }

  // ----- ingest

  /** Some car has at least `target` stored laps (a target of 0 or less is always reached). */
  ghost predicate LeaderReached(laps: seq<Lap>, id: RaceId, target: int) {
    target <= 0 || exists car: int :: |LapsOf(laps, id, car)| >= target
  }

  function CrossingMs(e: Event): int
    requires e.payload.LapData?
  {
    if e.payload.cuMs.Some? && e.payload.cuMs.value >= 0 then e.payload.cuMs.value else e.monoMs
  }

  /** The race a lap event would be stored for, if its guards let it through. */
  predicate LapAccepted(s: Sys, e: Event) {
    && e.payload.LapData? && e.car.Some?
    && s.active.Some? && s.active.value in s.db.races
    && s.db.races[s.active.value].status.Running?
    && e.car.value in s.db.races[s.active.value].form.roster
    && LapFits(s.db, s.active.value, e.car.value, e.payload.timeMs, CrossingMs(e))
  }

  function LapStored(s: Sys, e: Event): Sys
    requires LapAccepted(s, e)
  {
    s.(db := Apply(s.db, StoreLap(s.active.value, e.car.value, e.payload.timeMs, CrossingMs(e), e.at)))
  }

  ghost predicate TargetReached(db: Tables, id: RaceId)
    requires id in db.races
  {
    var form := db.races[id].form;
    form.mode.FixedLaps? && form.lapTarget.Some? && LeaderReached(db.laps, id, form.lapTarget.value)
  }

  ghost function RecordLap(cfg: Config, s: Sys, e: Event, fault: LapFault, finishTx: Tx, snapshotFails: bool): Sys {
    if s.active.None? || !e.payload.LapData? || e.car.None? || fault.CannotRead? then s
    else if s.active.value !in s.db.races then s.(active := None)
    else if !LapAccepted(s, e) || !fault.NoFault? then s
    else
      var s' := LapStored(s, e);
      if TargetReached(s'.db, s.active.value)
      then CloseRace(cfg, s', s.active.value, Finish, finishTx, snapshotFails).sys
      else s'
  }

  function RecordEvent(cfg: Config, s: Sys, e: Event, fails: bool): Sys {
    if !cfg.persistEvents || s.active.None? || fails then s
    else if s.active.value !in s.db.races || !s.db.races[s.active.value].status.Live() then s
    else if e.car.Some? && !(1 <= e.car.value <= CARS) then s
    else s.(db := Apply(s.db, LogEvent(RaceEvent(s.active.value, e.at, Telemetered, e.car))))
  }

  /** One beat of the fixed-duration ticker finishes exactly a running, timed race whose time is up. */
  predicate TimeIsUp(s: Sys) {
    && s.active.Some? && s.active.value in s.db.races
    && var race := s.db.races[s.active.value];
       && race.status.Running? && race.form.mode.FixedDuration?
       && race.startedAt.Some? && race.form.durationSeconds.Some?
       && s.clock - race.startedAt.value >= 1000 * race.form.durationSeconds.value
  }

  function Tick(cfg: Config, s: Sys, tx: Tx, snapshotFails: bool): Sys {
    if TimeIsUp(s) then CloseRace(cfg, s, s.active.value, Finish, tx, snapshotFails).sys else s
  }

  // ----- crash and recovery

  ghost function RunningIds(db: Tables): set<RaceId> { set r | r in db.races && db.races[r].status.Running? }

  lemma {:induction false} HasMaximum(ids: set<RaceId>)
    requires ids != {}
    ensures exists m :: m in ids && forall x <- ids :: x <= m
    decreases ids
  {
    var a :| a in ids;
    var rest := ids - {a};
    if rest == {} {
      assert ids == {a};
    } else {
      HasMaximum(rest);
      var m :| m in rest && forall x <- rest :: x <= m;
      var top := if a > m then a else m;
      forall x | x in ids ensures x <= top {
        if x != a { assert x in rest; }
      }
    }
  }

  ghost function Maximum(ids: set<RaceId>): (m: RaceId)
    requires ids != {}
    ensures m in ids && forall x <- ids :: x <= m
  {
    HasMaximum(ids);
    var m :| m in ids && forall x <- ids :: x <= m;
    m
  }

  /** Newest race first: races are created with growing ids. */
  ghost function NewestFirst(ids: set<RaceId>): seq<RaceId>
    decreases ids
  {
    if ids == {} then [] else [Maximum(ids)] + NewestFirst(ids - {Maximum(ids)})
  }

  const LIST_LIMIT := 100

  ghost function Listed(db: Tables): seq<RaceId> {
    var ids := NewestFirst(RunningIds(db));
    if |ids| <= LIST_LIMIT then ids else ids[..LIST_LIMIT]
  }

  function Head(txs: seq<Tx>): Tx { if |txs| == 0 then Commits else txs[0] }

  function Tail(txs: seq<Tx>): seq<Tx> { if |txs| == 0 then [] else txs[1..] }

  /** Recovery runs one or two transactions per race; a storage failure abandons the rest. */
  function Recover(cfg: Config, s: Sys, ids: seq<RaceId>, txs: seq<Tx>): Sys
    decreases |ids|
  {
    if |ids| == 0 || !Head(txs).Lands() then s
    else
      var s' := if ids[0] in s.db.races then s.(db := Apply(s.db, SeedCars(ids[0]))) else s;
      if Head(txs).ReadBackFails? then s'
      else if cfg.recoverRunning then Recover(cfg, s'.(active := Some(ids[0])), ids[1..], Tail(txs))
      else
        var p := PauseRace(cfg, s', ids[0], Head(Tail(txs)));
        if p.reply.StorageError? then p.sys else Recover(cfg, p.sys, ids[1..], Tail(Tail(txs)))
  }

  function Crashed(s: Sys): Sys { s.(active := None, safety := map[]) }

  ghost function Restart(cfg: Config, s: Sys, txs: seq<Tx>): Sys { Recover(cfg, Crashed(s), Listed(s.db), txs) }

  // ----- the whole machine

  datatype Op =
    | Create(id: RaceId, form: Form, tx: Tx)
    | Update(id: RaceId, form: Form, tx: Tx)
    | Delete(id: RaceId, fails: bool)
    | DoMarkReady(id: RaceId, tx: Tx)
    | DoStart(id: RaceId, pauseTx: Tx, tx: Tx)
    | DoPause(id: RaceId, tx: Tx)
    | DoResume(id: RaceId, pauseTx: Tx, tx: Tx)
    | DoFinish(id: RaceId, tx: Tx, snapshotFails: bool)
    | DoCancel(id: RaceId, tx: Tx, snapshotFails: bool)
    | DoSetSafety(id: RaceId, on: bool, readFails: bool, fails: bool)
    | DoReadSafety(id: RaceId, readFails: bool)
    | DoLap(event: Event, fault: LapFault, finishTx: Tx, snapshotFails: bool)
    | DoEvent(event: Event, fails: bool)
    | DoTick(tx: Tx, snapshotFails: bool)
    | DoRestart(txs: seq<Tx>)
    | Wait(ms: nat)

  ghost function Step(cfg: Config, s: Sys, op: Op): Sys {
    match op
    case Create(id, form, tx) => CreateRace(cfg, s, id, form, tx).sys
    case Update(id, form, tx) => UpdateRace(cfg, s, id, form, tx).sys
    case Delete(id, fails) => DeleteRace(s, id, fails).sys
    case DoMarkReady(id, tx) => MarkReadyRace(cfg, s, id, tx).sys
    case DoStart(id, pauseTx, tx) => ActivateRace(cfg, s, id, Start, pauseTx, tx).sys
    case DoPause(id, tx) => PauseRace(cfg, s, id, tx).sys
    case DoResume(id, pauseTx, tx) => ActivateRace(cfg, s, id, Resume, pauseTx, tx).sys
    case DoFinish(id, tx, snapshotFails) => CloseRace(cfg, s, id, Finish, tx, snapshotFails).sys
    case DoCancel(id, tx, snapshotFails) => CloseRace(cfg, s, id, Cancel, tx, snapshotFails).sys
    case DoSetSafety(id, on, readFails, fails) => SetSafety(s, id, on, readFails, fails).sys
    case DoReadSafety(id, readFails) => ReadSafety(s, id, readFails).0
    case DoLap(e, fault, finishTx, snapshotFails) => RecordLap(cfg, s, e, fault, finishTx, snapshotFails)
    case DoEvent(e, fails) => RecordEvent(cfg, s, e, fails)
    case DoTick(tx, snapshotFails) => Tick(cfg, s, tx, snapshotFails)
    case DoRestart(txs) => Restart(cfg, s, txs)
    case Wait(ms) => s.(clock := s.clock + ms)
  }

  ghost function Run(cfg: Config, s: Sys, ops: seq<Op>): Sys {
    if |ops| == 0 then s else Step(cfg, Run(cfg, s, ops[..|ops| - 1]), ops[|ops| - 1])
  }

  const INITIAL: Sys := Sys(EMPTY, None, map[], 0)
}
