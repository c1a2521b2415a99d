/** What each operation of the race service answers and changes, status by status. */
module RaceLifecycle {
  import opened Base
  import opened Telemetry
  import opened RaceTables
  import opened Reporting
  import opened RaceRules
  import opened RaceRuns

  /** Where a race of some status may go, and by which move. */
  function NextStatus(from: Status, move: Move): Option<Status> {
    match (from, move)
    case (Draft, MarkReady) => Some(Ready)
    case (Draft, Start) => Some(Running)
    case (Draft, Cancel) => Some(Cancelled)
    case (Ready, MarkReady) => Some(Ready)
    case (Ready, Start) => Some(Running)
    case (Ready, Cancel) => Some(Cancelled)
    case (Running, Pause) => Some(Paused)
    case (Running, Finish) => Some(Finished)
    case (Running, Cancel) => Some(Cancelled)
    case (Paused, Resume) => Some(Running)
    case (Paused, Finish) => Some(Finished)
    case (Paused, Cancel) => Some(Cancelled)
    case _ => None
  }

  /** Everything a committed move of `id` at `now` changes, and nothing else. */
  ghost predicate MovedTo(cfg: Config, db: Tables, db': Tables, id: RaceId, move: Move, to: Status, now: int)
    requires id in db.races
  {
    var race, stamped := db.races[id], move.Finish? || move.Cancel?;
    && db'.races.Keys == db.races.Keys && (forall r <- db.races :: r != id ==> db'.races[r] == db.races[r])
    && db'.races[id].status == to && db'.races[id].form == race.form
    && db'.races[id].startedAt == (if move.Start? && race.startedAt.None? then Some(now) else race.startedAt)
    && db'.races[id].finishedAt == (if stamped && race.finishedAt.None? then Some(now) else race.finishedAt)
    && db'.laps == db.laps && db'.identities == db.identities && db'.checkpoints == db.checkpoints && db'.reports == db.reports
    && db'.events == (if cfg.persistEvents && !move.MarkReady? then db.events + [RaceEvent(id, now, Lifecycle(move), None)] else db.events)
  }

  /** A move outside the table is refused by every status ... */
  lemma MoveRefused(db: Tables, id: RaceId, move: Move)
    requires id in db.races && NextStatus(db.races[id].status, move).None?
    ensures !Allowed(move, db.races[id].status)
  {
  }

  /** ... and a move of the table changes status and stamps of its race, and logs itself. */
  lemma MoveLands(cfg: Config, db: Tables, id: RaceId, move: Move, now: int)
    requires id in db.races && NextStatus(db.races[id].status, move).Some?
    ensures Allowed(move, db.races[id].status)
    ensures MovedTo(cfg, db, Apply(db, MoveRace(id, move, now, cfg.persistEvents && !move.MarkReady?)), id, move,
                    NextStatus(db.races[id].status, move).value, now)
  {
  }

  /** One transaction of the table: what it answers and does for every status, move and fault. */
  lemma TransitionTable(cfg: Config, db: Tables, id: RaceId, move: Move, now: int, tx: Tx)
    ensures var (db', reply) := Transition(cfg, db, id, move, now, tx);
            if tx.ReadFails? then db' == db && reply == StorageError
            else if id !in db.races then db' == db && reply == NotFound
            else
              match NextStatus(db.races[id].status, move)
              case None => db' == db && reply == InvalidState
              case Some(to) =>
                if tx.WriteFails? then db' == db && reply == StorageError
                else MovedTo(cfg, db, db', id, move, to, now) && reply == (if tx.Commits? then Done else StorageError)
  {
    if id in db.races {
      if NextStatus(db.races[id].status, move).None? { MoveRefused(db, id, move); } else { MoveLands(cfg, db, id, move, now); }
    }
  }

  /** Marking ready is that transaction and nothing more. */
  lemma ReadyOutcome(cfg: Config, s: Sys, id: RaceId, tx: Tx)
    ensures var o := MarkReadyRace(cfg, s, id, tx);
            (o.sys.db, o.reply) == Transition(cfg, s.db, id, MarkReady, s.clock, tx)
            && o.sys == s.(db := o.sys.db)
  {
  }

  // ----- start and resume

  /** Before a race starts or resumes, another race that is active and running is paused; no other row changes. */
  lemma OtherPaused(cfg: Config, s: Sys, id: RaceId)
    ensures var (db, reply) := PausedFirst(cfg, s, id, Commits);
            && !reply.StorageError? && db.races.Keys == s.db.races.Keys
            && db.laps == s.db.laps && db.identities == s.db.identities
            && (forall r <- s.db.races ::
                  && db.races[r].form == s.db.races[r].form
                  && (r == id || s.active != Some(r) || !s.db.races[r].status.Running? ==> db.races[r] == s.db.races[r])
                  && (r != id && s.active == Some(r) && s.db.races[r].status.Running? ==> db.races[r].status.Paused?))
  {
    if s.active.Some? && s.active.value != id { TransitionTable(cfg, s.db, s.active.value, Pause, s.clock, Commits); }
  }

  /** A start of a new race, or a resume of a paused one, that goes through makes it the active race; the one before is paused. */
  lemma ActivateOutcome(cfg: Config, s: Sys, id: RaceId, move: Move)
    requires id in s.db.races
    requires var now := s.db.races[id].status; (move.Start? && (now.Draft? || now.Ready?)) || (move.Resume? && now.Paused?)
    ensures var o := ActivateRace(cfg, s, id, move, Commits, Commits);
            && o.reply == Done && o.sys.active == Some(id)
            && id in o.sys.db.races && o.sys.db.races[id].status.Running?
            && o.sys.safety == s.safety && o.sys.db.laps == s.db.laps && o.sys.db.identities == s.db.identities
            && (forall r <- s.db.races :: r != id ==>
                  && r in o.sys.db.races && o.sys.db.races[r].form == s.db.races[r].form
                  && o.sys.db.races[r].status == if s.active == Some(r) && s.db.races[r].status.Running? then Paused else s.db.races[r].status)
  {
    var (db, paused) := PausedFirst(cfg, s, id, Commits);
    OtherPaused(cfg, s, id);
    TransitionTable(cfg, db, id, move, s.clock, Commits);
  }

  /** One that is refused answers so and moves neither the pointer nor that race. */
  lemma ActivateRefused(cfg: Config, s: Sys, id: RaceId, move: Move, tx: Tx)
    requires !tx.ReadFails? && (id in s.db.races ==> NextStatus(s.db.races[id].status, move).None?)
    ensures var o := ActivateRace(cfg, s, id, move, Commits, tx);
            && o.reply == (if id in s.db.races then InvalidState else NotFound) && o.sys.active == s.active
            && (id in s.db.races ==> id in o.sys.db.races && o.sys.db.races[id] == s.db.races[id])
  {
    var (db, paused) := PausedFirst(cfg, s, id, Commits);
    OtherPaused(cfg, s, id);
    TransitionTable(cfg, db, id, move, s.clock, tx);
  }

  /** A storage error while pausing the active race stops everything: the pointer and the other race stay as they are. */
  lemma ActivateStopped(cfg: Config, s: Sys, id: RaceId, move: Move, pauseTx: Tx, tx: Tx)
    requires s.active.Some? && s.active.value != id && s.active.value in s.db.races && s.db.races[s.active.value].status.Running?
    requires !pauseTx.Commits?
    ensures var o := ActivateRace(cfg, s, id, move, pauseTx, tx);
            o.reply == StorageError && o.sys.active == s.active
            && (id in s.db.races ==> id in o.sys.db.races && o.sys.db.races[id] == s.db.races[id])
  {
    TransitionTable(cfg, s.db, s.active.value, Pause, s.clock, pauseTx);
  }

  // ----- pause, finish, cancel

  /** A pause that goes through clears the pointer if it was at that race; the safety-car flag stays. */
  lemma PauseOutcome(cfg: Config, s: Sys, id: RaceId, tx: Tx)
    ensures var o := PauseRace(cfg, s, id, tx);
            && (o.sys.db, o.reply) == Transition(cfg, s.db, id, Pause, s.clock, tx)
            && o.sys.active == (if o.reply == Done && s.active == Some(id) then None else s.active)
            && o.sys.safety == s.safety
  {
  }

  /** Whether a race that is closed is reported on. */
  ghost predicate Reported(s: Sys, id: RaceId, move: Move, snapshotFails: bool) {
    !snapshotFails && (move.Finish? || exists l <- s.db.laps :: l.race == id)
  }

  /**
   * A finish or cancel that goes through clears the pointer and the cached flag of that race, and saves one
   * report - a finish always, a cancel for a race with laps - unless saving fails.
   */
  lemma CloseOutcome(cfg: Config, s: Sys, id: RaceId, move: Move, tx: Tx, snapshotFails: bool)
    requires id in s.db.races && tx.Commits?
    requires var now := s.db.races[id].status;
             (move.Finish? && (now.Running? || now.Paused?)) || (move.Cancel? && !now.Finished? && !now.Cancelled?)
    ensures var o := CloseRace(cfg, s, id, move, tx, snapshotFails);
            && o.reply == Done && o.sys.active == (if s.active == Some(id) then None else s.active)
            && id !in o.sys.safety && (forall r :: r != id ==> (r in o.sys.safety <==> r in s.safety))
            && (forall r <- o.sys.safety :: o.sys.safety[r] == s.safety[r])
            && MovedTo(cfg, s.db, o.sys.db.(reports := s.db.reports), id, move, if move.Finish? then Finished else Cancelled, s.clock)
            && if Reported(s, id, move, snapshotFails)
               then |o.sys.db.reports| == |s.db.reports| + 1 && o.sys.db.reports[..|s.db.reports|] == s.db.reports
                    && o.sys.db.reports[|s.db.reports|].race == id
               else o.sys.db.reports == s.db.reports
  {
    TransitionTable(cfg, s.db, id, move, s.clock, tx);
    HasLapsIff(s.db.laps, id);
  }

  lemma {:induction false} HasLapsIff(laps: seq<Lap>, id: RaceId)
    ensures RaceLaps(laps, id) != [] <==> exists l <- laps :: l.race == id
  {
    if RaceLaps(laps, id) != [] {
      FilterIn(laps, RaceLaps(laps, id)[0], (l: Lap) => l.race == id);
    }
    forall l | l in laps && l.race == id ensures RaceLaps(laps, id) != [] { FilterIn(laps, l, (x: Lap) => x.race == id); }
  }

  /** Any other closing answers what the transaction answers, and leaves pointer, flags and reports alone. */
  lemma CloseRefused(cfg: Config, s: Sys, id: RaceId, move: Move, tx: Tx, snapshotFails: bool)
    requires move.Finish? || move.Cancel?
    requires !tx.Commits? || id !in s.db.races || NextStatus(s.db.races[id].status, move).None?
    ensures var o := CloseRace(cfg, s, id, move, tx, snapshotFails);
            && (o.sys.db, o.reply) == Transition(cfg, s.db, id, move, s.clock, tx)
            && o.reply != Done && o.sys == s.(db := o.sys.db)
  {
    TransitionTable(cfg, s.db, id, move, s.clock, tx);
  }

  // ----- create, edit, delete

  /** A creation that lands adds one race, in the configured status, without stamps, and nothing else. */
  lemma CreateOutcome(cfg: Config, s: Sys, id: RaceId, form: Form, tx: Tx)
    ensures var o := CreateRace(cfg, s, id, form, tx);
            if id !in s.db.races && (tx.Commits? || tx.ReadBackFails?) then
              && o.sys == s.(db := s.db.(races := s.db.races[id := Race(form, cfg.defaultStatus, None, None)]))
              && o.reply == (if tx.Commits? then Done else StorageError)
            else o.sys == s && o.reply == StorageError
  {
  }

  /** Draft and ready races can be edited, others only if configured; an edit changes the form and nothing else. */
  lemma UpdateOutcome(cfg: Config, s: Sys, id: RaceId, form: Form, tx: Tx)
    requires id in s.db.races && !tx.ReadFails?
    ensures var o, race := UpdateRace(cfg, s, id, form, tx), s.db.races[id];
            if !(race.status.Draft? || race.status.Ready? || cfg.allowEditRunning) then o.sys == s && o.reply == NotEditable
            else if tx.WriteFails? then o.sys == s && o.reply == StorageError
            else
              && o.sys == s.(db := s.db.(races := s.db.races[id := Race(form, race.status, race.startedAt, race.finishedAt)]))
              && o.reply == (if tx.Commits? then Done else StorageError)
  {
  }

  /** A race that is not running can be deleted: it and all its rows go, the pointer with them, and no other race's row. */
  lemma DeleteOutcome(s: Sys, id: RaceId, fails: bool)
    ensures var o := DeleteRace(s, id, fails);
            if id !in s.db.races then o.sys == s && o.reply == NotFound
            else if s.db.races[id].status.Running? then o.sys == s && o.reply == InvalidState
            else if fails then o.sys == s && o.reply == StorageError
            else
              && o.reply == Done && o.sys.active == (if s.active == Some(id) then None else s.active)
              && id !in o.sys.db.races && (forall r <- s.db.races :: r != id ==> r in o.sys.db.races && o.sys.db.races[r] == s.db.races[r])
              && (forall k <- o.sys.db.checkpoints :: k.0 != id)
              && (forall k <- s.db.checkpoints :: k.0 != id ==> k in o.sys.db.checkpoints && o.sys.db.checkpoints[k] == s.db.checkpoints[k])
  {
  }

  /** ... and row by row. */
  lemma DeletedRows(s: Sys, id: RaceId)
    requires id in s.db.races && !s.db.races[id].status.Running?
    ensures var db' := DeleteRace(s, id, false).sys.db;
            && (forall l :: l in db'.laps <==> l in s.db.laps && l.race != id)
            && (forall i :: i in db'.identities <==> i in s.db.identities && i.race != id)
            && (forall e :: e in db'.events <==> e in s.db.events && e.race != id)
            && (forall r :: r in db'.reports <==> r in s.db.reports && r.race != id)
  {
    var db' := DeleteRace(s, id, false).sys.db;
    forall l ensures l in db'.laps <==> l in s.db.laps && l.race != id { FilterIn(s.db.laps, l, (x: Lap) => x.race != id); }
    forall i ensures i in db'.identities <==> i in s.db.identities && i.race != id {
      FilterIn(s.db.identities, i, (x: Identity) => x.race != id);
    }
    forall e ensures e in db'.events <==> e in s.db.events && e.race != id { FilterIn(s.db.events, e, (x: RaceEvent) => x.race != id); }
    forall r ensures r in db'.reports <==> r in s.db.reports && r.race != id { FilterIn(s.db.reports, r, (x: Report) => x.race != id); }
  }

  // ----- the safety car and other events

  /** What a request to set the flag answers. */
  lemma SetSafetyAnswers(s: Sys, id: RaceId, on: bool, fails: bool)
    ensures var o := SetSafety(s, id, on, false, fails);
            if id !in s.db.races then o.sys == s && o.reply == NotFound
            else if !(s.db.races[id].status.Running? || s.db.races[id].status.Paused?) then o.sys == s && o.reply == InvalidState
            else
              var current := ReadSafety(s, id, false).1;
              && o.reply == (if current != on && fails then StorageError else Done)
              && (current != on && !fails ==>
                    && o.sys.db == s.db.(events := s.db.events + [RaceEvent(id, s.clock, if on then SafetyCarStarted else SafetyCarEnded, None)])
                    && ReadSafety(o.sys, id, false).1 == on)
              && (current == on || fails ==> o.sys.db == s.db)
  {
  }

  /** Reading the flag of a race that is neither running nor paused answers no and forgets what was cached. */
  lemma IdleRaceHasNoFlag(s: Sys, id: RaceId)
    requires id in s.db.races ==> !(s.db.races[id].status.Running? || s.db.races[id].status.Paused?)
    ensures !ReadSafety(s, id, false).1 && id !in ReadSafety(s, id, false).0.safety
  {
  }

  /** Reading the flag of a running or paused race answers from the cache, or else from the log, and leaves the answer cached. */
  lemma ReadIsCached(s: Sys, id: RaceId)
    requires id in s.db.races && (s.db.races[id].status.Running? || s.db.races[id].status.Paused?)
    ensures var (s', answer) := ReadSafety(s, id, false);
            && s' == s.(safety := s.safety[id := answer])
            && answer == if id in s.safety then s.safety[id] else SafetyFromLog(s.db, id)
    ensures ReadSafety(s, id, true) == (s, false)
  {
    if id in s.safety { assert s.safety[id := s.safety[id]] == s.safety; }
  }

  lemma {:induction false} NewestIsMember(log: seq<RaceEvent>)
    ensures if |log| == 0 then Newest(log).None? else Newest(log).Some? && Newest(log).value in log
  {
    if |log| > 0 { NewestIsMember(log[..|log| - 1]); }
  }

  /** The log is read by the event of the greatest time, and of several with that time by the last row. */
  lemma {:induction false} NewestTells(log: seq<RaceEvent>, i: nat)
    requires i < |log| && forall j :: 0 <= j < |log| ==> log[j].at <= log[i].at && (j > i ==> log[j].at < log[i].at)
    ensures Newest(log) == Some(log[i])
  {
    var init := log[..|log| - 1];
    NewestIsMember(init);
    if i < |init| {
      assert forall j :: 0 <= j < |init| ==> init[j] == log[j];
      NewestTells(init, i);
    }
  }

  /** The number a stored lap gets, in any tables: one more than its checkpoint says, or than its rows if it has none. */
  lemma NextNumber(cfg: Config, now: int, db: Tables, w: Write)
    requires w.StoreLap? && Legal(cfg, now, db, w)
    ensures var db', key := Apply(db, w), (w.id, w.car);
            var number := (if key in db.checkpoints then db.checkpoints[key].lapCount else |LapsOf(db.laps, w.id, w.car)|) + 1;
            && db'.laps == db.laps + [Lap(w.id, w.car, db.races[w.id].form.roster[w.car], number, w.timeMs, w.at)]
            && db'.checkpoints == db.checkpoints[key := Checkpoint(w.cuMs, number)]
            && db'.identities == db.identities + [Identity(w.id, w.car, w.cuMs)]
            && db'.races == db.races && db'.events == db.events && db'.reports == db.reports
  {
  }

  /** A telemetry event is logged, once and with its own stamp and car, exactly while the active race is running or paused. */
  lemma EventOutcome(cfg: Config, s: Sys, e: Event, fails: bool)
    ensures var s' := RecordEvent(cfg, s, e, fails);
            if cfg.persistEvents && !fails && s.active.Some? && s.active.value in s.db.races
               && (s.db.races[s.active.value].status.Running? || s.db.races[s.active.value].status.Paused?)
               && (e.car.Some? ==> 1 <= e.car.value <= 6)
            then s' == s.(db := s.db.(events := s.db.events + [RaceEvent(s.active.value, e.at, Telemetered, e.car)]))
            else s' == s
  {
  }
}
