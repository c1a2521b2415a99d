/** What holds over whole runs of the race service, in memory and on disk. */
module RaceRuns {
  import opened Base
  import opened Telemetry
  import opened RaceTables
  import opened Reporting
  import opened RaceRules
  import opened RaceInvariants

  // ----- a running race is the active one

  ghost predicate RunningIsActive(s: Sys) {
    forall id <- s.db.races :: s.db.races[id].status.Running? ==> s.active == Some(id)
  }

  ghost predicate OneRunning(db: Tables) {
    forall a <- db.races, b <- db.races :: db.races[a].status.Running? && db.races[b].status.Running? ==> a == b
  }

  /**
   * The auto-pause of the active race lets a start or resume of `id` go on: it can read the database, and
   * if that race is running it commits and reads it back. A race not running, or gone, is no obstacle.
   */
  predicate PausePasses(s: Sys, id: RaceId, pauseTx: Tx) {
    s.active.Some? && s.active.value != id ==>
      && !pauseTx.ReadFails?
      && (s.active.value in s.db.races && s.db.races[s.active.value].status.Running? ==> pauseTx.Commits?)
  }

  predicate Admits(db: Tables, id: RaceId, move: Move) { id in db.races && Allowed(move, db.races[id].status) }

  /** Recovery gets every running race reattached (or paused) before storage fails it. */
  predicate Recovers(cfg: Config, txs: seq<Tx>) {
    Head(txs).Commits? && (!cfg.recoverRunning ==> Head(Tail(txs)).Lands())
  }

  /** Exactly the operations that can leave a race running without being the active one. */
  ghost predicate LosesPointer(cfg: Config, s: Sys, op: Op) {
    match op
    case DoStart(id, pauseTx, tx) =>
      tx.ReadBackFails? && s.active != Some(id) && Admits(s.db, id, Start) && PausePasses(s, id, pauseTx)
    case DoResume(id, pauseTx, tx) =>
      tx.ReadBackFails? && s.active != Some(id) && Admits(s.db, id, Resume) && PausePasses(s, id, pauseTx)
    case DoRestart(txs) => RunningIds(s.db) != {} && !Recovers(cfg, txs)
    case Create(id, _, tx) => cfg.defaultStatus.Running? && tx.Lands() && id !in s.db.races && s.active != Some(id)
    case _ => false
  }

  lemma OneRunningIsListed(db: Tables, id: RaceId)
    requires id in db.races && db.races[id].status.Running?
    requires forall r <- db.races :: db.races[r].status.Running? ==> r == id
    ensures Listed(db) == [id]
  {
    assert RunningIds(db) == {id};
    assert Maximum({id}) == id;
    assert {id} - {id} == {};
    assert NewestFirst({id}) == [id] + NewestFirst({});
  }

  /** With at most one race running, a crash's pointer is re-established under both settings, unless storage interrupts it. */
  lemma RestartPointer(cfg: Config, s: Sys, txs: seq<Tx>)
    requires OneRunning(s.db)
    ensures RunningIsActive(Restart(cfg, s, txs)) <==> (RunningIds(s.db) != {} ==> Recovers(cfg, txs))
  {
    if r :| r in s.db.races && s.db.races[r].status.Running? {
      OneRunningIsListed(s.db, r);
      assert r in RunningIds(s.db);
      var s0 := Crashed(s);
      var s1 := s0.(db := Apply(s0.db, SeedCars(r)));
      assert [r][1..] == [];
      if !Head(txs).Lands() {
        assert Restart(cfg, s, txs) == s0;
      } else if Head(txs).ReadBackFails? {
        assert Restart(cfg, s, txs) == s1;
      } else if cfg.recoverRunning {
        assert Recover(cfg, s1.(active := Some(r)), [], Tail(txs)) == s1.(active := Some(r));
        assert Restart(cfg, s, txs) == s1.(active := Some(r));
      } else {
        var p := PauseRace(cfg, s1, r, Head(Tail(txs)));
        assert Recover(cfg, p.sys, [], Tail(Tail(txs))) == p.sys;
        assert Restart(cfg, s, txs) == p.sys;
      }
    } else {
      assert RunningIds(s.db) == {};
      assert Restart(cfg, s, txs) == Crashed(s);
    }
  }

  /** Every operation keeps "running implies active", except exactly those that lose the pointer. */
  lemma RunningIsActiveStep(cfg: Config, s: Sys, op: Op)
    requires RunningIsActive(s)
    ensures RunningIsActive(Step(cfg, s, op)) <==> !LosesPointer(cfg, s, op)
  {
    match op
    case DoRestart(txs) => RestartPointer(cfg, s, txs);
    case DoStart(id, pauseTx, tx) => ActivatePointer(cfg, s, id, Start, pauseTx, tx);
    case DoResume(id, pauseTx, tx) => ActivatePointer(cfg, s, id, Resume, pauseTx, tx);
    case DoLap(e, fault, finishTx, snapshotFails) => LapPointer(cfg, s, op);
    case DoFinish(id, tx, snapshotFails) => ClosePointer(cfg, s, id, Finish, tx, snapshotFails);
    case DoCancel(id, tx, snapshotFails) => ClosePointer(cfg, s, id, Cancel, tx, snapshotFails);
    case DoTick(tx, snapshotFails) =>
      if TimeIsUp(s) { ClosePointer(cfg, s, s.active.value, Finish, tx, snapshotFails); }
    case Create(id, form, tx) => CreatePointer(cfg, s, id, form, tx);
    case Update(id, form, tx) => UpdatePointer(cfg, s, id, form, tx);
    case Delete(id, fails) => DeletePointer(s, id, fails);
    case DoMarkReady(id, tx) => SimplePointer(cfg, s, id, tx);
    case DoPause(id, tx) => SimplePointer(cfg, s, id, tx);
    case DoSetSafety(id, on, readFails, fails) => SetSafetyPointer(s, id, on, readFails, fails);
    case _ => IdlePointer(cfg, s, op);
  }

  lemma IdlePointer(cfg: Config, s: Sys, op: Op)
    requires RunningIsActive(s) && (op.DoReadSafety? || op.DoEvent? || op.Wait?)
    ensures RunningIsActive(Step(cfg, s, op))
  {
    match op
    case DoReadSafety(id, readFails) => ReadKeepsDb(s, id, readFails);
    case DoEvent(e, fails) => EventKeepsRaces(cfg, s, e, fails);
    case Wait(ms) =>
  }

  lemma ReadKeepsDb(s: Sys, id: RaceId, readFails: bool)
    ensures ReadSafety(s, id, readFails).0.db == s.db && ReadSafety(s, id, readFails).0.active == s.active
  {
  }

  lemma EventKeepsRaces(cfg: Config, s: Sys, e: Event, fails: bool)
    ensures RecordEvent(cfg, s, e, fails).db.races == s.db.races && RecordEvent(cfg, s, e, fails).active == s.active
  {
  }

  lemma UpdatePointer(cfg: Config, s: Sys, id: RaceId, form: Form, tx: Tx)
    requires RunningIsActive(s)
    ensures RunningIsActive(UpdateRace(cfg, s, id, form, tx).sys)
  {
  }

  lemma DeletePointer(s: Sys, id: RaceId, fails: bool)
    requires RunningIsActive(s)
    ensures RunningIsActive(DeleteRace(s, id, fails).sys)
  {
  }

  lemma SimplePointer(cfg: Config, s: Sys, id: RaceId, tx: Tx)
    requires RunningIsActive(s)
    ensures RunningIsActive(MarkReadyRace(cfg, s, id, tx).sys) && RunningIsActive(PauseRace(cfg, s, id, tx).sys)
  {
  }

  lemma SetSafetyPointer(s: Sys, id: RaceId, on: bool, readFails: bool, fails: bool)
    requires RunningIsActive(s)
    ensures RunningIsActive(SetSafety(s, id, on, readFails, fails).sys)
  {
  }

  lemma LapPointer(cfg: Config, s: Sys, op: Op)
    requires RunningIsActive(s) && op.DoLap?
    ensures RunningIsActive(Step(cfg, s, op))
  {
    if op.fault.NoFault? && LapAccepted(s, op.event) {
      ClosePointer(cfg, LapStored(s, op.event), s.active.value, Finish, op.finishTx, op.snapshotFails);
    }
  }

  lemma CreatePointer(cfg: Config, s: Sys, id: RaceId, form: Form, tx: Tx)
    requires RunningIsActive(s)
    ensures RunningIsActive(CreateRace(cfg, s, id, form, tx).sys) <==> !LosesPointer(cfg, s, Create(id, form, tx))
  {
    var s' := CreateRace(cfg, s, id, form, tx).sys;
    if LosesPointer(cfg, s, Create(id, form, tx)) { assert id in s'.db.races && s'.db.races[id].status.Running?; }
  }

  lemma NothingElseRuns(cfg: Config, s: Sys, id: RaceId, pauseTx: Tx)
    requires RunningIsActive(s) && s.active.Some? && s.active.value != id && PausePasses(s, id, pauseTx)
    ensures var db := Transition(cfg, s.db, s.active.value, Pause, s.clock, pauseTx).0;
            && (forall r <- db.races :: !db.races[r].status.Running?)
            && (id in db.races <==> id in s.db.races) && (id in db.races ==> db.races[id] == s.db.races[id])
  {
  }

  lemma MoveIntoRunning(cfg: Config, s: Sys, db: Tables, id: RaceId, move: Move, tx: Tx)
    requires move.Start? || move.Resume?
    requires forall r <- db.races :: db.races[r].status.Running? ==> r == id && s.active == Some(id)
    ensures var moved := Transition(cfg, db, id, move, s.clock, tx);
            (RunningIsActive(s.(db := moved.0, active := if moved.1.Done? then Some(id) else s.active))
             <==> !(tx.ReadBackFails? && s.active != Some(id) && Admits(db, id, move)))
  {
    if tx.ReadBackFails? && s.active != Some(id) && Admits(db, id, move) {
      var db' := Transition(cfg, db, id, move, s.clock, tx).0;
      assert id in db'.races && db'.races[id].status.Running?;
    }
  }

  lemma ActivatePointer(cfg: Config, s: Sys, id: RaceId, move: Move, pauseTx: Tx, tx: Tx)
    requires RunningIsActive(s) && (move.Start? || move.Resume?)
    ensures RunningIsActive(ActivateRace(cfg, s, id, move, pauseTx, tx).sys)
       <==> !(tx.ReadBackFails? && s.active != Some(id) && Admits(s.db, id, move) && PausePasses(s, id, pauseTx))
  {
    if s.active.None? || s.active.value == id {
      MoveIntoRunning(cfg, s, s.db, id, move, tx);
    } else if PausePasses(s, id, pauseTx) {
      ActivateAfterPause(cfg, s, id, move, pauseTx, tx);
    } else {
      FailedPauseKeepsPointer(cfg, s, pauseTx);
    }
  }

  lemma ActivateAfterPause(cfg: Config, s: Sys, id: RaceId, move: Move, pauseTx: Tx, tx: Tx)
    requires RunningIsActive(s) && (move.Start? || move.Resume?) && s.active.Some? && s.active.value != id && PausePasses(s, id, pauseTx)
    ensures RunningIsActive(ActivateRace(cfg, s, id, move, pauseTx, tx).sys)
       <==> !(tx.ReadBackFails? && s.active != Some(id) && Admits(s.db, id, move))
  {
    NothingElseRuns(cfg, s, id, pauseTx);
    MoveIntoRunning(cfg, s, Transition(cfg, s.db, s.active.value, Pause, s.clock, pauseTx).0, id, move, tx);
  }

  lemma FailedPauseKeepsPointer(cfg: Config, s: Sys, pauseTx: Tx)
    requires RunningIsActive(s) && s.active.Some?
    ensures RunningIsActive(s.(db := Transition(cfg, s.db, s.active.value, Pause, s.clock, pauseTx).0))
  {
  }

  lemma TransitionShape(cfg: Config, db: Tables, id: RaceId, move: Move, now: int, tx: Tx)
    ensures var (db', reply) := Transition(cfg, db, id, move, now, tx);
            || (db' == db && !reply.Done?)
            || (id in db.races && tx.Lands()
                && db' == db.(races := db.races[id := Moved(db.races[id], move, now)], events := db'.events))
  {
  }

  lemma SnapshotShape(s: Sys, id: RaceId, fails: bool)
    ensures var s' := Snapshot(s, id, fails); s' == s.(db := s.db.(reports := s'.db.reports))
  {
  }

  /** Finishing or cancelling moves that race or none, and leaves laps, identities and every other race alone. */
  lemma CloseShape(cfg: Config, s: Sys, id: RaceId, move: Move, tx: Tx, snapshotFails: bool)
    ensures var s' := CloseRace(cfg, s, id, move, tx, snapshotFails).sys;
            && s'.db.laps == s.db.laps && s'.db.identities == s.db.identities
            && (|| (s'.db == s.db && s'.active == s.active)
                || (id in s.db.races && tx.Lands() && s'.db.races == s.db.races[id := Moved(s.db.races[id], move, s.clock)]
                    && (s'.active == s.active || s'.active == Unless(s.active, id))))
  {
    var (db, reply) := Transition(cfg, s.db, id, move, s.clock, tx);
    TransitionShape(cfg, s.db, id, move, s.clock, tx);
    if reply.Done? { SnapshotShape(s.(db := db, active := Unless(s.active, id), safety := s.safety - {id}), id, snapshotFails); }
  }

  lemma ClosePointer(cfg: Config, s: Sys, id: RaceId, move: Move, tx: Tx, snapshotFails: bool)
    requires RunningIsActive(s) && (move.Finish? || move.Cancel?)
    ensures RunningIsActive(CloseRace(cfg, s, id, move, tx, snapshotFails).sys)
  {
    CloseShape(cfg, s, id, move, tx, snapshotFails);
  }

  /** No operation of the run lost the pointer when it was performed. */
  ghost predicate NeverLosesPointer(cfg: Config, ops: seq<Op>) {
    forall i :: 0 <= i < |ops| ==> !LosesPointer(cfg, Run(cfg, INITIAL, ops[..i]), ops[i])
  }

  /** In every such run at most one race is running, and it is the one ingest writes to. */
  lemma {:induction false} AtMostOneRunning(cfg: Config, ops: seq<Op>)
    requires NeverLosesPointer(cfg, ops)
    ensures RunningIsActive(Run(cfg, INITIAL, ops))
    ensures forall a, b :: a in RunningIds(Run(cfg, INITIAL, ops).db) && b in RunningIds(Run(cfg, INITIAL, ops).db) ==> a == b
  {
    if |ops| > 0 {
      var k := |ops| - 1;
      forall i | 0 <= i < k ensures !LosesPointer(cfg, Run(cfg, INITIAL, ops[..k][..i]), ops[..k][i]) {
        assert ops[..k][..i] == ops[..i];
      }
      AtMostOneRunning(cfg, ops[..k]);
      RunningIsActiveStep(cfg, Run(cfg, INITIAL, ops[..k]), ops[k]);
    }
  }

  /** The converse fails without any fault: a failed start leaves the auto-paused race active. */
  lemma ActiveMayBePaused(cfg: Config, form: Form)
    requires cfg.defaultStatus.Draft?
    ensures var ops := [Create(1, form, Commits), DoStart(1, Commits, Commits), DoStart(2, Commits, Commits)];
            var s := Run(cfg, INITIAL, ops);
            NeverLosesPointer(cfg, ops) && s.active == Some(1) && 1 in s.db.races && s.db.races[1].status.Paused?
  {
    var ops := [Create(1, form, Commits), DoStart(1, Commits, Commits), DoStart(2, Commits, Commits)];
    RunOfThree(cfg, ops[0], ops[1], ops[2]);
  }

  lemma RunSnoc(cfg: Config, s: Sys, ops: seq<Op>, op: Op)
    ensures Run(cfg, s, ops + [op]) == Step(cfg, Run(cfg, s, ops), op)
  {
    assert (ops + [op])[..|ops|] == ops;
  }

  lemma RunOfThree(cfg: Config, a: Op, b: Op, c: Op)
    ensures Run(cfg, INITIAL, [a, b, c]) == Step(cfg, Step(cfg, Step(cfg, INITIAL, a), b), c)
    ensures Run(cfg, INITIAL, [a, b, c][..0]) == INITIAL
    ensures Run(cfg, INITIAL, [a, b, c][..1]) == Step(cfg, INITIAL, a)
    ensures Run(cfg, INITIAL, [a, b, c][..2]) == Step(cfg, Step(cfg, INITIAL, a), b)
  {
    RunSnoc(cfg, INITIAL, [], a);
    RunSnoc(cfg, INITIAL, [a], b);
    RunSnoc(cfg, INITIAL, [a, b], c);
    assert [] + [a] == [a] && [a] + [b] == [a, b] && [a, b] + [c] == [a, b, c];
    assert [a, b, c][..1] == [a] && [a, b, c][..2] == [a, b];
  }

  /** A start whose row cannot be read back after the commit leaves a running race that ingest does not see. */
  lemma StartCanLosePointer(cfg: Config, form: Form)
    requires cfg.defaultStatus.Draft?
    ensures var s := Run(cfg, INITIAL, [Create(1, form, Commits), DoStart(1, Commits, ReadBackFails), Wait(0)]);
            1 in s.db.races && s.db.races[1].status.Running? && s.active == None
  {
    RunOfThree(cfg, Create(1, form, Commits), DoStart(1, Commits, ReadBackFails), Wait(0));
  }

  // ----- how a race row may change over time

  /** Terminal states are absorbing and timestamps are written once. */
  ghost predicate Follows(a: Race, b: Race) {
    && (a.startedAt.Some? ==> b.startedAt == a.startedAt)
    && (a.finishedAt.Some? ==> b.finishedAt == a.finishedAt)
    && (a.status.Terminal() ==> b.status == a.status && b.startedAt == a.startedAt)
  }

  lemma {:induction false} WritesFollow(cfg: Config, now: int, db: Tables, ws: seq<Write>, id: RaceId)
    requires LegalAll(cfg, now, db, ws) && (forall w <- ws :: !w.DropRace?) && id in db.races
    ensures var db' := ApplyAll(cfg, now, db, ws);
            && id in db'.races && Follows(db.races[id], db'.races[id])
            && (db.races[id].status.Terminal() && !cfg.allowEditRunning && db.races[id].finishedAt.Some? ==>
                  db'.races[id] == db.races[id] && RaceLaps(db'.laps, id) == RaceLaps(db.laps, id))
            && (forall r <- db.reports :: r in db'.reports)
    decreases |ws|
  {
    if |ws| > 0 {
      assert !ws[0].DropRace?;
      RaceRowsKept(cfg, now, db, ws[0], id);
      WritesFollow(cfg, now, Apply(db, ws[0]), ws[1..], id);
    }
  }

  ghost predicate NeverDeletes(ops: seq<Op>, id: RaceId) {
    forall i :: 0 <= i < |ops| ==> !(ops[i].Delete? && ops[i].id == id)
  }

  lemma StepFollows(cfg: Config, s: Sys, op: Op, id: RaceId)
    requires id in s.db.races && !(op.Delete? && op.id == id)
    ensures var s' := Step(cfg, s, op);
            && id in s'.db.races && Follows(s.db.races[id], s'.db.races[id])
            && (s.db.races[id].status.Terminal() && !cfg.allowEditRunning && s.db.races[id].finishedAt.Some? ==>
                  s'.db.races[id] == s.db.races[id] && RaceLaps(s'.db.laps, id) == RaceLaps(s.db.laps, id))
            && (forall r <- s.db.reports :: r.race == id ==> r in s'.db.reports)
  {
    if op.Delete? {
      DeleteFollows(s, op.id, op.fails, id);
    } else {
      StepWrites(cfg, s, op);
      WritesByKind(cfg, s, op);
      WritesFollow(cfg, s.clock, s.db, Writes(cfg, s, op), id);
    }
  }

  lemma DeleteFollows(s: Sys, gone: RaceId, fails: bool, id: RaceId)
    requires id in s.db.races && gone != id
    ensures var db' := DeleteRace(s, gone, fails).sys.db;
            && id in db'.races && db'.races[id] == s.db.races[id] && RaceLaps(db'.laps, id) == RaceLaps(s.db.laps, id)
            && (forall r <- s.db.reports :: r.race == id ==> r in db'.reports)
  {
    var db' := DeleteRace(s, gone, fails).sys.db;
    if db' != s.db {
      WithoutRace(s.db, gone, id, 0);
      forall r | r in s.db.reports && r.race == id ensures r in db'.reports {
        FilterIn(s.db.reports, r, (x: Report) => x.race != gone);
      }
    }
  }

  /** Until it is deleted, a race never leaves a terminal state and never rewrites a timestamp. */
  lemma {:induction false} RunFollows(cfg: Config, s: Sys, ops: seq<Op>, id: RaceId)
    requires id in s.db.races && NeverDeletes(ops, id)
    ensures id in Run(cfg, s, ops).db.races && Follows(s.db.races[id], Run(cfg, s, ops).db.races[id])
  {
    if |ops| > 0 {
      RunFollows(cfg, s, ops[..|ops| - 1], id);
      StepFollows(cfg, Run(cfg, s, ops[..|ops| - 1]), ops[|ops| - 1], id);
    }
  }

  /**
   * Once a race is finished or cancelled, a summary of it taken at any later moment of any run that
   * does not delete it is the summary taken now; in particular a saved report stays true and stays saved.
   */
  lemma {:induction false} SummaryIsFrozen(cfg: Config, s: Sys, ops: seq<Op>, id: RaceId, t: int, t': int)
    requires !cfg.allowEditRunning && id in s.db.races && NeverDeletes(ops, id)
    requires s.db.races[id].status.Terminal() && s.db.races[id].finishedAt.Some?
    ensures var s' := Run(cfg, s, ops);
            && id in s'.db.races && s'.db.races[id] == s.db.races[id]
            && SummaryOf(s'.db.races[id], RaceLaps(s'.db.laps, id), t') == SummaryOf(s.db.races[id], RaceLaps(s.db.laps, id), t)
            && (forall r <- s.db.reports :: r.race == id ==> r in s'.db.reports)
  {
    if |ops| > 0 {
      SummaryIsFrozen(cfg, s, ops[..|ops| - 1], id, t, t');
      StepFollows(cfg, Run(cfg, s, ops[..|ops| - 1]), ops[|ops| - 1], id);
    }
  }

  /** A finish that succeeds saves the report that SummaryIsFrozen speaks about. */
  lemma FinishSavesSummary(cfg: Config, s: Sys, id: RaceId, t: int)
    requires CloseRace(cfg, s, id, Finish, Commits, false).reply.Done?
    ensures var s' := CloseRace(cfg, s, id, Finish, Commits, false).sys;
            && id in s'.db.races && s'.db.races[id].status.Finished? && s'.db.races[id].finishedAt.Some?
            && Report(id, SummaryOf(s'.db.races[id], RaceLaps(s'.db.laps, id), t)) in s'.db.reports
  {
  }

  /** With editing of started races configured on, an edit of the race keeps a saved report true only if it changes nothing. */
  lemma EditedReportsGoStale(cfg: Config, s: Sys, r: Report, form: Form)
    requires cfg.allowEditRunning && r in s.db.reports && ReportHolds(s.db, r)
    ensures var s' := Step(cfg, s, Update(r.race, form, Commits));
            && r in s'.db.reports
            && (ReportHolds(s'.db, r) <==> form == s.db.races[r.race].form)
  {
    var race := s.db.races[r.race];
    if form == race.form { assert s.db.races[r.race := race.(form := form)] == s.db.races; }
  }

  // ----- the lap target

  ghost predicate UnderTarget(db: Tables, id: RaceId, slack: int)
    requires id in db.races
  {
    var race := db.races[id];
    race.form.mode.FixedLaps? ==>
      forall car: int :: |LapsOf(db.laps, id, car)| <= race.form.lapTarget.value + slack - (if race.status.Terminal() then 0 else 1)
  }

  /** A race that does not exist is under any target. */
  ghost predicate Bounded(db: Tables, id: RaceId, slack: int) { id in db.races ==> UnderTarget(db, id, slack) }

  /** The lap reached the target but the finish did not get committed (storage failure, or a crash in between). */
  ghost predicate Slips(cfg: Config, s: Sys, op: Op) {
    && op.DoLap? && op.fault.NoFault? && LapAccepted(s, op.event)
    && TargetReached(LapStored(s, op.event).db, s.active.value)
    && !op.finishTx.Lands()
  }

  /** The slips of race `id` since it was created. */
  ghost function SlipCount(cfg: Config, ops: seq<Op>, id: RaceId): nat {
    if |ops| == 0 || id !in Run(cfg, INITIAL, ops).db.races then 0
    else
      var before := ops[..|ops| - 1];
      var s := Run(cfg, INITIAL, before);
      SlipCount(cfg, before, id) + (if Slips(cfg, s, ops[|ops| - 1]) && s.active == Some(id) then 1 else 0)
  }

  lemma CalmWriteKeepsTarget(cfg: Config, now: int, db: Tables, w: Write, id: RaceId, slack: nat)
    requires Legal(cfg, now, db, w) && Calm([w]) && !cfg.allowEditRunning
    requires NoOrphans(db) && Rosters(db) && Bounded(db, id, slack)
    ensures Bounded(Apply(db, w), id, slack)
  {
    assert w in [w];
    CountsKeptByOthers(cfg, now, db, w, id);
    if id !in db.races {
      OrphanHasNoLaps(db, id);
    } else if w.EditRace? && w.id == id {
      UnstartedHasNoLaps(db, id);
    }
  }

  lemma {:induction false} CalmKeepsTarget(cfg: Config, now: int, db: Tables, ws: seq<Write>, id: RaceId, slack: nat)
    requires LegalAll(cfg, now, db, ws) && Calm(ws) && !cfg.allowEditRunning
    requires NoOrphans(db) && SafetyInOrder(db, now) && Rosters(db) && Bounded(db, id, slack)
    ensures Bounded(ApplyAll(cfg, now, db, ws), id, slack)
    decreases |ws|
  {
    if |ws| > 0 {
      assert ws[0] in ws && (forall w <- ws[1..] :: w in ws);
      CalmWriteKeepsTarget(cfg, now, db, ws[0], id, slack);
      OrphansAndOrderKept(cfg, now, db, ws[0]);
      RostersKept(cfg, now, db, ws[0]);
      CalmKeepsTarget(cfg, now, Apply(db, ws[0]), ws[1..], id, slack);
    }
  }

  lemma CountsKeptByOthers(cfg: Config, now: int, db: Tables, w: Write, id: RaceId)
    requires Legal(cfg, now, db, w) && !w.StoreLap? && !w.DropRace?
    ensures forall car: int :: LapsOf(Apply(db, w).laps, id, car) == LapsOf(db.laps, id, car)
  {
    forall car: int ensures LapsOf(Apply(db, w).laps, id, car) == LapsOf(db.laps, id, car) {
      RowsKept(cfg, now, db, w, id, car);
    }
  }

  lemma UnstartedHasNoLaps(db: Tables, id: RaceId)
    requires Rosters(db) && id in db.races && db.races[id].status.Unstarted()
    ensures forall car: int :: LapsOf(db.laps, id, car) == []
  {
    assert RaceRoster(db, id);
    forall car: int ensures LapsOf(db.laps, id, car) == [] { assert LapsOf(db.laps, id, car) == CarLaps([], car); }
  }

  lemma OrphanHasNoLaps(db: Tables, id: RaceId)
    requires NoOrphans(db) && id !in db.races
    ensures forall car: int :: LapsOf(db.laps, id, car) == []
  {
    forall car: int ensures LapsOf(db.laps, id, car) == [] { assert LapsOf(db.laps, id, car) == CarLaps([], car); }
  }

  /** The lap transaction adds one lap to one car of one race; who is still under the target is the leader check. */
  lemma LapUnderTarget(cfg: Config, s: Sys, e: Event, id: RaceId, slack: nat)
    requires LapAccepted(s, e) && Bounded(s.db, id, slack)
    ensures Bounded(LapStored(s, e).db, id, slack + 1)
    ensures id != s.active.value || !TargetReached(LapStored(s, e).db, id) ==> Bounded(LapStored(s, e).db, id, slack)
  {
    var w := StoreLap(s.active.value, e.car.value, e.payload.timeMs, CrossingMs(e), e.at);
    var db' := LapStored(s, e).db;
    forall car: int
      ensures |LapsOf(db'.laps, id, car)| <= |LapsOf(s.db.laps, id, car)| + (if id == w.id then 1 else 0)
    {
      RowsKept(cfg, s.clock, s.db, w, id, car);
    }
  }

  /** A finish that lands turns one lap over the limit into the leader's last. */
  lemma FinishAtTarget(cfg: Config, s: Sys, id: RaceId, slack: nat, snapshotFails: bool, tx: Tx)
    requires Bounded(s.db, id, slack + 1) && id in s.db.races && s.db.races[id].status.Running? && tx.Lands()
    ensures Bounded(CloseRace(cfg, s, id, Finish, tx, snapshotFails).sys.db, id, slack)
  {
    CloseShape(cfg, s, id, Finish, tx, snapshotFails);
    FinishTakesEffect(cfg, s, id, snapshotFails, tx);
  }

  lemma FinishTakesEffect(cfg: Config, s: Sys, id: RaceId, snapshotFails: bool, tx: Tx)
    requires id in s.db.races && s.db.races[id].status.Running? && tx.Lands()
    ensures var db' := CloseRace(cfg, s, id, Finish, tx, snapshotFails).sys.db; id in db'.races && db'.races[id].status.Finished?
  {
  }

  lemma OtherFinishKeepsTarget(cfg: Config, s: Sys, id: RaceId, other: RaceId, slack: nat, snapshotFails: bool, tx: Tx)
    requires Bounded(s.db, other, slack) && (other != id || !tx.Lands())
    ensures Bounded(CloseRace(cfg, s, id, Finish, tx, snapshotFails).sys.db, other, slack)
  {
    CloseShape(cfg, s, id, Finish, tx, snapshotFails);
  }

  lemma LapKeepsTarget(cfg: Config, s: Sys, op: Op, id: RaceId, slack: nat)
    requires op.DoLap? && Bounded(s.db, id, slack)
    ensures Bounded(Step(cfg, s, op).db, id, if Slips(cfg, s, op) && s.active == Some(id) then slack + 1 else slack)
  {
    if op.fault.NoFault? && LapAccepted(s, op.event) {
      LapUnderTarget(cfg, s, op.event, id, slack);
      var s', active := LapStored(s, op.event), s.active.value;
      if TargetReached(s'.db, active) {
        if id == active && op.finishTx.Lands() {
          FinishAtTarget(cfg, s', id, slack, op.snapshotFails, op.finishTx);
        } else {
          OtherFinishKeepsTarget(cfg, s', active, id, if id == active then slack + 1 else slack, op.snapshotFails, op.finishTx);
        }
      }
    }
  }

  lemma DeleteKeepsTarget(s: Sys, gone: RaceId, fails: bool, id: RaceId, slack: nat)
    requires Bounded(s.db, id, slack)
    ensures Bounded(DeleteRace(s, gone, fails).sys.db, id, slack)
  {
    var db' := DeleteRace(s, gone, fails).sys.db;
    if id in s.db.races && gone != id {
      DeleteFollows(s, gone, fails, id);
      assert forall car: int :: LapsOf(db'.laps, id, car) == LapsOf(s.db.laps, id, car);
    }
  }

  lemma StepKeepsTarget(cfg: Config, s: Sys, op: Op, id: RaceId, slack: nat)
    requires !cfg.allowEditRunning && DbInvariant(cfg, s.clock, s.db) && Bounded(s.db, id, slack)
    ensures Bounded(Step(cfg, s, op).db, id, if Slips(cfg, s, op) && s.active == Some(id) then slack + 1 else slack)
  {
    if op.DoLap? {
      LapKeepsTarget(cfg, s, op, id, slack);
    } else if op.Delete? {
      DeleteKeepsTarget(s, op.id, op.fails, id, slack);
    } else {
      StepWrites(cfg, s, op);
      WritesByKind(cfg, s, op);
      CalmKeepsTarget(cfg, s.clock, s.db, Writes(cfg, s, op), id, slack);
    }
  }

  /**
   * In a fixed-laps race no car passes the target by more than the number of times that race's automatic
   * finish was lost: fewer than target + slips laps while unfinished, at most target + slips after.
   */
  lemma {:induction false} LapTargetBound(cfg: Config, ops: seq<Op>, id: RaceId)
    requires !cfg.allowEditRunning
    ensures Bounded(Run(cfg, INITIAL, ops).db, id, SlipCount(cfg, ops, id))
  {
    if |ops| > 0 {
      var before := ops[..|ops| - 1];
      LapTargetBound(cfg, before, id);
      EveryRunKeepsDatabase(cfg, before);
      StepKeepsTarget(cfg, Run(cfg, INITIAL, before), ops[|ops| - 1], id, SlipCount(cfg, before, id));
    }
  }

  /** A race that a lap finished has a leader at the target; without slips, exactly at it. */
  lemma AutoFinishLeader(cfg: Config, ops: seq<Op>, s: Sys, op: Op, id: RaceId)
    requires !cfg.allowEditRunning && op.DoLap? && s == Run(cfg, INITIAL, ops)
    requires id in s.db.races && s.db.races[id].status.Running?
    ensures var db' := Step(cfg, s, op).db;
            id in db'.races && db'.races[id].status.Finished? ==>
              && db'.races[id].form.mode.FixedLaps?
              && var target := db'.races[id].form.lapTarget.value;
              && (exists car: int :: |LapsOf(db'.laps, id, car)| >= target)
              && (forall car: int :: |LapsOf(db'.laps, id, car)| <= target + SlipCount(cfg, ops, id))
  {
    var db' := Step(cfg, s, op).db;
    if id in db'.races && db'.races[id].status.Finished? {
      LapTargetBound(cfg, ops, id);
      LapKeepsTarget(cfg, s, op, id, SlipCount(cfg, ops, id));
      LapFinishes(cfg, s, op, id);
      assert UnderTarget(db', id, SlipCount(cfg, ops, id));
    }
  }

  lemma CloseKeepsLaps(cfg: Config, s: Sys, id: RaceId, tx: Tx, snapshotFails: bool)
    ensures var db' := CloseRace(cfg, s, id, Finish, tx, snapshotFails).sys.db;
            && db'.laps == s.db.laps
            && (forall r <- s.db.races :: r in db'.races && db'.races[r].form == s.db.races[r].form)
            && (!tx.Lands() ==> db' == s.db)
  {
    CloseShape(cfg, s, id, Finish, tx, snapshotFails);
  }

  lemma LapFinishes(cfg: Config, s: Sys, op: Op, id: RaceId)
    requires op.DoLap? && id in s.db.races && s.db.races[id].status.Running?
    requires var s' := Step(cfg, s, op); id in s'.db.races && s'.db.races[id].status.Finished?
    ensures var db' := Step(cfg, s, op).db;
            && !Slips(cfg, s, op)
            && db'.races[id].form.mode.FixedLaps?
            && exists car: int :: |LapsOf(db'.laps, id, car)| >= db'.races[id].form.lapTarget.value
  {
    LapStepShape(cfg, s, op, id);
    CloseKeepsLaps(cfg, LapStored(s, op.event), id, op.finishTx, op.snapshotFails);
  }

  /** Only the leader check after an accepted lap changes a status, and only that of the active race. */
  lemma LapStepShape(cfg: Config, s: Sys, op: Op, id: RaceId)
    requires op.DoLap? && id in s.db.races && s.db.races[id].status.Running?
    requires var s' := Step(cfg, s, op); id in s'.db.races && s'.db.races[id].status.Finished?
    ensures op.fault.NoFault? && LapAccepted(s, op.event) && s.active == Some(id)
    ensures LapStored(s, op.event).db.races == s.db.races && TargetReached(LapStored(s, op.event).db, id)
    ensures Step(cfg, s, op) == CloseRace(cfg, LapStored(s, op.event), id, Finish, op.finishTx, op.snapshotFails).sys
  {
    if op.fault.NoFault? && LapAccepted(s, op.event) && s.active != Some(id) {
      OthersKeepStatus(cfg, LapStored(s, op.event), s.active.value, id, op.finishTx, op.snapshotFails);
    }
  }

  lemma OthersKeepStatus(cfg: Config, s: Sys, id: RaceId, other: RaceId, tx: Tx, snapshotFails: bool)
    requires other != id && other in s.db.races
    ensures var db' := CloseRace(cfg, s, id, Finish, tx, snapshotFails).sys.db;
            other in db'.races && db'.races[other] == s.db.races[other]
  {
    CloseShape(cfg, s, id, Finish, tx, snapshotFails);
  }

  // ----- safety car

  /** Oldest first: started, ended, started, ... */
  predicate Alternates(log: seq<RaceEvent>) {
    |log| > 0 ==>
      && Alternates(log[..|log| - 1])
      && log[|log| - 1].kind == if |log| == 1 || log[|log| - 2].kind.SafetyCarEnded? then SafetyCarStarted else SafetyCarEnded
  }

  lemma {:induction false} AlternatesAt(log: seq<RaceEvent>, i: nat)
    requires Alternates(log) && i < |log|
    ensures log[i].kind == if i % 2 == 0 then SafetyCarStarted else SafetyCarEnded
  {
    if i < |log| - 1 {
      AlternatesAt(log[..|log| - 1], i);
    } else if i > 0 {
      AlternatesAt(log[..|log| - 1], i - 1);
    }
  }

  ghost predicate LogsAlternate(db: Tables) { forall id: RaceId :: Alternates(SafetyLog(db.events, id)) }

  /** Every cached flag of an unfinished race is what a service without a cache would read. */
  ghost predicate CacheAgrees(s: Sys) {
    forall id <- s.safety :: id in s.db.races && !s.db.races[id].status.Terminal() ==> s.safety[id] == SafetyFromLog(s.db, id)
  }

  lemma {:induction false} NewestIsLast(log: seq<RaceEvent>, now: int)
    requires InOrder(log, now) && log != []
    ensures Newest(log) == Some(log[|log| - 1])
  {
    if |log| > 1 { NewestIsLast(log[..|log| - 1], now); }
  }

  lemma FlagAfterAppend(log: seq<RaceEvent>, e: RaceEvent, now: int)
    requires InOrder(log + [e], now)
    ensures Newest(log + [e]) == Some(e)
  {
    NewestIsLast(log + [e], now);
  }

  /** The creation that would inherit a stale flag: a reused id whose old race left `true` in the cache. */
  predicate InheritsFlag(cfg: Config, s: Sys, op: Op) {
    && op.Create? && op.tx.Lands() && op.id !in s.db.races
    && op.id in s.safety && s.safety[op.id] && !cfg.defaultStatus.Terminal()
  }

  /** The set that duplicates an event: it could not read the flag, took it for off, and turned on what was on. */
  predicate DuplicatesStart(s: Sys, op: Op) {
    && op.DoSetSafety? && op.on && op.readFails && !op.fails
    && op.id in s.db.races && s.db.races[op.id].status.Live() && SafetyFromLog(s.db, op.id)
  }

  ghost predicate SameFlags(db: Tables, db': Tables) {
    forall id: RaceId :: SafetyFromLog(db', id) == SafetyFromLog(db, id) && SafetyLog(db'.events, id) == SafetyLog(db.events, id)
  }

  lemma {:induction false} QuietWritesKeepFlags(cfg: Config, now: int, db: Tables, ws: seq<Write>)
    requires LegalAll(cfg, now, db, ws) && Quiet(ws)
    ensures SameFlags(db, ApplyAll(cfg, now, db, ws)) && ApplyAll(cfg, now, db, ws).races.Keys == db.races.Keys
    decreases |ws|
  {
    if |ws| > 0 {
      assert ws[0] in ws;
      forall id: RaceId ensures SafetyLog(Apply(db, ws[0]).events, id) == SafetyLog(db.events, id) {
        EventsKept(cfg, now, db, ws[0], id);
      }
      QuietWritesKeepFlags(cfg, now, Apply(db, ws[0]), ws[1..]);
    }
  }

  function SafetyEvent(id: RaceId, now: int, on: bool): RaceEvent {
    RaceEvent(id, now, if on then SafetyCarStarted else SafetyCarEnded, None)
  }

  function WithSafetyEvent(db: Tables, id: RaceId, now: int, on: bool): Tables {
    db.(events := db.events + [SafetyEvent(id, now, on)])
  }

  /** A safety event appended in time order becomes the flag of its race and of no other. */
  lemma AppendedFlag(db: Tables, now: int, id: RaceId, on: bool, r: RaceId)
    requires SafetyInOrder(db, now)
    ensures SafetyFromLog(WithSafetyEvent(db, id, now, on), r) == if r == id then on else SafetyFromLog(db, r)
  {
    var e := SafetyEvent(id, now, on);
    SafetyLogSnoc(db.events, e, r);
    assert InOrder(SafetyLog(db.events, r), now);
    if r == id {
      FlagAfterAppend(SafetyLog(db.events, id), e, now);
    } else {
      assert SafetyLog(WithSafetyEvent(db, id, now, on).events, r) == SafetyLog(db.events, r);
    }
  }

  /** ... and the logs still alternate exactly if it changed the flag. */
  lemma AppendedAlternates(db: Tables, now: int, id: RaceId, on: bool)
    requires SafetyInOrder(db, now) && LogsAlternate(db)
    ensures LogsAlternate(WithSafetyEvent(db, id, now, on)) <==> SafetyFromLog(db, id) != on
  {
    var e, db' := SafetyEvent(id, now, on), WithSafetyEvent(db, id, now, on);
    var log := SafetyLog(db.events, id);
    assert InOrder(log, now) && Alternates(log);
    if log != [] { NewestIsLast(log, now); }
    AppendKeepsAlternation(log, e);
    SafetyLogSnoc(db.events, e, id);
    if SafetyFromLog(db, id) != on {
      forall r: RaceId ensures Alternates(SafetyLog(db'.events, r)) {
        SafetyLogSnoc(db.events, e, r);
        assert Alternates(SafetyLog(db.events, r));
        if r != id { assert SafetyLog(db'.events, r) == SafetyLog(db.events, r); }
      }
    } else {
      assert !Alternates(SafetyLog(db'.events, id));
    }
  }

  /** Whether a set request of an unfinished race appends an event, given the flag in the log. */
  predicate Appends(flag: bool, on: bool, readFails: bool, fails: bool) {
    !fails && (if readFails then on else flag != on)
  }

  lemma SetSafetyEffect(s: Sys, id: RaceId, on: bool, readFails: bool, fails: bool)
    requires CacheAgrees(s) && id in s.db.races && s.db.races[id].status.Live()
    ensures var s', flag := SetSafety(s, id, on, readFails, fails).sys, SafetyFromLog(s.db, id);
            && s'.db == (if Appends(flag, on, readFails, fails)
                         then WithSafetyEvent(s.db, id, s.clock, on) else s.db)
            && (id in s'.safety ==> s'.safety[id] == if Appends(flag, on, readFails, fails) then on else flag)
            && (forall r :: r != id ==> (r in s'.safety <==> r in s.safety) && (r in s.safety ==> s'.safety[r] == s.safety[r]))
  {
  }

  /** The flag of every other race is untouched by a set, and that of `id` is what was appended, if anything was. */
  lemma FlagsAfterSet(s: Sys, id: RaceId, on: bool, readFails: bool, fails: bool, r: RaceId)
    requires SafetyInOrder(s.db, s.clock) && LogsAlternate(s.db) && CacheAgrees(s)
    requires id in s.db.races && s.db.races[id].status.Live()
    ensures SafetyFromLog(SetSafety(s, id, on, readFails, fails).sys.db, r)
            == var flag := SafetyFromLog(s.db, r);
               if r == id && Appends(flag, on, readFails, fails) then on else flag
    ensures SetSafety(s, id, on, readFails, fails).sys.db.races == s.db.races
  {
    SetSafetyEffect(s, id, on, readFails, fails);
    if Appends(SafetyFromLog(s.db, id), on, readFails, fails) { AppendedFlag(s.db, s.clock, id, on, r); }
  }

  lemma SetSafetyKeepsCache(s: Sys, id: RaceId, on: bool, readFails: bool, fails: bool)
    requires SafetyInOrder(s.db, s.clock) && LogsAlternate(s.db) && CacheAgrees(s)
    requires id in s.db.races && s.db.races[id].status.Live()
    ensures CacheAgrees(SetSafety(s, id, on, readFails, fails).sys)
  {
    var s' := SetSafety(s, id, on, readFails, fails).sys;
    SetSafetyEffect(s, id, on, readFails, fails);
    forall r | r in s'.safety && r in s'.db.races && !s'.db.races[r].status.Terminal()
      ensures s'.safety[r] == SafetyFromLog(s'.db, r)
    {
      FlagsAfterSet(s, id, on, readFails, fails, r);
    }
  }

  lemma SetSafetyKeepsLog(s: Sys, id: RaceId, on: bool, readFails: bool, fails: bool)
    requires SafetyInOrder(s.db, s.clock) && LogsAlternate(s.db) && CacheAgrees(s)
    requires id in s.db.races && s.db.races[id].status.Live()
    ensures LogsAlternate(SetSafety(s, id, on, readFails, fails).sys.db)
       <==> !DuplicatesStart(s, DoSetSafety(id, on, readFails, fails))
  {
    SetSafetyEffect(s, id, on, readFails, fails);
    if Appends(SafetyFromLog(s.db, id), on, readFails, fails) { AppendedAlternates(s.db, s.clock, id, on); }
  }

  lemma AppendKeepsAlternation(log: seq<RaceEvent>, e: RaceEvent)
    requires Alternates(log) && e.kind.Safety()
    ensures Alternates(log + [e]) <==> (e.kind.SafetyCarStarted? <==> log == [] || log[|log| - 1].kind.SafetyCarEnded?)
  {
    var all := log + [e];
    assert all[..|all| - 1] == log && all[|all| - 1] == e;
    if log != [] {
      assert all[|all| - 2] == log[|log| - 1];
      AlternatesAt(log, |log| - 1);
    }
  }

  /** Operations other than creating, deleting and setting the flag change neither the set of races nor any flag. */
  lemma StepKeepsFlags(cfg: Config, s: Sys, op: Op)
    requires !op.Create? && !op.Delete? && !op.DoSetSafety?
    ensures SameFlags(s.db, Step(cfg, s, op).db) && Step(cfg, s, op).db.races.Keys == s.db.races.Keys
  {
    StepWrites(cfg, s, op);
    WritesByKind(cfg, s, op);
    QuietWritesKeepFlags(cfg, s.clock, s.db, Writes(cfg, s, op));
  }

  ghost predicate Shrinks(before: map<RaceId, bool>, after: map<RaceId, bool>) {
    forall id <- after :: id in before && after[id] == before[id]
  }

  lemma CloseCache(cfg: Config, s: Sys, id: RaceId, move: Move, tx: Tx, snapshotFails: bool)
    ensures Shrinks(s.safety, CloseRace(cfg, s, id, move, tx, snapshotFails).sys.safety)
  {
  }

  lemma LapCache(cfg: Config, s: Sys, op: Op)
    requires op.DoLap?
    ensures Shrinks(s.safety, Step(cfg, s, op).safety)
  {
    if op.fault.NoFault? && LapAccepted(s, op.event) {
      CloseCache(cfg, LapStored(s, op.event), s.active.value, Finish, op.finishTx, op.snapshotFails);
    }
  }

  /** Such operations only forget cached flags, except that a read may cache the flag in the log. */
  lemma StepCache(cfg: Config, s: Sys, op: Op)
    requires !op.Create? && !op.Delete? && !op.DoSetSafety?
    ensures !op.DoReadSafety? ==> Shrinks(s.safety, Step(cfg, s, op).safety)
  {
    match op
    case DoRestart(txs) => RecoverKeepsClock(cfg, Crashed(s), Listed(s.db), op.txs);
    case DoFinish(id, tx, snapshotFails) => CloseCache(cfg, s, id, Finish, tx, snapshotFails);
    case DoCancel(id, tx, snapshotFails) => CloseCache(cfg, s, id, Cancel, tx, snapshotFails);
    case DoTick(tx, snapshotFails) => if TimeIsUp(s) { CloseCache(cfg, s, s.active.value, Finish, tx, snapshotFails); }
    case DoLap(_, _, _, _) => LapCache(cfg, s, op);
    case _ =>
  }

  lemma QuietStepKeepsCache(cfg: Config, s: Sys, op: Op)
    requires !op.Create? && !op.Delete? && !op.DoSetSafety?
    requires LogsAlternate(s.db) && CacheAgrees(s)
    ensures LogsAlternate(Step(cfg, s, op).db) && CacheAgrees(Step(cfg, s, op))
  {
    var s' := Step(cfg, s, op);
    StepKeepsFlags(cfg, s, op);
    StepCache(cfg, s, op);
    forall id: RaceId ensures Alternates(SafetyLog(s'.db.events, id)) { assert Alternates(SafetyLog(s.db.events, id)); }
    forall id | id in s'.safety && id in s'.db.races && !s'.db.races[id].status.Terminal()
      ensures s'.safety[id] == SafetyFromLog(s'.db, id)
    {
      StepFollows(cfg, s, op, id);
    }
  }

  lemma DeleteDropsLog(s: Sys, id: RaceId, fails: bool, r: RaceId)
    ensures var s' := DeleteRace(s, id, fails).sys;
            SafetyLog(s'.db.events, r) == (if s'.db != s.db && r == id then [] else SafetyLog(s.db.events, r))
            && (r in s'.db.races ==> r in s.db.races && s'.db.races[r] == s.db.races[r])
            && (s'.db != s.db ==> id !in s'.db.races) && s'.safety == s.safety
  {
    if DeleteRace(s, id, fails).sys.db != s.db { WithoutRace(s.db, id, r, 0); }
  }

  lemma DeleteKeepsCache(s: Sys, id: RaceId, fails: bool)
    requires LogsAlternate(s.db) && CacheAgrees(s)
    ensures LogsAlternate(DeleteRace(s, id, fails).sys.db) && CacheAgrees(DeleteRace(s, id, fails).sys)
  {
    var s' := DeleteRace(s, id, fails).sys;
    forall r: RaceId ensures Alternates(SafetyLog(s'.db.events, r)) {
      DeleteDropsLog(s, id, fails, r);
      assert Alternates(SafetyLog(s.db.events, r));
    }
    forall r | r in s'.safety && r in s'.db.races && !s'.db.races[r].status.Terminal()
      ensures s'.safety[r] == SafetyFromLog(s'.db, r)
    {
      DeleteDropsLog(s, id, fails, r);
    }
  }

  lemma CreateKeepsCache(cfg: Config, s: Sys, id: RaceId, form: Form, tx: Tx)
    requires NoOrphans(s.db) && LogsAlternate(s.db) && CacheAgrees(s)
    ensures LogsAlternate(CreateRace(cfg, s, id, form, tx).sys.db)
    ensures CacheAgrees(CreateRace(cfg, s, id, form, tx).sys) <==> !InheritsFlag(cfg, s, Create(id, form, tx))
  {
    var s' := CreateRace(cfg, s, id, form, tx).sys;
    assert s'.db.events == s.db.events;
    if s'.db != s.db { assert SafetyLog(s.db.events, id) == []; }
    if InheritsFlag(cfg, s, Create(id, form, tx)) { assert id in s'.safety && id in s'.db.races; }
  }

  /**
   * One step keeps cache and log in agreement unless it creates a race under an id with a stale flag,
   * and keeps started/ended strictly alternating unless it sets the flag without being able to read it.
   */
  lemma SafetyCarStep(cfg: Config, s: Sys, op: Op)
    requires NoOrphans(s.db) && SafetyInOrder(s.db, s.clock) && LogsAlternate(s.db) && CacheAgrees(s)
    ensures CacheAgrees(Step(cfg, s, op)) <==> !InheritsFlag(cfg, s, op)
    ensures LogsAlternate(Step(cfg, s, op).db) <==> !DuplicatesStart(s, op)
  {
    match op
    case Create(id, form, tx) => CreateKeepsCache(cfg, s, id, form, tx);
    case Delete(id, fails) => DeleteKeepsCache(s, id, fails);
    case DoSetSafety(id, on, readFails, fails) =>
      if id in s.db.races && s.db.races[id].status.Live() {
        SetSafetyKeepsCache(s, id, on, readFails, fails);
        SetSafetyKeepsLog(s, id, on, readFails, fails);
      }
    case _ => QuietStepKeepsCache(cfg, s, op);
  }

  ghost predicate SafetySound(cfg: Config, ops: seq<Op>) {
    forall i :: 0 <= i < |ops| ==>
      && !InheritsFlag(cfg, Run(cfg, INITIAL, ops[..i]), ops[i])
      && !DuplicatesStart(Run(cfg, INITIAL, ops[..i]), ops[i])
  }

  lemma {:induction false} SafetyCarRun(cfg: Config, ops: seq<Op>)
    requires SafetySound(cfg, ops)
    ensures LogsAlternate(Run(cfg, INITIAL, ops).db) && CacheAgrees(Run(cfg, INITIAL, ops))
  {
    if |ops| > 0 {
      var k := |ops| - 1;
      forall i | 0 <= i < k
        ensures !InheritsFlag(cfg, Run(cfg, INITIAL, ops[..k][..i]), ops[..k][i])
             && !DuplicatesStart(Run(cfg, INITIAL, ops[..k][..i]), ops[..k][i])
      {
        assert ops[..k][..i] == ops[..i];
      }
      SafetyCarRun(cfg, ops[..k]);
      EveryRunKeepsDatabase(cfg, ops[..k]);
      SafetyCarStep(cfg, Run(cfg, INITIAL, ops[..k]), ops[k]);
    }
  }

  lemma AnswerIsParity(s: Sys, id: RaceId)
    requires SafetyInOrder(s.db, s.clock) && LogsAlternate(s.db)
    ensures SafetyFromLog(s.db, id) <==> |SafetyLog(s.db.events, id)| % 2 == 1
  {
    var log := SafetyLog(s.db.events, id);
    assert InOrder(log, s.clock) && Alternates(log);
    if log != [] {
      NewestIsLast(log, s.clock);
      AlternatesAt(log, |log| - 1);
    }
  }

  lemma AnswerFromCache(s: Sys, id: RaceId)
    requires CacheAgrees(s) && id in s.db.races && s.db.races[id].status.Live()
    ensures ReadSafety(s, id, false).1 == ReadSafety(Crashed(s), id, false).1 == SafetyFromLog(s.db, id)
  {
  }

  /**
   * In every such run the answer for an unfinished race is the same from the cache, from a service
   * that just started, and by counting: the car is out exactly when the number of its events is odd.
   */
  lemma SafetyCarAnswer(cfg: Config, ops: seq<Op>, id: RaceId, s: Sys)
    requires SafetySound(cfg, ops) && s == Run(cfg, INITIAL, ops)
    requires id in s.db.races && s.db.races[id].status.Live()
    ensures ReadSafety(s, id, false).1 == ReadSafety(Crashed(s), id, false).1 == SafetyFromLog(s.db, id)
    ensures SafetyFromLog(s.db, id) <==> |SafetyLog(s.db.events, id)| % 2 == 1
  {
    SafetyCarRun(cfg, ops);
    EveryRunKeepsDatabase(cfg, ops);
    AnswerFromCache(s, id);
    AnswerIsParity(s, id);
  }

  lemma SafetyCarSent(cfg: Config, s: Sys, id: RaceId)
    requires id in s.db.races && s.db.races[id].status.Running? && !ReadSafety(s, id, false).1
    ensures var s' := Step(cfg, s, DoSetSafety(id, true, false, false));
            s'.db.races == s.db.races && id in s'.safety && s'.safety[id]
  {
  }

  lemma PauseKeepsFlags(cfg: Config, s: Sys, id: RaceId)
    requires id in s.db.races && s.db.races[id].status.Running?
    ensures var s' := Step(cfg, s, DoPause(id, Commits));
            id in s'.db.races && s'.db.races[id].status.Paused? && s'.safety == s.safety
  {
  }

  lemma DeleteKeepsFlags(cfg: Config, s: Sys, id: RaceId)
    requires id in s.db.races && !s.db.races[id].status.Running?
    ensures var s' := Step(cfg, s, Delete(id, false)); id !in s'.db.races && s'.safety == s.safety
  {
  }

  /** From any running race: send the safety car out, pause and delete the race, and its flag is still in the cache. */
  lemma DeletedRaceLeavesFlag(cfg: Config, s: Sys, id: RaceId)
    requires id in s.db.races && s.db.races[id].status.Running? && !ReadSafety(s, id, false).1
    ensures var out := Step(cfg, s, DoSetSafety(id, true, false, false));
            var gone := Step(cfg, Step(cfg, out, DoPause(id, Commits)), Delete(id, false));
            id !in gone.db.races && id in gone.safety && gone.safety[id]
  {
    var out := Step(cfg, s, DoSetSafety(id, true, false, false));
    SafetyCarSent(cfg, s, id);
    PauseKeepsFlags(cfg, out, id);
    DeleteKeepsFlags(cfg, Step(cfg, out, DoPause(id, Commits)), id);
  }

  /** Creating and starting a race under such an id shows a safety car that no event of it ever started. */
  lemma ReusedIdShowsSafetyCar(cfg: Config, s: Sys, id: RaceId, form: Form)
    requires cfg.defaultStatus.Draft? && NoOrphans(s.db)
    requires s.active.None? && id !in s.db.races && id in s.safety && s.safety[id]
    ensures var s' := Step(cfg, Step(cfg, s, Create(id, form, Commits)), DoStart(id, Commits, Commits));
            ReadSafety(s', id, false).1 && !SafetyFromLog(s'.db, id)
  {
    var mid := Step(cfg, s, Create(id, form, Commits));
    assert SafetyLog(mid.db.events, id) == [];
    StepKeepsFlags(cfg, mid, DoStart(id, Commits, Commits));
    var s' := Step(cfg, mid, DoStart(id, Commits, Commits));
    assert id in s'.db.races && s'.db.races[id].status.Running? && s'.safety == s.safety;
  }

  // ----- the ticker

  /**
   * A beat changes a race exactly when it is the active one, running, timed, its duration is over on the
   * clock, and the finish lands; then it is finished, and no longer active unless it could not be read back.
   */
  lemma TickFinishesExactly(cfg: Config, s: Sys, tx: Tx, snapshotFails: bool, id: RaceId)
    requires id in s.db.races
    ensures var s', race := Tick(cfg, s, tx, snapshotFails), s.db.races[id];
            var due := s.active == Some(id) && (tx.Commits? || tx.ReadBackFails?)
                       && race.status.Running? && race.form.mode.FixedDuration? && race.startedAt.Some?
                       && race.form.durationSeconds.value * 1000 <= s.clock - race.startedAt.value;
            && id in s'.db.races
            && (s'.db.races[id] != race <==> due)
            && (due ==> s'.db.races[id].status.Finished? && (s'.active == None <==> tx.Commits?))
  {
    if TimeIsUp(s) { CloseShape(cfg, s, s.active.value, Finish, tx, snapshotFails); }
  }
}
