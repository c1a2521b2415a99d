/** Crashes in the middle of an operation, and what recovery makes of any tables. */
module RaceCrashes {
  import opened Base
  import opened RaceTables
  import opened RaceRules
  import opened RaceInvariants
  import opened RaceRuns

  // ----- a crash inside an operation is a fault of that operation

  /** The transaction outcomes that stop a recovery after exactly k of its transactions. */
  function CutTxs(cfg: Config, s: Sys, ids: seq<RaceId>, txs: seq<Tx>, k: nat): seq<Tx>
    decreases |ids|
  {
    if |ids| == 0 || !Head(txs).Lands() then txs
    else if k == 0 then [WriteFails]
    else
      var seeds, s' := |SeedWrites(s.db, ids[0])|, SeededSys(s, ids[0]);
      if Head(txs).ReadBackFails? then txs
      else if k <= seeds then [ReadBackFails]
      else if cfg.recoverRunning then [Commits] + CutTxs(cfg, s'.(active := Some(ids[0])), ids[1..], Tail(txs), k - seeds)
      else
        var tx := Head(Tail(txs));
        var p := PauseRace(cfg, s', ids[0], tx);
        var pauses := |MoveWrites(cfg, s'.db, ids[0], Pause, s.clock, tx)|;
        if p.reply.StorageError? then txs
        else if 0 < k - seeds <= pauses then [Commits, ReadBackFails]
        else [Commits, tx] + CutTxs(cfg, p.sys, ids[1..], Tail(Tail(txs)), k - seeds - pauses)
  }

  /** The same operation, with the faults under which it commits exactly its first k transactions. */
  ghost function CutOp(cfg: Config, s: Sys, op: Op, k: nat): Op {
    if k == 0 then Wait(0)
    else if k >= |Writes(cfg, s, op)| then op
    else
      match op
      case DoStart(id, pauseTx, _) => DoStart(id, pauseTx, WriteFails)
      case DoResume(id, pauseTx, _) => DoResume(id, pauseTx, WriteFails)
      case DoFinish(id, tx, _) => DoFinish(id, tx, true)
      case DoCancel(id, tx, _) => DoCancel(id, tx, true)
      case DoLap(e, fault, finishTx, _) => DoLap(e, fault, if k == 1 then WriteFails else finishTx, true)
      case DoTick(tx, _) => DoTick(tx, true)
      case DoRestart(txs) => DoRestart(CutTxs(cfg, Crashed(s), Listed(s.db), txs, k))
      case _ => op
  }

  lemma {:induction false} CutRecovery(cfg: Config, s: Sys, ids: seq<RaceId>, txs: seq<Tx>, k: nat)
    requires k <= |RecoverWrites(cfg, s, ids, txs)|
    ensures RecoverWrites(cfg, s, ids, CutTxs(cfg, s, ids, txs, k)) == RecoverWrites(cfg, s, ids, txs)[..k]
    decreases |ids|
  {
    var all, cut := RecoverWrites(cfg, s, ids, txs), CutTxs(cfg, s, ids, txs, k);
    if |ids| == 0 || !Head(txs).Lands() {
      assert all == [];
    } else if k > 0 {
      var seed, s' := SeedWrites(s.db, ids[0]), SeededSys(s, ids[0]);
      if Head(txs).ReadBackFails? || k <= |seed| {
        assert all[..k] == seed[..k] && seed[..k] == seed;
      } else if cfg.recoverRunning {
        var s'' := s'.(active := Some(ids[0]));
        CutRecovery(cfg, s'', ids[1..], Tail(txs), k - |seed|);
        var rest := CutTxs(cfg, s'', ids[1..], Tail(txs), k - |seed|);
        assert Head([Commits] + rest) == Commits && Tail([Commits] + rest) == rest;
        assert all[..k] == seed + RecoverWrites(cfg, s'', ids[1..], Tail(txs))[..k - |seed|];
      } else {
        CutPausingRecovery(cfg, s, ids, txs, k);
      }
    }
  }

  /** The transactions of a pausing recovery whose first seeding is read back. */
  lemma PausingWrites(cfg: Config, s: Sys, ids: seq<RaceId>, txs: seq<Tx>)
    requires |ids| > 0 && Head(txs).Commits? && !cfg.recoverRunning
    ensures var s' := SeededSys(s, ids[0]);
            var p := PauseRace(cfg, s', ids[0], Head(Tail(txs)));
            RecoverWrites(cfg, s, ids, txs)
            == SeedWrites(s.db, ids[0]) + MoveWrites(cfg, s'.db, ids[0], Pause, s.clock, Head(Tail(txs)))
               + (if p.reply.StorageError? then [] else RecoverWrites(cfg, p.sys, ids[1..], Tail(Tail(txs))))
  {
  }

  lemma {:induction false} CutPausingRecovery(cfg: Config, s: Sys, ids: seq<RaceId>, txs: seq<Tx>, k: nat)
    requires |ids| > 0 && Head(txs).Commits? && !cfg.recoverRunning
    requires |SeedWrites(s.db, ids[0])| < k <= |RecoverWrites(cfg, s, ids, txs)|
    ensures RecoverWrites(cfg, s, ids, CutTxs(cfg, s, ids, txs, k)) == RecoverWrites(cfg, s, ids, txs)[..k]
    decreases |ids|, 0
  {
    var all, tx := RecoverWrites(cfg, s, ids, txs), Head(Tail(txs));
    var seed, s' := SeedWrites(s.db, ids[0]), SeededSys(s, ids[0]);
    var p, pause := PauseRace(cfg, s', ids[0], tx), MoveWrites(cfg, s'.db, ids[0], Pause, s.clock, tx);
    PausingWrites(cfg, s, ids, txs);
    if p.reply.StorageError? {
      assert all[..k] == all;
    } else if k - |seed| <= |pause| {
      CutAfterPause(cfg, s, ids);
      assert CutTxs(cfg, s, ids, txs, k) == [Commits, ReadBackFails];
      assert all[..k] == seed + pause;
    } else {
      var left := k - |seed| - |pause|;
      var rest := CutTxs(cfg, p.sys, ids[1..], Tail(Tail(txs)), left);
      CutRecovery(cfg, p.sys, ids[1..], Tail(Tail(txs)), left);
      CutLater(cfg, s, ids, tx, rest);
      assert CutTxs(cfg, s, ids, txs, k) == [Commits, tx] + rest;
      assert all[..k] == seed + pause + RecoverWrites(cfg, p.sys, ids[1..], Tail(Tail(txs)))[..left];
    }
  }

  lemma CutAfterPause(cfg: Config, s: Sys, ids: seq<RaceId>)
    requires |ids| > 0 && !cfg.recoverRunning
    ensures RecoverWrites(cfg, s, ids, [Commits, ReadBackFails])
            == SeedWrites(s.db, ids[0]) + MoveWrites(cfg, SeededSys(s, ids[0]).db, ids[0], Pause, s.clock, Commits)
               + (if PauseRace(cfg, SeededSys(s, ids[0]), ids[0], ReadBackFails).reply.StorageError? then []
                  else RecoverWrites(cfg, PauseRace(cfg, SeededSys(s, ids[0]), ids[0], ReadBackFails).sys, ids[1..], []))
  {
    var cut := [Commits, ReadBackFails];
    assert Head(cut) == Commits && Head(Tail(cut)) == ReadBackFails && Tail(Tail(cut)) == [];
    PausingWrites(cfg, s, ids, cut);
  }

  lemma CutLater(cfg: Config, s: Sys, ids: seq<RaceId>, tx: Tx, rest: seq<Tx>)
    requires |ids| > 0 && !cfg.recoverRunning
    ensures var p := PauseRace(cfg, SeededSys(s, ids[0]), ids[0], tx);
            RecoverWrites(cfg, s, ids, [Commits, tx] + rest)
            == SeedWrites(s.db, ids[0]) + MoveWrites(cfg, SeededSys(s, ids[0]).db, ids[0], Pause, s.clock, tx)
               + (if p.reply.StorageError? then [] else RecoverWrites(cfg, p.sys, ids[1..], rest))
  {
    var cut := [Commits, tx] + rest;
    assert Head(cut) == Commits && Head(Tail(cut)) == tx && Tail(Tail(cut)) == rest;
    PausingWrites(cfg, s, ids, cut);
  }

  lemma CutClose(cfg: Config, s: Sys, id: RaceId, move: Move, tx: Tx, snapshotFails: bool)
    ensures var all := CloseWrites(cfg, s, id, move, tx, snapshotFails);
            |all| <= 2 && (|all| == 2 ==> CloseWrites(cfg, s, id, move, tx, true) == all[..1])
            && (tx.WriteFails? ==> all == [])
  {
    var first := MoveWrites(cfg, s.db, id, move, s.clock, tx);
    assert first + [] == first;
  }

  lemma CutActivate(cfg: Config, s: Sys, id: RaceId, move: Move, pauseTx: Tx, tx: Tx)
    ensures var all := ActivateWrites(cfg, s, id, move, pauseTx, tx);
            |all| <= 2 && (|all| == 2 ==> ActivateWrites(cfg, s, id, move, pauseTx, WriteFails) == all[..1])
  {
  }

  lemma CutLap(cfg: Config, s: Sys, op: Op, k: nat)
    requires op.DoLap? && 0 < k < |Writes(cfg, s, op)|
    ensures Writes(cfg, s, CutOp(cfg, s, op, k)) == Writes(cfg, s, op)[..k]
  {
    var s' := LapStored(s, op.event);
    CutClose(cfg, s', s.active.value, Finish, op.finishTx, op.snapshotFails);
    CutClose(cfg, s', s.active.value, Finish, WriteFails, true);
    var w := Writes(cfg, s, op)[..1];
    assert w + [] == w;
  }

  /** The cut operation commits exactly the first k transactions, and does not move the clock. */
  lemma CutCommits(cfg: Config, s: Sys, op: Op, k: nat)
    requires k <= |Writes(cfg, s, op)|
    ensures Writes(cfg, s, CutOp(cfg, s, op, k)) == Writes(cfg, s, op)[..k]
    ensures Step(cfg, s, CutOp(cfg, s, op, k)).clock == s.clock
  {
    var all, op' := Writes(cfg, s, op), CutOp(cfg, s, op, k);
    ClockOnlyWaits(cfg, s, op');
    if k == |all| {
      assert all[..k] == all;
    } else if k > 0 {
      match op
      case DoStart(id, pauseTx, tx) => CutActivate(cfg, s, id, Start, pauseTx, tx);
      case DoResume(id, pauseTx, tx) => CutActivate(cfg, s, id, Resume, pauseTx, tx);
      case DoFinish(id, tx, snapshotFails) => CutClose(cfg, s, id, Finish, tx, snapshotFails);
      case DoCancel(id, tx, snapshotFails) => CutClose(cfg, s, id, Cancel, tx, snapshotFails);
      case DoTick(tx, snapshotFails) => CutClose(cfg, s, s.active.value, Finish, tx, snapshotFails);
      case DoLap(_, _, _, _) => CutLap(cfg, s, op, k);
      case DoRestart(txs) => CutRecovery(cfg, Crashed(s), Listed(s.db), txs, k);
      case _ =>
    }
  }

  /** The tables after the first k transactions of an operation. */
  ghost function TablesAfter(cfg: Config, s: Sys, op: Op, k: nat): Tables
    requires k <= |Writes(cfg, s, op)|
  {
    StepWrites(cfg, s, op);
    LegalPrefix(cfg, s.clock, s.db, Writes(cfg, s, op), k);
    ApplyAll(cfg, s.clock, s.db, Writes(cfg, s, op)[..k])
  }

  /** A crash after k transactions, and the next start of the process with its recovery. */
  ghost function CrashInside(cfg: Config, s: Sys, op: Op, k: nat, txs: seq<Tx>): Sys
    requires k <= |Writes(cfg, s, op)|
  {
    Restart(cfg, s.(db := TablesAfter(cfg, s, op, k)), txs)
  }

  /** Whatever the operation and wherever it is cut, some faulted form of it leaves the same tables. */
  lemma CrashIsFaultedOperation(cfg: Config, s: Sys, op: Op, k: nat)
    requires k <= |Writes(cfg, s, op)|
    ensures Step(cfg, s, CutOp(cfg, s, op, k)).db == TablesAfter(cfg, s, op, k)
  {
    StepWrites(cfg, s, CutOp(cfg, s, op, k));
    CutCommits(cfg, s, op, k);
  }

  /** A restart depends on nothing but the tables and the clock. */
  lemma RestartForgets(cfg: Config, a: Sys, b: Sys, txs: seq<Tx>)
    requires a.db == b.db && a.clock == b.clock
    ensures Step(cfg, a, DoRestart(txs)) == Restart(cfg, b, txs)
  {
    assert Crashed(a) == Crashed(b);
  }

  /** So a crash inside an operation and the restart after it are two whole operations of an ordinary run. */
  lemma CrashIsTwoOperations(cfg: Config, s: Sys, op: Op, k: nat, txs: seq<Tx>)
    requires k <= |Writes(cfg, s, op)|
    ensures CrashInside(cfg, s, op, k, txs) == Step(cfg, Step(cfg, s, CutOp(cfg, s, op, k)), DoRestart(txs))
  {
    CrashIsFaultedOperation(cfg, s, op, k);
    CutCommits(cfg, s, op, k);
    RestartForgets(cfg, Step(cfg, s, CutOp(cfg, s, op, k)), s.(db := TablesAfter(cfg, s, op, k)), txs);
  }

  // ----- runs with crashes anywhere

  /** An operation that completes, or one cut short by a crash after at most `after` of its transactions. */
  datatype Happening = Completes(op: Op) | CutShort(op: Op, after: nat, txs: seq<Tx>)

  ghost function CutAt(cfg: Config, s: Sys, op: Op, after: nat): nat {
    if after <= |Writes(cfg, s, op)| then after else |Writes(cfg, s, op)|
  }

  ghost function Happen(cfg: Config, s: Sys, h: Happening): Sys {
    match h
    case Completes(op) => Step(cfg, s, op)
    case CutShort(op, after, txs) => CrashInside(cfg, s, op, CutAt(cfg, s, op, after), txs)
  }

  ghost function Live(cfg: Config, hs: seq<Happening>): Sys {
    if |hs| == 0 then INITIAL else Happen(cfg, Live(cfg, hs[..|hs| - 1]), hs[|hs| - 1])
  }

  /** The ordinary run that does the same. */
  ghost function OpsOf(cfg: Config, hs: seq<Happening>): seq<Op> {
    if |hs| == 0 then []
    else
      var before, h := hs[..|hs| - 1], hs[|hs| - 1];
      OpsOf(cfg, before)
      + match h
        case Completes(op) => [op]
        case CutShort(op, after, txs) =>
          [CutOp(cfg, Live(cfg, before), op, CutAt(cfg, Live(cfg, before), op, after)), DoRestart(txs)]
  }

  lemma TwoMore(cfg: Config, s: Sys, ops: seq<Op>, a: Op, b: Op)
    ensures Run(cfg, s, ops + [a, b]) == Step(cfg, Step(cfg, Run(cfg, s, ops), a), b)
  {
    RunSnoc(cfg, s, ops, a);
    RunSnoc(cfg, s, ops + [a], b);
    assert ops + [a, b] == ops + [a] + [b];
  }

  /** Crashes reach no state that faults and restarts do not reach. */
  lemma {:induction false} LiveIsRun(cfg: Config, hs: seq<Happening>)
    ensures Live(cfg, hs) == Run(cfg, INITIAL, OpsOf(cfg, hs))
  {
    if |hs| > 0 {
      var before, h := hs[..|hs| - 1], hs[|hs| - 1];
      LiveIsRun(cfg, before);
      var s := Live(cfg, before);
      match h
      case Completes(op) => RunSnoc(cfg, INITIAL, OpsOf(cfg, before), op);
      case CutShort(op, after, txs) =>
        var k := CutAt(cfg, s, op, after);
        CrashIsTwoOperations(cfg, s, op, k, txs);
        TwoMore(cfg, INITIAL, OpsOf(cfg, before), CutOp(cfg, s, op, k), DoRestart(txs));
    }
  }

  /** Wherever processes crash, inside or between operations, the database keeps all its invariants. */
  lemma LiveKeepsDatabase(cfg: Config, hs: seq<Happening>)
    ensures DbInvariant(cfg, Live(cfg, hs).clock, Live(cfg, hs).db)
  {
    LiveIsRun(cfg, hs);
    EveryRunKeepsDatabase(cfg, OpsOf(cfg, hs));
  }

  // ----- the active race

  lemma {:induction false} RecoveryStartsNothing(cfg: Config, s: Sys, ids: seq<RaceId>, txs: seq<Tx>)
    ensures RunningIds(Recover(cfg, s, ids, txs).db) <= RunningIds(s.db)
    decreases |ids|
  {
    if |ids| != 0 && Head(txs).Lands() {
      var s' := SeededSys(s, ids[0]);
      var p := PauseRace(cfg, s', ids[0], Head(Tail(txs))).sys;
      assert RunningIds(s'.db) == RunningIds(s.db) && RunningIds(p.db) <= RunningIds(s.db);
      RecoveryStartsNothing(cfg, s'.(active := Some(ids[0])), ids[1..], Tail(txs));
      RecoveryStartsNothing(cfg, p, ids[1..], Tail(Tail(txs)));
    }
  }

  lemma MoveRunsOnly(cfg: Config, db: Tables, id: RaceId, move: Move, now: int, tx: Tx)
    requires RunningIds(db) <= {id}
    ensures RunningIds(Transition(cfg, db, id, move, now, tx).0) <= {id}
  {
    TransitionShape(cfg, db, id, move, now, tx);
    var db' := Transition(cfg, db, id, move, now, tx).0;
    assert forall r :: r in RunningIds(db') ==> r == id || r in RunningIds(db);
  }

  lemma ActivateRunsOne(cfg: Config, s: Sys, id: RaceId, move: Move, pauseTx: Tx, tx: Tx)
    requires RunningIsActive(s) && (move.Start? || move.Resume?) && s.active != Some(id) && PausePasses(s, id, pauseTx)
    ensures RunningIds(ActivateRace(cfg, s, id, move, pauseTx, tx).sys.db) <= {id}
  {
    var db := PausedFirst(cfg, s, id, pauseTx).0;
    if s.active.Some? { NothingElseRuns(cfg, s, id, pauseTx); }
    assert RunningIds(db) <= {id};
    MoveRunsOnly(cfg, db, id, move, s.clock, tx);
  }

  lemma FewerRun(db: Tables, db': Tables)
    requires OneRunning(db) && RunningIds(db') <= RunningIds(db)
    ensures OneRunning(db')
  {
    forall a, b | a in db'.races && b in db'.races && db'.races[a].status.Running? && db'.races[b].status.Running? ensures a == b {
      assert a in RunningIds(db') && b in RunningIds(db');
      assert a in RunningIds(db) && b in RunningIds(db);
    }
  }

  lemma OnlyOneRuns(db: Tables, id: RaceId)
    requires RunningIds(db) <= {id}
    ensures OneRunning(db)
  {
    forall a | a in db.races && db.races[a].status.Running? ensures a == id { assert a in RunningIds(db); }
  }

  /** Even an operation that loses the pointer leaves at most one race running. */
  lemma StepRunsOne(cfg: Config, s: Sys, op: Op)
    requires RunningIsActive(s) && !cfg.defaultStatus.Running?
    ensures OneRunning(Step(cfg, s, op).db)
  {
    RunningIsActiveStep(cfg, s, op);
    if LosesPointer(cfg, s, op) { LossRunsOne(cfg, s, op); }
  }

  lemma LossRunsOne(cfg: Config, s: Sys, op: Op)
    requires RunningIsActive(s) && !cfg.defaultStatus.Running? && LosesPointer(cfg, s, op)
    ensures OneRunning(Step(cfg, s, op).db)
  {
    match op
    case DoStart(id, pauseTx, tx) =>
      ActivateRunsOne(cfg, s, id, Start, pauseTx, tx);
      OnlyOneRuns(Step(cfg, s, op).db, id);
    case DoResume(id, pauseTx, tx) =>
      ActivateRunsOne(cfg, s, id, Resume, pauseTx, tx);
      OnlyOneRuns(Step(cfg, s, op).db, id);
    case DoRestart(txs) =>
      RecoveryStartsNothing(cfg, Crashed(s), Listed(s.db), txs);
      FewerRun(s.db, Step(cfg, s, op).db);
    case _ =>
  }

  ghost predicate LosesPointerIn(cfg: Config, s: Sys, h: Happening) {
    match h
    case Completes(op) => LosesPointer(cfg, s, op)
    case CutShort(op, after, txs) =>
      RunningIds(TablesAfter(cfg, s, op, CutAt(cfg, s, op, after))) != {} && !Recovers(cfg, txs)
  }

  /** A crash anywhere loses the pointer exactly if storage interrupts the recovery after it. */
  lemma PointerAfter(cfg: Config, s: Sys, h: Happening)
    requires RunningIsActive(s) && !cfg.defaultStatus.Running?
    ensures RunningIsActive(Happen(cfg, s, h)) <==> !LosesPointerIn(cfg, s, h)
  {
    match h
    case Completes(op) => RunningIsActiveStep(cfg, s, op);
    case CutShort(op, after, txs) =>
      var k := CutAt(cfg, s, op, after);
      CrashIsFaultedOperation(cfg, s, op, k);
      StepRunsOne(cfg, s, CutOp(cfg, s, op, k));
      RestartPointer(cfg, s.(db := TablesAfter(cfg, s, op, k)), txs);
  }

  ghost predicate PointerSafe(cfg: Config, hs: seq<Happening>) {
    |hs| > 0 ==>
      PointerSafe(cfg, hs[..|hs| - 1]) && !LosesPointerIn(cfg, Live(cfg, hs[..|hs| - 1]), hs[|hs| - 1])
  }

  /** With crashes anywhere: at most one race is running, and it is the one ingest writes to. */
  lemma {:induction false} AtMostOneRunningLive(cfg: Config, hs: seq<Happening>)
    requires PointerSafe(cfg, hs) && !cfg.defaultStatus.Running?
    ensures RunningIsActive(Live(cfg, hs)) && OneRunning(Live(cfg, hs).db)
  {
    if |hs| > 0 {
      AtMostOneRunningLive(cfg, hs[..|hs| - 1]);
      PointerAfter(cfg, Live(cfg, hs[..|hs| - 1]), hs[|hs| - 1]);
    }
  }

  // ----- the lap target

  /** The lap that reaches the target is stored, and its race is not finished: a failed finish, or a crash before it. */
  ghost predicate SlipsIn(cfg: Config, s: Sys, h: Happening) {
    match h
    case Completes(op) => Slips(cfg, s, op)
    case CutShort(op, after, _) =>
      && after >= 1 && op.DoLap? && op.fault.NoFault? && LapAccepted(s, op.event)
      && TargetReached(LapStored(s, op.event).db, s.active.value)
      && (after == 1 || !op.finishTx.Lands())
  }

  ghost function SlipsOf(cfg: Config, hs: seq<Happening>, id: RaceId): nat {
    if |hs| == 0 || id !in Live(cfg, hs).db.races then 0
    else
      var before := hs[..|hs| - 1];
      var s := Live(cfg, before);
      SlipsOf(cfg, before, id) + (if SlipsIn(cfg, s, hs[|hs| - 1]) && s.active == Some(id) then 1 else 0)
  }

  lemma FinishWritten(cfg: Config, s: Sys, id: RaceId, tx: Tx, snapshotFails: bool)
    requires id in s.db.races && s.db.races[id].status.Running?
    ensures |CloseWrites(cfg, s, id, Finish, tx, snapshotFails)| == 0 <==> !tx.Lands()
  {
  }

  lemma CutSlips(cfg: Config, s: Sys, op: Op, after: nat, txs: seq<Tx>)
    ensures Slips(cfg, s, CutOp(cfg, s, op, CutAt(cfg, s, op, after))) <==> SlipsIn(cfg, s, CutShort(op, after, txs))
  {
    if op.DoLap? && op.fault.NoFault? && LapAccepted(s, op.event) && TargetReached(LapStored(s, op.event).db, s.active.value) {
      CutLapSlips(cfg, s, op, after);
    }
  }

  lemma CutLapSlips(cfg: Config, s: Sys, op: Op, after: nat)
    requires op.DoLap? && op.fault.NoFault? && LapAccepted(s, op.event) && TargetReached(LapStored(s, op.event).db, s.active.value)
    ensures Slips(cfg, s, CutOp(cfg, s, op, CutAt(cfg, s, op, after))) <==> after >= 1 && (after == 1 || !op.finishTx.Lands())
  {
    var n := |CloseWrites(cfg, LapStored(s, op.event), s.active.value, Finish, op.finishTx, op.snapshotFails)|;
    FinishWritten(cfg, LapStored(s, op.event), s.active.value, op.finishTx, op.snapshotFails);
    assert |Writes(cfg, s, op)| == 1 + n;
    var op' := CutOp(cfg, s, op, CutAt(cfg, s, op, after));
    if after >= 1 { assert op'.DoLap? && op'.event == op.event && op'.fault == op.fault; }
  }

  /** With crashes anywhere no car passes its race's target by more than that race's slips. */
  lemma {:induction false} LapTargetBoundLive(cfg: Config, hs: seq<Happening>, id: RaceId)
    requires !cfg.allowEditRunning
    ensures Bounded(Live(cfg, hs).db, id, SlipsOf(cfg, hs, id))
  {
    if |hs| > 0 {
      var before, h := hs[..|hs| - 1], hs[|hs| - 1];
      var s := Live(cfg, before);
      LapTargetBoundLive(cfg, before, id);
      LiveKeepsDatabase(cfg, before);
      match h
      case Completes(op) => StepKeepsTarget(cfg, s, op, id, SlipsOf(cfg, before, id));
      case CutShort(op, after, txs) =>
        var op' := CutOp(cfg, s, op, CutAt(cfg, s, op, after));
        CutSlips(cfg, s, op, after, txs);
        CrashIsTwoOperations(cfg, s, op, CutAt(cfg, s, op, after), txs);
        StepKeepsTarget(cfg, s, op', id, SlipsOf(cfg, before, id));
        InvariantKeptByStep(cfg, s, op');
        RestartKeepsTarget(cfg, Step(cfg, s, op'), txs, id,
                           SlipsOf(cfg, before, id) + (if Slips(cfg, s, op') && s.active == Some(id) then 1 else 0));
    }
  }

  lemma RestartKeepsTarget(cfg: Config, s: Sys, txs: seq<Tx>, id: RaceId, slack: nat)
    requires !cfg.allowEditRunning && DbInvariant(cfg, s.clock, s.db) && Bounded(s.db, id, slack)
    ensures Bounded(Step(cfg, s, DoRestart(txs)).db, id, slack)
  {
    StepKeepsTarget(cfg, s, DoRestart(txs), id, slack);
  }

  // ----- the safety car

  ghost predicate FlagSoundIn(cfg: Config, s: Sys, h: Happening) {
    match h
    case Completes(op) => !InheritsFlag(cfg, s, op) && !DuplicatesStart(s, op)
    case CutShort(op, after, _) => after >= 1 ==> !DuplicatesStart(s, op)
  }

  ghost predicate FlagSound(cfg: Config, hs: seq<Happening>) {
    |hs| > 0 ==> FlagSound(cfg, hs[..|hs| - 1]) && FlagSoundIn(cfg, Live(cfg, hs[..|hs| - 1]), hs[|hs| - 1])
  }

  lemma RestartIsSound(cfg: Config, s: Sys, txs: seq<Tx>)
    requires LogsAlternate(s.db)
    ensures LogsAlternate(Restart(cfg, s, txs).db) && CacheAgrees(Restart(cfg, s, txs))
  {
    assert Step(cfg, s, DoRestart(txs)) == Restart(cfg, s, txs);
    StepKeepsFlags(cfg, s, DoRestart(txs));
    RecoverKeepsClock(cfg, Crashed(s), Listed(s.db), txs);
    var s' := Restart(cfg, s, txs);
    forall id: RaceId ensures Alternates(SafetyLog(s'.db.events, id)) { assert Alternates(SafetyLog(s.db.events, id)); }
  }

  lemma CutDuplicates(cfg: Config, s: Sys, op: Op, after: nat)
    requires after >= 1 ==> !DuplicatesStart(s, op)
    ensures !DuplicatesStart(s, CutOp(cfg, s, op, CutAt(cfg, s, op, after)))
  {
  }

  lemma CutKeepsLog(cfg: Config, s: Sys, op: Op, after: nat, txs: seq<Tx>)
    requires NoOrphans(s.db) && SafetyInOrder(s.db, s.clock) && LogsAlternate(s.db) && CacheAgrees(s)
    requires after >= 1 ==> !DuplicatesStart(s, op)
    ensures var s' := Happen(cfg, s, CutShort(op, after, txs)); LogsAlternate(s'.db) && CacheAgrees(s')
  {
    var k := CutAt(cfg, s, op, after);
    CutDuplicates(cfg, s, op, after);
    SafetyCarStep(cfg, s, CutOp(cfg, s, op, k));
    CrashIsFaultedOperation(cfg, s, op, k);
    RestartIsSound(cfg, s.(db := TablesAfter(cfg, s, op, k)), txs);
  }

  /** With crashes anywhere: cache and log agree, and start and end events alternate. */
  lemma {:induction false} SafetyCarLive(cfg: Config, hs: seq<Happening>)
    requires FlagSound(cfg, hs)
    ensures LogsAlternate(Live(cfg, hs).db) && CacheAgrees(Live(cfg, hs))
  {
    if |hs| > 0 {
      var before, h := hs[..|hs| - 1], hs[|hs| - 1];
      var s := Live(cfg, before);
      SafetyCarLive(cfg, before);
      LiveKeepsDatabase(cfg, before);
      match h
      case Completes(op) => SafetyCarStep(cfg, s, op);
      case CutShort(op, after, txs) => CutKeepsLog(cfg, s, op, after, txs);
    }
  }
}
