/** Lap events that arrive twice: after a reconnect, a re-broadcast or a restart. */
module RaceReplay {
  import opened Base
  import opened Telemetry
  import opened RaceTables
  import opened RaceRules
  import opened RaceInvariants
  import opened RaceRuns

  // ----- among laps only: every lap event, stored or refused


  /** Recording this lap now would change nothing, whatever fails. */
  ghost predicate Settled(s: Sys, e: Event) {
    || s.active.None? || !e.payload.LapData? || e.car.None?
    || (s.active.value in s.db.races && !LapAccepted(s, e))
  }

  lemma SettledChangesNothing(cfg: Config, s: Sys, op: Op)
    requires op.DoLap? && Settled(s, op.event)
    ensures Step(cfg, s, op) == s
  {
  }

  /** After an accepted lap the same race stays active or none does, and all its identities stay. */
  lemma AcceptedLapShape(cfg: Config, s: Sys, op: Op)
    requires op.DoLap? && op.fault.NoFault? && LapAccepted(s, op.event)
    ensures var s', id := Step(cfg, s, op), s.active.value;
            && s'.db.identities == s.db.identities + [Identity(id, op.event.car.value, CrossingMs(op.event))]
            && id in s'.db.races && s'.db.races[id].form == s.db.races[id].form
            && (s'.active.None? || s'.active == Some(id))
  {
    ClosedShape(cfg, LapStored(s, op.event), s.active.value, op.finishTx, op.snapshotFails);
  }

  lemma ClosedShape(cfg: Config, s: Sys, id: RaceId, tx: Tx, snapshotFails: bool)
    requires id in s.db.races && s.active == Some(id)
    ensures var s' := CloseRace(cfg, s, id, Finish, tx, snapshotFails).sys;
            && s'.db.identities == s.db.identities && id in s'.db.races && s'.db.races[id].form == s.db.races[id].form
            && (s'.active.None? || s'.active == Some(id))
  {
    CloseShape(cfg, s, id, Finish, tx, snapshotFails);
  }

  /** A lap that went through once without losing its transaction is settled for good. */
  lemma LapSettles(cfg: Config, s: Sys, op: Op)
    requires op.DoLap? && op.fault.NoFault?
    ensures Settled(Step(cfg, s, op), op.event)
  {
    if LapAccepted(s, op.event) {
      AcceptedLapShape(cfg, s, op);
      var s' := Step(cfg, s, op);
      assert Identity(s.active.value, op.event.car.value, CrossingMs(op.event)) in s'.db.identities;
    }
  }

  lemma SettledStays(cfg: Config, s: Sys, op: Op, e: Event)
    requires DbInvariant(cfg, s.clock, s.db) && op.DoLap? && Settled(s, e)
    ensures Settled(Step(cfg, s, op), e)
  {
    if e.payload.LapData? && e.car.Some? && s.active.Some? && op.fault.NoFault? && LapAccepted(s, op.event) {
      var s', id := Step(cfg, s, op), s.active.value;
      AcceptedLapShape(cfg, s, op);
      InvariantKeptByStep(cfg, s, op);
      LapRejectedOnlyByKeyOrTime(s.db, id, e.car.value, e.payload.timeMs, CrossingMs(e));
      LapRejectedOnlyByKeyOrTime(s'.db, id, e.car.value, e.payload.timeMs, CrossingMs(e));
    }
  }

  ghost predicate AllLaps(ops: seq<Op>) { forall i :: 0 <= i < |ops| ==> ops[i].DoLap? }

  lemma {:induction false} RunConcat(cfg: Config, s: Sys, a: seq<Op>, b: seq<Op>)
    ensures Run(cfg, s, a + b) == Run(cfg, Run(cfg, s, a), b)
  {
    if |b| == 0 {
      assert a + b == a;
    } else {
      assert (a + b)[..|a + b| - 1] == a + b[..|b| - 1];
      RunConcat(cfg, s, a, b[..|b| - 1]);
    }
  }

  lemma {:induction false} SettledThroughRun(cfg: Config, s: Sys, ops: seq<Op>, e: Event)
    requires DbInvariant(cfg, s.clock, s.db) && AllLaps(ops) && Settled(s, e)
    ensures Settled(Run(cfg, s, ops), e)
    ensures DbInvariant(cfg, Run(cfg, s, ops).clock, Run(cfg, s, ops).db)
  {
    if |ops| > 0 {
      SettledThroughRun(cfg, s, ops[..|ops| - 1], e);
      SettledStays(cfg, Run(cfg, s, ops[..|ops| - 1]), ops[|ops| - 1], e);
      InvariantKeptByStep(cfg, Run(cfg, s, ops[..|ops| - 1]), ops[|ops| - 1]);
    }
  }

  /**
   * Replay insensitivity: repeating a lap anywhere after it was first recorded changes nothing at all
   * of the final state, whatever other laps, duplicates, failures or automatic finishes lie between.
   */
  lemma ReplayChangesNothing(cfg: Config, s: Sys, a: seq<Op>, first: Op, b: seq<Op>, again: Op, c: seq<Op>)
    requires DbInvariant(cfg, s.clock, s.db) && AllLaps(a) && AllLaps(b) && AllLaps(c)
    requires first.DoLap? && first.fault.NoFault? && again.DoLap? && again.event == first.event
    ensures Run(cfg, s, a + [first] + b + [again] + c) == Run(cfg, s, a + [first] + b + c)
  {
    var s1 := Run(cfg, s, a);
    RunKeepsInvariant(cfg, s, a);
    var s2 := Step(cfg, s1, first);
    RunSnoc(cfg, s, a, first);
    InvariantKeptByStep(cfg, s1, first);
    LapSettles(cfg, s1, first);
    SettledThroughRun(cfg, s2, b, first.event);
    RunConcat(cfg, s, a + [first], b);
    var s3 := Run(cfg, s2, b);
    SettledChangesNothing(cfg, s3, again);
    RunSnoc(cfg, s, a + [first] + b, again);
    RunConcat(cfg, s, a + [first] + b + [again], c);
    RunConcat(cfg, s, a + [first] + b, c);
  }

  lemma {:induction false} RunKeepsInvariant(cfg: Config, s: Sys, ops: seq<Op>)
    requires DbInvariant(cfg, s.clock, s.db)
    ensures DbInvariant(cfg, Run(cfg, s, ops).clock, Run(cfg, s, ops).db)
  {
    if |ops| > 0 {
      RunKeepsInvariant(cfg, s, ops[..|ops| - 1]);
      InvariantKeptByStep(cfg, Run(cfg, s, ops[..|ops| - 1]), ops[|ops| - 1]);
    }
  }

  // ----- among any operations: a lap event that was stored

  lemma {:induction false} WritesKeepIdentity(cfg: Config, now: int, db: Tables, ws: seq<Write>, row: Identity)
    requires LegalAll(cfg, now, db, ws) && (forall w <- ws :: !w.DropRace?) && row in db.identities
    ensures row in ApplyAll(cfg, now, db, ws).identities
    decreases |ws|
  {
    if |ws| > 0 {
      assert ws[0] in ws && (forall w <- ws[1..] :: w in ws);
      WritesKeepIdentity(cfg, now, Apply(db, ws[0]), ws[1..], row);
    }
  }

  lemma StepKeepsIdentity(cfg: Config, s: Sys, op: Op, row: Identity)
    requires row in s.db.identities && !(op.Delete? && op.id == row.race)
    ensures row in Step(cfg, s, op).db.identities
  {
    if op.Delete? {
      FilterIn(s.db.identities, row, (i: Identity) => i.race != op.id);
    } else {
      StepWrites(cfg, s, op);
      WritesByKind(cfg, s, op);
      WritesKeepIdentity(cfg, s.clock, s.db, Writes(cfg, s, op), row);
    }
  }

  /** The crossing of a stored lap is remembered until its race is deleted, through pauses, faults and restarts. */
  lemma {:induction false} CrossingIsRemembered(cfg: Config, s: Sys, ops: seq<Op>, row: Identity)
    requires row in s.db.identities && row.race in s.db.races && NeverDeletes(ops, row.race)
    ensures row in Run(cfg, s, ops).db.identities && row.race in Run(cfg, s, ops).db.races
  {
    if |ops| > 0 {
      CrossingIsRemembered(cfg, s, ops[..|ops| - 1], row);
      StepKeepsIdentity(cfg, Run(cfg, s, ops[..|ops| - 1]), ops[|ops| - 1], row);
      StepFollows(cfg, Run(cfg, s, ops[..|ops| - 1]), ops[|ops| - 1], row.race);
    }
  }

  /**
   * Once a lap was stored, the same event changes nothing at all when it arrives again, after any
   * operations, faults, crashes and recoveries that do not delete its race, unless another race is the
   * active one by then.
   */
  lemma StoredLapIsFinal(cfg: Config, s: Sys, first: Op, between: seq<Op>, again: Op, later: Sys)
    requires first.DoLap? && first.fault.NoFault? && LapAccepted(s, first.event)
    requires again.DoLap? && again.event == first.event
    requires NeverDeletes(between, s.active.value) && later == Run(cfg, Step(cfg, s, first), between)
    requires later.active.None? || later.active == s.active
    ensures Step(cfg, later, again) == later
  {
    var row := Identity(s.active.value, first.event.car.value, CrossingMs(first.event));
    AcceptedLapShape(cfg, s, first);
    assert row in Step(cfg, s, first).db.identities;
    CrossingIsRemembered(cfg, Step(cfg, s, first), between, row);
    assert Settled(later, again.event);
    SettledChangesNothing(cfg, later, again);
  }

  /** If another race is active, the event is that race's first copy: it is stored for it exactly if it would be anyway. */
  lemma OtherRaceTakesLap(cfg: Config, later: Sys, again: Op)
    requires again.DoLap? && again.fault.NoFault? && DbInvariant(cfg, later.clock, later.db)
    requires again.event.payload.LapData? && again.event.car.Some?
    requires later.active.Some? && later.active.value in later.db.races
    ensures var e, id := again.event, later.active.value;
            (Step(cfg, later, again) != later <==>
               && later.db.races[id].status.Running? && e.car.value in later.db.races[id].form.roster && e.payload.timeMs > 0
               && Identity(id, e.car.value, CrossingMs(e)) !in later.db.identities)
  {
    var e, id := again.event, later.active.value;
    LapRejectedOnlyByKeyOrTime(later.db, id, e.car.value, e.payload.timeMs, CrossingMs(e));
    if LapAccepted(later, e) {
      AcceptedLapShape(cfg, later, again);
      assert Identity(id, e.car.value, CrossingMs(e)) in Step(cfg, later, again).db.identities;
    }
  }
}
