/** From Control Unit crossings, over adapter sessions, to stored laps. */
module LapPipeline {
  import opened Base
  import opened Telemetry
  import opened LiveAdapter
  import opened RaceTables
  import opened Reporting
  import opened RaceRules
  import opened RaceInvariants

  /** What happens on the link: a new adapter session, or a frame read with its clock stamps. */
  datatype Input = Connect | Got(frame: Frame, monoMs: nat, at: int)

  datatype Pipe = Pipe(session: Session, sys: Sys)

  /** What storage does while one event is dispatched. */
  datatype Faults = Faults(lap: LapFault, finishTx: Tx, snapshotFails: bool, eventFails: bool)

  const NO_FAULTS: Faults := Faults(NoFault, Commits, false, false)

  /** The race runner: laps are recorded, every other event is logged. */
  ghost function DispatchWith(cfg: Config, s: Sys, e: Event, f: Faults): Sys {
    if e.payload.LapData? then RecordLap(cfg, s, e, f.lap, f.finishTx, f.snapshotFails) else RecordEvent(cfg, s, e, f.eventFails)
  }

  ghost function Dispatch(cfg: Config, s: Sys, e: Event): Sys { DispatchWith(cfg, s, e, NO_FAULTS) }

  ghost function DispatchAll(cfg: Config, s: Sys, raws: seq<RawFrame>, monoMs: nat, at: int): Sys {
    if |raws| == 0 then s
    else Dispatch(cfg, DispatchAll(cfg, s, raws[..|raws| - 1], monoMs, at), ToEvent(raws[|raws| - 1], monoMs, at))
  }

  /** A frame that cannot be read ends its session; the runner then opens a new one. */
  ghost function Feed(cfg: Config, mode: MappingMode, p: Pipe, input: Input): Pipe {
    match input
    case Connect => Pipe(NEW_SESSION, p.sys)
    case Got(f, monoMs, at) =>
      if !Readable(mode, p.session, f) then Pipe(NEW_SESSION, p.sys)
      else
        var (session, raws) := Poll(mode, p.session, f);
        Pipe(session, DispatchAll(cfg, p.sys, raws, monoMs, at))
  }

  ghost function FeedAll(cfg: Config, mode: MappingMode, p: Pipe, inputs: seq<Input>): Pipe {
    if |inputs| == 0 then p else Feed(cfg, mode, FeedAll(cfg, mode, p, inputs[..|inputs| - 1]), inputs[|inputs| - 1])
  }

  // ----- the reference: successive distinct crossing times inside each session

  predicate Crosses(mode: MappingMode, input: Input, car: int) {
    input.Got? && input.frame.TimerFrame? && CarOf(mode, input.frame.address) == Some(car)
  }

  /** The status the current session compares the next one with. */
  function LastStatus(mode: MappingMode, inputs: seq<Input>): Option<CuStatus> {
    if |inputs| == 0 || inputs[|inputs| - 1].Connect? then None
    else
      var prev, f := LastStatus(mode, inputs[..|inputs| - 1]), inputs[|inputs| - 1].frame;
      if !f.StatusFrame? then prev
      else if prev.Some? && !Comparable(mode, prev.value, f.status) then None
      else Some(f.status)
  }

  /** A new session starts with `x`: by connecting, or because `x` cannot be read. */
  predicate StartsOver(mode: MappingMode, init: seq<Input>, x: Input) {
    x.Connect? || (x.frame.StatusFrame? && LastStatus(mode, init).Some? && !Comparable(mode, LastStatus(mode, init).value, x.frame.status))
  }

  /** The car's latest crossing in the current session. */
  function LastTs(mode: MappingMode, inputs: seq<Input>, car: int): Option<int> {
    if |inputs| == 0 then None
    else
      var x := inputs[|inputs| - 1];
      if StartsOver(mode, inputs[..|inputs| - 1], x) then None
      else if Crosses(mode, x, car) then Some(x.frame.timestamp)
      else LastTs(mode, inputs[..|inputs| - 1], car)
  }

  function ExpectedTimes(mode: MappingMode, inputs: seq<Input>, car: int): seq<int> {
    if |inputs| == 0 then []
    else
      var x, init := inputs[|inputs| - 1], inputs[..|inputs| - 1];
      var prev := LastTs(mode, init, car);
      if Crosses(mode, x, car) && prev.Some? && x.frame.timestamp > prev.value
      then ExpectedTimes(mode, init, car) + [x.frame.timestamp - prev.value]
      else ExpectedTimes(mode, init, car)
  }

  /** The latest time the car was seen in any session, or `base`. */
  function HighTs(mode: MappingMode, inputs: seq<Input>, car: int, base: int): int {
    if |inputs| == 0 then base
    else if Crosses(mode, inputs[|inputs| - 1], car) then inputs[|inputs| - 1].frame.timestamp
    else HighTs(mode, inputs[..|inputs| - 1], car, base)
  }

  /** No clock reset: a car's crossings never go back in time, across sessions too. */
  predicate NoClockReset(mode: MappingMode, inputs: seq<Input>, base: int) {
    |inputs| > 0 ==>
      var x, init := inputs[|inputs| - 1], inputs[..|inputs| - 1];
      && NoClockReset(mode, init, base)
      && (forall car | 1 <= car <= 6 && Crosses(mode, x, car) :: x.frame.timestamp >= HighTs(mode, init, car, base))
  }

  function TimesOf(laps: seq<Lap>): seq<int> { seq(|laps|, i requires 0 <= i < |laps| => laps[i].timeMs) }

  /** What the race had before, plus what the crossings are worth, stays under the target. */
  ghost predicate BelowTarget(mode: MappingMode, s: Sys, id: RaceId, inputs: seq<Input>)
    requires id in s.db.races
  {
    var form := s.db.races[id].form;
    form.mode.FixedLaps? && form.lapTarget.Some? ==>
      && form.lapTarget.value > 0
      && forall car: int :: |LapsOf(s.db.laps, id, car)| + (if car in form.roster then |ExpectedTimes(mode, inputs, car)| else 0) < form.lapTarget.value
  }

  /** Every identity of the race is at or before the latest crossing of its car. */
  ghost predicate KnownUpTo(db: Tables, id: RaceId, car: int, high: int) {
    forall i <- db.identities :: i.race == id && i.car == car ==> i.cuMs <= high
  }

  // ----- the invariant of the pipeline

  ghost predicate SessionTracks(mode: MappingMode, s: Session, inputs: seq<Input>) {
    && s.prevStatus == LastStatus(mode, inputs)
    && (s.prevData.Some? && s.prevData.value.StatusFrame? ==> s.prevStatus == Some(s.prevData.value.status))
    && (forall car :: car in s.laps.prevTs <==> LastTs(mode, inputs, car).Some?)
    && (forall car <- s.laps.prevTs :: LastTs(mode, inputs, car) == Some(s.laps.prevTs[car]))
    && (forall car <- s.laps.counts :: s.laps.counts[car] >= 0)
    && (forall car :: s.prevData.Some? && Crosses(mode, Got(s.prevData.value, 0, 0), car) ==>
          LastTs(mode, inputs, car) == Some(s.prevData.value.timestamp))
  }

  ghost predicate RunsContinuously(s: Sys, id: RaceId, race: Race) {
    s.active == Some(id) && id in s.db.races && s.db.races[id] == race && race.status.Running? && Continuous(s.db)
  }

  ghost predicate CarTracks(mode: MappingMode, s0: Sys, s: Sys, id: RaceId, inputs: seq<Input>, base: int, car: int) {
    && KnownUpTo(s.db, id, car, HighTs(mode, inputs, car, base))
    && TimesOf(LapsOf(s.db.laps, id, car))
       == TimesOf(LapsOf(s0.db.laps, id, car)) + (if id in s0.db.races && car in s0.db.races[id].form.roster then ExpectedTimes(mode, inputs, car) else [])
  }

  // ----- lemmas about the reference

  lemma {:induction false} CurrentIsHigh(mode: MappingMode, inputs: seq<Input>, car: int, base: int)
    ensures LastTs(mode, inputs, car).Some? ==> LastTs(mode, inputs, car) == Some(HighTs(mode, inputs, car, base))
  {
    if |inputs| > 0 {
      CurrentIsHigh(mode, inputs[..|inputs| - 1], car, base);
    }
  }

  lemma {:induction false} HighAboveBase(mode: MappingMode, inputs: seq<Input>, car: int, base: int)
    requires NoClockReset(mode, inputs, base) && 1 <= car <= 6
    ensures HighTs(mode, inputs, car, base) >= base
  {
    if |inputs| > 0 { HighAboveBase(mode, inputs[..|inputs| - 1], car, base); }
  }

  // ----- events that are not laps

  ghost predicate SameLapState(a: Sys, b: Sys) {
    && b.active == a.active && b.db.races == a.db.races && b.db.laps == a.db.laps
    && b.db.identities == a.db.identities && b.db.checkpoints == a.db.checkpoints
  }

  lemma {:induction false} NonLapsKeepLapState(cfg: Config, s: Sys, raws: seq<RawFrame>, monoMs: nat, at: int)
    requires forall i :: 0 <= i < |raws| ==> !raws[i].RawLap?
    ensures SameLapState(s, DispatchAll(cfg, s, raws, monoMs, at))
  {
    if |raws| > 0 { NonLapsKeepLapState(cfg, s, raws[..|raws| - 1], monoMs, at); }
  }

  ghost predicate NoLapIn(raws: seq<RawFrame>) { forall i :: 0 <= i < |raws| ==> !raws[i].RawLap? }

  lemma {:induction false} FuelIsNoLap(mode: MappingMode, prev: Option<CuStatus>, st: CuStatus, n: nat)
    requires n <= |st.fuel| && (prev.Some? ==> Covers(mode, |prev.value.fuel|, n))
    ensures NoLapIn(FuelFrames(mode, prev, st, n))
  {
    if n > 0 { FuelIsNoLap(mode, prev, st, n - 1); }
  }

  lemma {:induction false} PitIsNoLap(mode: MappingMode, prev: Option<CuStatus>, st: CuStatus, n: nat)
    requires n <= |st.pit| && (prev.Some? ==> Covers(mode, |prev.value.pit|, n))
    ensures NoLapIn(PitFrames(mode, prev, st, n))
  {
    if n > 0 { PitIsNoLap(mode, prev, st, n - 1); }
  }

  lemma {:induction false} SpeedIsNoLap(mode: MappingMode, prev: Option<CuStatus>, st: CuStatus, n: nat)
    requires st.speed.Some? && n <= |st.speed.value|
    ensures NoLapIn(SpeedFrames(mode, prev, st, n))
  {
    if n > 0 { SpeedIsNoLap(mode, prev, st, n - 1); }
  }

  lemma StatusIsNoLap(mode: MappingMode, prev: Option<CuStatus>, st: CuStatus)
    requires prev.Some? ==> Comparable(mode, prev.value, st)
    ensures NoLapIn(StatusFrames(mode, prev, st))
  {
    FuelIsNoLap(mode, prev, st, |st.fuel|);
    PitIsNoLap(mode, prev, st, |st.pit|);
    if st.speed.Some? { SpeedIsNoLap(mode, prev, st, |st.speed.value|); }
  }

  // ----- one lap event

  /** One more lap of `car` leaves everybody below the lap target, if there is one. */
  ghost predicate RoomFor(s: Sys, id: RaceId, car: int)
    requires id in s.db.races
  {
    var form := s.db.races[id].form;
    form.mode.FixedLaps? && form.lapTarget.Some? ==>
      && form.lapTarget.value > 0
      && forall c: int :: |LapsOf(s.db.laps, id, c)| + (if c == car then 1 else 0) < form.lapTarget.value
  }

  /**
   * One lap event of a running race below its target. It is told apart from others by the time of the
   * Control Unit or, when it carries none, by its monotonic stamp: a new one with a positive time, of a
   * driver of the race, is stored with the driver's name, the next number, and the event's time and date;
   * any other leaves no trace at all.
   */
  lemma OneEvent(cfg: Config, s: Sys, id: RaceId, e: Event, stamp: int)
    requires id in s.db.races && RunsContinuously(s, id, s.db.races[id]) && e.payload.LapData? && e.car.Some?
    requires if e.payload.cuMs.Some? && e.payload.cuMs.value >= 0 then stamp == e.payload.cuMs.value else stamp == e.monoMs
    ensures var s', car, roster := RecordLap(cfg, s, e, NoFault, Commits, false), e.car.value, s.db.races[id].form.roster;
            if e.payload.timeMs > 0 && car in roster && Identity(id, car, stamp) !in s.db.identities then
              RoomFor(s, id, car) ==>
                && RunsContinuously(s', id, s.db.races[id])
                && s'.db.identities == s.db.identities + [Identity(id, car, stamp)]
                && s'.db.laps == s.db.laps + [Lap(id, car, roster[car], |LapsOf(s.db.laps, id, car)| + 1, e.payload.timeMs, e.at)]
            else s' == s
  {
    LapRejectedOnlyByKeyOrTime(s.db, id, e.car.value, e.payload.timeMs, stamp);
    if LapAccepted(s, e) {
      assert CarContinuous(s.db, id, e.car.value);
      if RoomFor(s, id, e.car.value) { AcceptedEvent(cfg, s, id, e); }
    }
  }

  /** An accepted lap that leaves everybody below the target is stored, and that is all. */
  lemma AcceptedEvent(cfg: Config, s: Sys, id: RaceId, e: Event)
    requires id in s.db.races && RunsContinuously(s, id, s.db.races[id]) && LapAccepted(s, e) && RoomFor(s, id, e.car.value)
    ensures RecordLap(cfg, s, e, NoFault, Commits, false) == LapStored(s, e)
    ensures RunsContinuously(LapStored(s, e), id, s.db.races[id])
  {
    ContinuityKept(cfg, s.clock, s.db, StoreLap(id, e.car.value, e.payload.timeMs, CrossingMs(e), e.at));
    NobodyAtTarget(cfg, s, id, e);
  }

  lemma NobodyAtTarget(cfg: Config, s: Sys, id: RaceId, e: Event)
    requires s.active == Some(id) && id in s.db.races && LapAccepted(s, e) && RoomFor(s, id, e.car.value)
    ensures !TargetReached(LapStored(s, e).db, id)
  {
    var w := StoreLap(id, e.car.value, e.payload.timeMs, CrossingMs(e), e.at);
    forall car: int
      ensures |LapsOf(LapStored(s, e).db.laps, id, car)| == |LapsOf(s.db.laps, id, car)| + (if car == e.car.value then 1 else 0)
    {
      RowsKept(cfg, s.clock, s.db, w, id, car);
    }
  }

  /** Any other event is logged for the active race while that is running or paused, if events are kept, and moves nothing else. */
  lemma OtherEventIsLogged(cfg: Config, s: Sys, e: Event)
    requires !e.payload.LapData? && (e.car.Some? ==> 1 <= e.car.value <= 6)
    requires s.active.Some? && s.active.value in s.db.races
    ensures var status := s.db.races[s.active.value].status;
            Dispatch(cfg, s, e)
            == if cfg.persistEvents && (status.Running? || status.Paused?)
               then s.(db := s.db.(events := s.db.events + [RaceEvent(s.active.value, e.at, Telemetered, e.car)])) else s
  {
  }

  lemma TimesSnoc(mine: seq<Lap>, l: Lap)
    ensures TimesOf(mine + [l]) == TimesOf(mine) + [l.timeMs]
  {
  }

  /** The stored times of a car after one more row. */
  lemma TimesAfterLap(laps: seq<Lap>, l: Lap, id: RaceId, car: int)
    ensures TimesOf(LapsOf(laps + [l], id, car))
            == TimesOf(LapsOf(laps, id, car)) + (if l.race == id && l.car == car then [l.timeMs] else [])
  {
    var mine, more := LapsOf(laps, id, car), LapsOf(laps + [l], id, car);
    if l.race == id && l.car == car {
      assert more == mine + [l] by { LapsOfSnoc(laps, l, id, car); }
      TimesSnoc(mine, l);
    } else {
      assert more == mine by { LapsOfSnoc(laps, l, id, car); }
    }
  }

  /** Recording one lap with a new Control Unit time: stored once, or no trace at all. */
  lemma OneLap(cfg: Config, s: Sys, id: RaceId, e: Event, high: int)
    requires id in s.db.races && RunsContinuously(s, id, s.db.races[id]) && e.payload.LapData? && e.car.Some?
    requires e.payload.cuMs.Some? && e.payload.cuMs.value >= 0 && e.payload.timeMs >= 0
    requires KnownUpTo(s.db, id, e.car.value, high) && (e.payload.timeMs > 0 ==> e.payload.cuMs.value > high)
    requires e.payload.timeMs > 0 && e.car.value in s.db.races[id].form.roster ==> RoomFor(s, id, e.car.value)
    ensures var s' := RecordLap(cfg, s, e, NoFault, Commits, false);
            var stored := e.payload.timeMs > 0 && e.car.value in s.db.races[id].form.roster;
            && RunsContinuously(s', id, s.db.races[id]) && (!stored ==> s' == s)
            && (forall car: int :: TimesOf(LapsOf(s'.db.laps, id, car)) == TimesOf(LapsOf(s.db.laps, id, car))
                  + (if stored && car == e.car.value then [e.payload.timeMs] else []))
            && (forall i <- s'.db.identities :: i in s.db.identities || i == Identity(id, e.car.value, e.payload.cuMs.value))
  {
    var stamp, s' := e.payload.cuMs.value, RecordLap(cfg, s, e, NoFault, Commits, false);
    OneEvent(cfg, s, id, e, stamp);
    if e.payload.timeMs > 0 && e.car.value in s.db.races[id].form.roster {
      assert Identity(id, e.car.value, stamp) !in s.db.identities;
      forall car: int
        ensures TimesOf(LapsOf(s'.db.laps, id, car))
                == TimesOf(LapsOf(s.db.laps, id, car)) + (if car == e.car.value then [e.payload.timeMs] else [])
      {
        TimesAfterLap(s.db.laps, s'.db.laps[|s.db.laps|], id, car);
      }
    }
  }

  // ----- one input

  lemma ReferenceSnoc(mode: MappingMode, init: seq<Input>, x: Input)
    ensures LastStatus(mode, init + [x]) == (if StartsOver(mode, init, x) then None
                                             else if x.frame.StatusFrame? then Some(x.frame.status) else LastStatus(mode, init))
    ensures forall car :: LastTs(mode, init + [x], car)
              == if StartsOver(mode, init, x) then None
                 else if Crosses(mode, x, car) then Some(x.frame.timestamp) else LastTs(mode, init, car)
  {
    assert (init + [x])[..|init|] == init && (init + [x])[|init|] == x;
  }

  /** A frame equal to the one before it moves neither the session nor the reference. */
  lemma RepeatStep(mode: MappingMode, s: Session, init: seq<Input>, x: Input)
    requires SessionTracks(mode, s, init) && x.Got? && s.prevData == Some(x.frame)
    ensures Readable(mode, s, x.frame) && SessionTracks(mode, s, init + [x])
  {
    ReferenceSnoc(mode, init, x);
    forall car ensures LastTs(mode, init + [x], car) == LastTs(mode, init, car) {
      assert Crosses(mode, Got(x.frame, 0, 0), car) <==> Crosses(mode, x, car);
    }
  }

  lemma NewFrameStep(mode: MappingMode, s: Session, init: seq<Input>, x: Input)
    requires SessionTracks(mode, s, init) && x.Got? && s.prevData != Some(x.frame) && Readable(mode, s, x.frame)
    ensures SessionTracks(mode, Poll(mode, s, x.frame).0, init + [x])
  {
    ReferenceSnoc(mode, init, x);
    forall car ensures Crosses(mode, Got(x.frame, 0, 0), car) <==> Crosses(mode, x, car) {
    }
  }

  lemma StartOverStep(mode: MappingMode, init: seq<Input>, x: Input)
    requires StartsOver(mode, init, x)
    ensures SessionTracks(mode, NEW_SESSION, init + [x])
  {
    ReferenceSnoc(mode, init, x);
  }

  lemma SessionStep(cfg: Config, mode: MappingMode, p: Pipe, init: seq<Input>, x: Input)
    requires SessionTracks(mode, p.session, init)
    ensures SessionTracks(mode, Feed(cfg, mode, p, x).session, init + [x])
  {
    if x.Connect? || !Readable(mode, p.session, x.frame) {
      StartOverStep(mode, init, x);
    } else if p.session.prevData == Some(x.frame) {
      RepeatStep(mode, p.session, init, x);
    } else {
      NewFrameStep(mode, p.session, init, x);
    }
  }

  ghost predicate Tracks(mode: MappingMode, s0: Sys, p: Pipe, id: RaceId, inputs: seq<Input>, base: int)
    requires id in s0.db.races
  {
    && SessionTracks(mode, p.session, inputs) && RunsContinuously(p.sys, id, s0.db.races[id])
    && forall car: int :: CarTracks(mode, s0, p.sys, id, inputs, base, car)
  }

  /** An input that produces no lap event moves no reference either. */
  lemma QuietInput(cfg: Config, mode: MappingMode, s0: Sys, p: Pipe, id: RaceId, init: seq<Input>, x: Input, base: int)
    requires id in s0.db.races && Tracks(mode, s0, p, id, init, base)
    requires SameLapState(p.sys, Feed(cfg, mode, p, x).sys)
    requires forall car :: Crosses(mode, x, car) ==>
               && x.frame.timestamp >= HighTs(mode, init, car, base)
               && (LastTs(mode, init, car).Some? ==> x.frame.timestamp <= LastTs(mode, init, car).value)
    ensures Tracks(mode, s0, Feed(cfg, mode, p, x), id, init + [x], base)
  {
    assert (init + [x])[..|init|] == init;
    SessionStep(cfg, mode, p, init, x);
    var s' := Feed(cfg, mode, p, x).sys;
    forall r: RaceId, car: int ensures CarContinuous(s'.db, r, car) { assert CarContinuous(p.sys.db, r, car); }
    forall car: int ensures CarTracks(mode, s0, s', id, init + [x], base, car) {
      assert CarTracks(mode, s0, p.sys, id, init, base, car);
    }
  }

  /** A crossing measured against an earlier one of its session: the lap is stored exactly when the reference counts it. */
  lemma MeasuredCrossing(cfg: Config, mode: MappingMode, s0: Sys, p: Pipe, id: RaceId, init: seq<Input>, x: Input, base: int, car: int)
    requires id in s0.db.races && Tracks(mode, s0, p, id, init, base) && base >= 0
    requires x.Got? && p.session.prevData != Some(x.frame) && Crosses(mode, x, car) && car in p.session.laps.prevTs
    requires NoClockReset(mode, init + [x], base) && BelowTarget(mode, s0, id, init + [x])
    ensures Tracks(mode, s0, Feed(cfg, mode, p, x), id, init + [x], base)
  {
    SessionStep(cfg, mode, p, init, x);
    assert LastTs(mode, init, car) == Some(p.session.laps.prevTs[car]);
    MeasuredLap(cfg, mode, s0, p, id, init, x, base, car);
  }

  /** ... and what it means for the stored laps. */
  lemma MeasuredLap(cfg: Config, mode: MappingMode, s0: Sys, p: Pipe, id: RaceId, init: seq<Input>, x: Input, base: int, car: int)
    requires id in s0.db.races && RunsContinuously(p.sys, id, s0.db.races[id]) && base >= 0
    requires forall c: int :: CarTracks(mode, s0, p.sys, id, init, base, c)
    requires x.Got? && p.session.prevData != Some(x.frame) && Crosses(mode, x, car) && car in p.session.laps.prevTs
    requires LastTs(mode, init, car) == Some(p.session.laps.prevTs[car]) && Count(p.session.laps.counts, car) >= 0
    requires NoClockReset(mode, init + [x], base) && BelowTarget(mode, s0, id, init + [x])
    ensures RunsContinuously(Feed(cfg, mode, p, x).sys, id, s0.db.races[id])
    ensures forall c: int :: CarTracks(mode, s0, Feed(cfg, mode, p, x).sys, id, init + [x], base, c)
  {
    var n := Count(p.session.laps.counts, car) + 1;
    var e := LapOf(x, car, n, p.session.laps.prevTs[car]);
    assert 1 <= car <= 6 && 0 <= HighTs(mode, init, car, base) <= x.frame.timestamp
        && LastTs(mode, init, car) == Some(HighTs(mode, init, car, base)) by { CrossingInOrder(mode, init, x, base, car); }
    assert Feed(cfg, mode, p, x).sys == RecordLap(cfg, p.sys, e, NoFault, Commits, false) by { CrossingEvent(cfg, mode, p, x, car); }
    LapTracked(cfg, mode, s0, p.sys, id, init, x, base, car, n);
  }

  /** The event of a crossing, measured from `prev`. */
  function LapOf(x: Input, car: int, n: int, prev: int): Event
    requires x.Got? && x.frame.TimerFrame?
  {
    Event(Some(car), x.monoMs, x.at, LapData(n, x.frame.timestamp - prev, Some(x.frame.timestamp)))
  }

  lemma LapTracked(cfg: Config, mode: MappingMode, s0: Sys, s: Sys, id: RaceId, init: seq<Input>, x: Input, base: int, car: int, n: int)
    requires id in s0.db.races && RunsContinuously(s, id, s0.db.races[id])
    requires forall c: int :: CarTracks(mode, s0, s, id, init, base, c)
    requires Crosses(mode, x, car) && BelowTarget(mode, s0, id, init + [x])
    requires 0 <= HighTs(mode, init, car, base) <= x.frame.timestamp && LastTs(mode, init, car) == Some(HighTs(mode, init, car, base))
    ensures var e := LapOf(x, car, n, LastTs(mode, init, car).value);
            var s' := RecordLap(cfg, s, e, NoFault, Commits, false);
            RunsContinuously(s', id, s0.db.races[id]) && forall c: int :: CarTracks(mode, s0, s', id, init + [x], base, c)
  {
    var prev := LastTs(mode, init, car).value;
    RoomForLap(mode, s0, s, id, init, x, base, car);
    assert KnownUpTo(s.db, id, car, prev) by { assert CarTracks(mode, s0, s, id, init, base, car); }
    LapLands(cfg, s, id, x, car, n, prev);
    var s' := RecordLap(cfg, s, LapOf(x, car, n, prev), NoFault, Commits, false);
    forall c: int ensures CarTracks(mode, s0, s', id, init + [x], base, c) {
      assert CarTracks(mode, s0, s, id, init, base, c);
      CarAfterCrossing(mode, s0, s, s', id, init, x, base, car, c);
    }
  }

  /** What a crossing at `ts`, measured from `prev`, adds to the stored laps and identities. */
  ghost predicate CrossingStored(s: Sys, s': Sys, id: RaceId, car: int, ts: int, prev: int, listed: bool) {
    && (forall c: int :: TimesOf(LapsOf(s'.db.laps, id, c))
                         == TimesOf(LapsOf(s.db.laps, id, c)) + (if ts > prev && listed && c == car then [ts - prev] else []))
    && (forall i <- s'.db.identities :: i in s.db.identities || i == Identity(id, car, ts))
  }

  lemma LapLands(cfg: Config, s: Sys, id: RaceId, x: Input, car: int, n: int, prev: int)
    requires x.Got? && x.frame.TimerFrame? && id in s.db.races && RunsContinuously(s, id, s.db.races[id])
    requires KnownUpTo(s.db, id, car, prev) && 0 <= prev <= x.frame.timestamp
    requires x.frame.timestamp > prev && car in s.db.races[id].form.roster ==> RoomFor(s, id, car)
    ensures var s' := RecordLap(cfg, s, LapOf(x, car, n, prev), NoFault, Commits, false);
            && RunsContinuously(s', id, s.db.races[id])
            && CrossingStored(s, s', id, car, x.frame.timestamp, prev, car in s.db.races[id].form.roster)
  {
    OneLap(cfg, s, id, LapOf(x, car, n, prev), prev);
  }

  /** A crossing of a car already seen in the session is not before the one it is measured from. */
  lemma CrossingInOrder(mode: MappingMode, init: seq<Input>, x: Input, base: int, car: int)
    requires NoClockReset(mode, init + [x], base) && base >= 0 && Crosses(mode, x, car) && LastTs(mode, init, car).Some?
    ensures 1 <= car <= 6 && 0 <= base <= HighTs(mode, init, car, base) <= x.frame.timestamp
    ensures LastTs(mode, init, car) == Some(HighTs(mode, init, car, base))
  {
    assert (init + [x])[..|init|] == init;
    CurrentIsHigh(mode, init, car, base);
    HighAboveBase(mode, init, car, base);
  }

  lemma CrossingFrame(mode: MappingMode, s: Session, x: Input, car: int)
    requires x.Got? && s.prevData != Some(x.frame) && Crosses(mode, x, car) && car in s.laps.prevTs
    ensures Poll(mode, s, x.frame).1
            == [RawLap(car, Count(s.laps.counts, car) + 1, x.frame.timestamp - s.laps.prevTs[car], x.frame.timestamp)]
  {
  }

  lemma FrameReaches(cfg: Config, mode: MappingMode, p: Pipe, x: Input)
    requires x.Got? && Readable(mode, p.session, x.frame)
    ensures Feed(cfg, mode, p, x).sys == DispatchAll(cfg, p.sys, Poll(mode, p.session, x.frame).1, x.monoMs, x.at)
  {
  }

  /** What reaches the database from such a crossing is one lap event. */
  lemma CrossingEvent(cfg: Config, mode: MappingMode, p: Pipe, x: Input, car: int)
    requires x.Got? && p.session.prevData != Some(x.frame) && Crosses(mode, x, car) && car in p.session.laps.prevTs
    requires 1 <= car <= 6 && 0 <= p.session.laps.prevTs[car] <= x.frame.timestamp && Count(p.session.laps.counts, car) >= 0
    ensures var e := LapOf(x, car, Count(p.session.laps.counts, car) + 1, p.session.laps.prevTs[car]);
            Feed(cfg, mode, p, x).sys == RecordLap(cfg, p.sys, e, NoFault, Commits, false)
  {
    var n, prev := Count(p.session.laps.counts, car) + 1, p.session.laps.prevTs[car];
    var raw := RawLap(car, n, x.frame.timestamp - prev, x.frame.timestamp);
    assert Feed(cfg, mode, p, x).sys == DispatchAll(cfg, p.sys, [raw], x.monoMs, x.at) by {
      CrossingFrame(mode, p.session, x, car);
      FrameReaches(cfg, mode, p, x);
    }
    OneDispatch(cfg, p.sys, raw, x.monoMs, x.at);
    assert ToEvent(raw, x.monoMs, x.at) == LapOf(x, car, n, prev);
  }

  lemma CountsTracked(mode: MappingMode, s0: Sys, s: Sys, id: RaceId, inputs: seq<Input>, base: int, c: int)
    requires id in s0.db.races && CarTracks(mode, s0, s, id, inputs, base, c)
    ensures |LapsOf(s.db.laps, id, c)|
            == |LapsOf(s0.db.laps, id, c)| + (if c in s0.db.races[id].form.roster then |ExpectedTimes(mode, inputs, c)| else 0)
  {
    assert |TimesOf(LapsOf(s.db.laps, id, c))| == |LapsOf(s.db.laps, id, c)|;
  }

  /** The crossing counts towards the target that the inputs stay below. */
  lemma RoomForLap(mode: MappingMode, s0: Sys, s: Sys, id: RaceId, init: seq<Input>, x: Input, base: int, car: int)
    requires id in s0.db.races && (forall c: int :: CarTracks(mode, s0, s, id, init, base, c))
    requires Crosses(mode, x, car) && LastTs(mode, init, car).Some? && BelowTarget(mode, s0, id, init + [x])
    requires id in s.db.races && s.db.races[id] == s0.db.races[id]
    ensures x.frame.timestamp > LastTs(mode, init, car).value && car in s0.db.races[id].form.roster ==> RoomFor(s, id, car)
  {
    var form, inputs := s0.db.races[id].form, init + [x];
    assert inputs[..|init|] == init;
    if form.mode.FixedLaps? && form.lapTarget.Some? && x.frame.timestamp > LastTs(mode, init, car).value && car in form.roster {
      forall c: int ensures |LapsOf(s.db.laps, id, c)| + (if c == car then 1 else 0) < form.lapTarget.value {
        CountsTracked(mode, s0, s, id, init, base, c);
        assert |ExpectedTimes(mode, inputs, c)| == |ExpectedTimes(mode, init, c)| + (if c == car then 1 else 0);
      }
    }
  }

  /** What storing (or refusing) the lap of `car` means for the tracking of any car. */
  lemma CarAfterCrossing(mode: MappingMode, s0: Sys, s: Sys, s': Sys, id: RaceId, init: seq<Input>, x: Input, base: int, car: int, c: int)
    requires id in s0.db.races && CarTracks(mode, s0, s, id, init, base, c)
    requires Crosses(mode, x, car) && LastTs(mode, init, car).Some? && x.frame.timestamp >= HighTs(mode, init, car, base)
    requires LastTs(mode, init, car).value <= x.frame.timestamp
    requires CrossingStored(s, s', id, car, x.frame.timestamp, LastTs(mode, init, car).value, car in s0.db.races[id].form.roster)
    ensures CarTracks(mode, s0, s', id, init + [x], base, c)
  {
    var inputs, times := init + [x], TimesOf(LapsOf(s.db.laps, id, c));
    assert inputs[..|init|] == init && inputs[|init|] == x;
    assert Crosses(mode, x, c) <==> c == car;
    assert times + [] == times;
    if c == car {
      assert HighTs(mode, inputs, c, base) == x.frame.timestamp;
    } else {
      assert HighTs(mode, inputs, c, base) == HighTs(mode, init, c, base);
      assert ExpectedTimes(mode, inputs, c) == ExpectedTimes(mode, init, c);
    }
  }

  lemma OneDispatch(cfg: Config, s: Sys, raw: RawFrame, monoMs: nat, at: int)
    ensures DispatchAll(cfg, s, [raw], monoMs, at) == Dispatch(cfg, s, ToEvent(raw, monoMs, at))
  {
    assert [raw][..0] == [];
  }

  lemma InputStep(cfg: Config, mode: MappingMode, s0: Sys, p: Pipe, id: RaceId, init: seq<Input>, x: Input, base: int)
    requires id in s0.db.races && Tracks(mode, s0, p, id, init, base) && base >= 0
    requires NoClockReset(mode, init + [x], base) && BelowTarget(mode, s0, id, init + [x])
    ensures Tracks(mode, s0, Feed(cfg, mode, p, x), id, init + [x], base)
  {
    assert (init + [x])[..|init|] == init;
    if x.Got? && Readable(mode, p.session, x.frame) && p.session.prevData != Some(x.frame) {
      match x.frame
      case TimerFrame(address, ts) =>
        var c := CarOf(mode, address);
        if c.Some? && c.value in p.session.laps.prevTs {
          MeasuredCrossing(cfg, mode, s0, p, id, init, x, base, c.value);
        } else {
          QuietInput(cfg, mode, s0, p, id, init, x, base);
        }
      case StatusFrame(st) =>
        StatusIsNoLap(mode, p.session.prevStatus, st);
        NonLapsKeepLapState(cfg, p.sys, StatusFrames(mode, p.session.prevStatus, st), x.monoMs, x.at);
        QuietInput(cfg, mode, s0, p, id, init, x, base);
      case UnknownFrame =>
        NonLapsKeepLapState(cfg, p.sys, [RawUnknown], x.monoMs, x.at);
        QuietInput(cfg, mode, s0, p, id, init, x, base);
    } else {
      forall car | Crosses(mode, x, car) && LastTs(mode, init, car).Some? && x.Got? && p.session.prevData == Some(x.frame)
        ensures x.frame.timestamp <= LastTs(mode, init, car).value
      {
        assert Crosses(mode, Got(x.frame, 0, 0), car);
      }
      QuietInput(cfg, mode, s0, p, id, init, x, base);
    }
  }

  lemma {:induction false} EveryInputTracked(cfg: Config, mode: MappingMode, s0: Sys, id: RaceId, inputs: seq<Input>, base: int)
    requires id in s0.db.races && RunsContinuously(s0, id, s0.db.races[id]) && base >= 0
    requires forall car: int :: KnownUpTo(s0.db, id, car, base)
    requires NoClockReset(mode, inputs, base) && BelowTarget(mode, s0, id, inputs)
    ensures Tracks(mode, s0, FeedAll(cfg, mode, Pipe(NEW_SESSION, s0), inputs), id, inputs, base)
  {
    if |inputs| == 0 {
      forall car: int ensures CarTracks(mode, s0, s0, id, inputs, base, car) {
        assert KnownUpTo(s0.db, id, car, base);
        assert TimesOf(LapsOf(s0.db.laps, id, car)) + [] == TimesOf(LapsOf(s0.db.laps, id, car));
      }
    } else {
      var init, x := inputs[..|inputs| - 1], inputs[|inputs| - 1];
      assert inputs == init + [x];
      EveryInputTracked(cfg, mode, s0, id, init, base);
      InputStep(cfg, mode, s0, FeedAll(cfg, mode, Pipe(NEW_SESSION, s0), init), id, init, x, base);
    }
  }

  /**
   * Lap exactness, end to end: feed any frames of any adapter sessions to a running race that stays
   * below its target, with no clock reset. The race still runs, and for every driver the stored laps
   * are numbered 1, 2, 3, ... with the times it had plus the successive distinct crossing differences
   * inside each session, and there is exactly one identity per lap: repeated and first crossings,
   * other cars and all other frames leave no trace.
   */
  lemma LapExactness(cfg: Config, mode: MappingMode, s0: Sys, id: RaceId, inputs: seq<Input>, base: int, car: int)
    requires id in s0.db.races && RunsContinuously(s0, id, s0.db.races[id]) && base >= 0
    requires forall c: int :: KnownUpTo(s0.db, id, c, base)
    requires NoClockReset(mode, inputs, base) && BelowTarget(mode, s0, id, inputs)
    requires car in s0.db.races[id].form.roster
    ensures var s := FeedAll(cfg, mode, Pipe(NEW_SESSION, s0), inputs).sys;
            && s.active == Some(id) && id in s.db.races && s.db.races[id] == s0.db.races[id]
            && Numbered(LapsOf(s.db.laps, id, car))
            && TimesOf(LapsOf(s.db.laps, id, car)) == TimesOf(LapsOf(s0.db.laps, id, car)) + ExpectedTimes(mode, inputs, car)
            && |IdentitiesOf(s.db.identities, id, car)| == |LapsOf(s.db.laps, id, car)|
  {
    EveryInputTracked(cfg, mode, s0, id, inputs, base);
    var s := FeedAll(cfg, mode, Pipe(NEW_SESSION, s0), inputs).sys;
    assert CarTracks(mode, s0, s, id, inputs, base, car) && CarContinuous(s.db, id, car);
  }
}
