/** Control Unit frames into canonical events: slot mapping, lap timing from crossings, status diffs. */
module LiveAdapter {
  import opened Base
  import opened Telemetry

  datatype MappingMode = ZeroBased | OneBased | Explicit

  /** The canonical car of a raw slot in a session that starts without a table. */
  function CarOf(mode: MappingMode, slot: int): Option<int> {
    var car := if mode.ZeroBased? then slot + 1 else slot;
    if mode.Explicit? || !(1 <= car <= 6) then None else Some(car)
  }

  /** One lookup against a table of earlier decisions: the answer and the table afterwards. */
  function Normalize(mode: MappingMode, table: map<int, int>, locked: bool, slot: int): (Option<int>, map<int, int>) {
    if slot in table then (if 1 <= table[slot] <= 6 then Some(table[slot]) else None, table)
    else if locked || CarOf(mode, slot).None? then (None, table)
    else (CarOf(mode, slot), table[slot := CarOf(mode, slot).value])
  }

  class CarSlotMapping {
    const mode: MappingMode
    var slotToCar: map<int, int>
    var locked: bool

    constructor (mode: MappingMode)
      ensures this.mode == mode && slotToCar == map[] && !locked
    {
      this.mode, slotToCar, locked := mode, map[], false;
    }

    method NormalizeSlot(slot: int) returns (car: Option<int>)
      modifies this
      ensures (car, slotToCar) == Normalize(mode, old(slotToCar), locked, slot) && locked == old(locked)
    {
      if slot in slotToCar {
        car := if 1 <= slotToCar[slot] <= 6 then Some(slotToCar[slot]) else None;
      } else if locked || mode.Explicit? {
        car := None;
      } else {
        var candidate := if mode.ZeroBased? then slot + 1 else slot;
        if !(1 <= candidate <= 6) { return None; }
        slotToCar := slotToCar[slot := candidate];
        car := Some(candidate);
      }
    }
  }

  /** Every decision in the table is the one the mode would make. */
  predicate Consistent(mode: MappingMode, table: map<int, int>) {
    forall slot <- table :: CarOf(mode, slot) == Some(table[slot])
  }

  /** A session that starts with an empty, unlocked table always answers by the mode alone. */
  lemma MappingIsStable(mode: MappingMode, table: map<int, int>, slot: int)
    requires Consistent(mode, table)
    ensures Normalize(mode, table, false, slot).0 == CarOf(mode, slot)
    ensures Consistent(mode, Normalize(mode, table, false, slot).1)
  {
  }

  /** Whatever the mode, table and lock: an answer, once given, is given again after any other lookup. */
  lemma AnswersNeverChange(mode: MappingMode, table: map<int, int>, locked: bool, slot: int, other: int, locked': bool)
    requires Normalize(mode, table, locked, slot).0.Some?
    ensures var t1 := Normalize(mode, table, locked, slot).1;
            var t2 := Normalize(mode, t1, locked', other).1;
            Normalize(mode, t2, locked', slot).0 == Normalize(mode, table, locked, slot).0
  {
  }

  /** Zero-based slots 0 to 5 and one-based slots 1 to 6 are cars 1 to 6, in order; no other slot is a car's. */
  lemma SlotsOfCars(mode: MappingMode, slot: int)
    ensures mode.ZeroBased? ==> (CarOf(mode, slot).Some? <==> 0 <= slot <= 5) && (0 <= slot <= 5 ==> CarOf(mode, slot) == Some(slot + 1))
    ensures mode.OneBased? ==> (CarOf(mode, slot).Some? <==> 1 <= slot <= 6) && (1 <= slot <= 6 ==> CarOf(mode, slot) == Some(slot))
    ensures mode.Explicit? ==> CarOf(mode, slot).None?
  {
  }

  /** A locked table takes no new slot: what it has it answers, anything else is no car. */
  lemma LockedTakesNothing(mode: MappingMode, table: map<int, int>, slot: int)
    ensures Normalize(mode, table, true, slot).1 == table
    ensures Normalize(mode, table, true, slot).0
            == if slot in table && 1 <= table[slot] <= 6 then Some(table[slot]) else None
  {
  }

  lemma CarOfIsInjective(mode: MappingMode, a: int, b: int)
    requires CarOf(mode, a).Some? && CarOf(mode, a) == CarOf(mode, b)
    ensures a == b
  {
  }

  // ----- frames

  datatype CuStatus = CuStatus(fuel: seq<int>, start: int, pit: seq<bool>, speed: Option<seq<real>>)

  datatype Frame = TimerFrame(address: int, timestamp: int) | StatusFrame(status: CuStatus) | UnknownFrame

  datatype RawFrame =
    | RawLap(car: int, number: int, timeMs: int, cuMs: int)
    | RawFuel(car: int, percent: real)
    | RawPit(car: int, inPit: bool)
    | RawSpeed(car: int, kmh: real)
    | RawRaceState(state: RaceState)
    | RawUnknown

  function StartState(start: int): RaceState {
    if 1 <= start <= 5 then Countdown else if start == 6 then RaceRunning else if start == 7 then RacePaused else Idle
  }

  function FuelPercent(level: int): real { level as real * 100.0 / 15.0 }

  function Clamp(x: real, lo: real, hi: real): real { if x < lo then lo else if x > hi then hi else x }

  function AtLeastZero(x: real): real { if x > 0.0 then x else 0.0 }

  /** The event a raw frame becomes; a lap that the event model would refuse is reported as not supported. */
  function ToEvent(f: RawFrame, monoMs: nat, at: int): Event {
    match f
    case RawLap(car, number, timeMs, cuMs) =>
      if 1 <= car <= 8 && number >= 1 && timeMs >= 0 && cuMs >= 0
      then Event(Some(car), monoMs, at, LapData(number, timeMs, Some(cuMs)))
      else Event(None, monoMs, at, NotSupported)
    case RawFuel(car, percent) => Event(Some(car), monoMs, at, FuelData(Clamp(percent, 0.0, 100.0)))
    case RawPit(car, inPit) => Event(Some(car), monoMs, at, PitData(inPit))
    case RawSpeed(car, kmh) => Event(Some(car), monoMs, at, SpeedData(AtLeastZero(kmh)))
    case RawRaceState(state) => Event(None, monoMs, at, RaceStateData(state))
    case RawUnknown => Event(None, monoMs, at, NotSupported)
  }

  /** Start codes 1 to 5 are the lights, 6 and 7 running and paused, anything else idle. */
  lemma StartCodes(start: int)
    ensures StartState(0) == Idle && StartState(6) == RaceRunning && StartState(7) == RacePaused
    ensures 1 <= start <= 5 ==> StartState(start) == Countdown
    ensures start < 0 || start > 7 ==> StartState(start) == Idle
  {
  }

  /** Fuel levels 0 to 15 are shown as 0 to 100 percent, in proportion; anything beyond is cut off. */
  lemma FuelIsProportional(level: int)
    ensures 0 <= level <= 15 ==> Clamp(FuelPercent(level), 0.0, 100.0) * 15.0 == level as real * 100.0
    ensures level < 0 ==> Clamp(FuelPercent(level), 0.0, 100.0) == 0.0
    ensures level > 15 ==> Clamp(FuelPercent(level), 0.0, 100.0) == 100.0
  {
  }

  // ----- lap timing

  /** Crossing times of the current session and laps numbered so far, per car. */
  datatype Laps = Laps(prevTs: map<int, int>, counts: map<int, int>)

  const NO_LAPS: Laps := Laps(map[], map[])

  function Count(counts: map<int, int>, car: int): int { if car in counts then counts[car] else 0 }

  function TimerLaps(mode: MappingMode, laps: Laps, address: int, ts: int): Laps {
    match CarOf(mode, address)
    case None => laps
    case Some(car) => Laps(
      laps.prevTs[car := ts],
      if car in laps.prevTs then laps.counts[car := Count(laps.counts, car) + 1] else laps.counts)
  }

  /** The first crossing of a car in a session has nothing to be measured from. */
  function TimerFrames(mode: MappingMode, laps: Laps, address: int, ts: int): seq<RawFrame> {
    match CarOf(mode, address)
    case None => []
    case Some(car) =>
      if car in laps.prevTs then [RawLap(car, Count(laps.counts, car) + 1, ts - laps.prevTs[car], ts)] else []
  }

  // ----- status diffs, slot by slot

  /** Every slot below n that is some car's was among the `had` slots of the status before. */
  predicate Covers(mode: MappingMode, had: nat, n: nat) {
    forall slot :: 0 <= slot < n && CarOf(mode, slot).Some? ==> slot < had
  }

  function FuelFrames(mode: MappingMode, prev: Option<CuStatus>, st: CuStatus, n: nat): seq<RawFrame>
    requires n <= |st.fuel| && (prev.Some? ==> Covers(mode, |prev.value.fuel|, n))
  {
    if n == 0 then []
    else
      var before := FuelFrames(mode, prev, st, n - 1);
      match CarOf(mode, n - 1)
      case None => before
      case Some(car) =>
        if prev.None? || prev.value.fuel[n - 1] != st.fuel[n - 1]
        then before + [RawFuel(car, FuelPercent(st.fuel[n - 1]))] else before
  }

  function PitFrames(mode: MappingMode, prev: Option<CuStatus>, st: CuStatus, n: nat): seq<RawFrame>
    requires n <= |st.pit| && (prev.Some? ==> Covers(mode, |prev.value.pit|, n))
  {
    if n == 0 then []
    else
      var before := PitFrames(mode, prev, st, n - 1);
      match CarOf(mode, n - 1)
      case None => before
      case Some(car) =>
        if prev.None? || prev.value.pit[n - 1] != st.pit[n - 1]
        then before + [RawPit(car, st.pit[n - 1])] else before
  }

  /** The speed a status reports for a slot; a status may carry no speeds, or fewer than the last one. */
  function SpeedAt(st: Option<CuStatus>, slot: nat): Option<real> {
    if st.Some? && st.value.speed.Some? && slot < |st.value.speed.value| then Some(st.value.speed.value[slot]) else None
  }

  function SpeedFrames(mode: MappingMode, prev: Option<CuStatus>, st: CuStatus, n: nat): seq<RawFrame>
    requires st.speed.Some? && n <= |st.speed.value|
  {
    if n == 0 then []
    else
      var before := SpeedFrames(mode, prev, st, n - 1);
      match CarOf(mode, n - 1)
      case None => before
      case Some(car) =>
        if SpeedAt(prev, n - 1) != SpeedAt(Some(st), n - 1)
        then before + [RawSpeed(car, AtLeastZero(st.speed.value[n - 1]))] else before
  }

  function RaceFrames(prev: Option<CuStatus>, st: CuStatus): seq<RawFrame> {
    if prev.None? || prev.value.start != st.start then [RawRaceState(StartState(st.start))] else []
  }

  /** A status can be compared with the one before unless it has a car's slot that the other did not have. */
  predicate Comparable(mode: MappingMode, prev: CuStatus, st: CuStatus) {
    Covers(mode, |prev.fuel|, |st.fuel|) && Covers(mode, |prev.pit|, |st.pit|)
  }

  function StatusFrames(mode: MappingMode, prev: Option<CuStatus>, st: CuStatus): seq<RawFrame>
    requires prev.Some? ==> Comparable(mode, prev.value, st)
  {
    FuelFrames(mode, prev, st, |st.fuel|) + PitFrames(mode, prev, st, |st.pit|)
    + (if st.speed.Some? then SpeedFrames(mode, prev, st, |st.speed.value|) else [])
    + RaceFrames(prev, st)
  }

  // ----- differences, and nothing but differences

  /** A fuel frame is emitted for a car exactly when its slot's level is new or has changed, and says that level. */
  lemma {:induction false} FuelOnlyOnChange(mode: MappingMode, prev: Option<CuStatus>, st: CuStatus, n: nat, f: RawFrame)
    requires n <= |st.fuel| && (prev.Some? ==> Covers(mode, |prev.value.fuel|, n))
    ensures f in FuelFrames(mode, prev, st, n)
       <==> exists i: nat :: i < n && CarOf(mode, i).Some? && (prev.None? || prev.value.fuel[i] != st.fuel[i])
                             && f == RawFuel(CarOf(mode, i).value, FuelPercent(st.fuel[i]))
  {
    if n > 0 { FuelOnlyOnChange(mode, prev, st, n - 1, f); }
  }

  lemma {:induction false} PitOnlyOnChange(mode: MappingMode, prev: Option<CuStatus>, st: CuStatus, n: nat, f: RawFrame)
    requires n <= |st.pit| && (prev.Some? ==> Covers(mode, |prev.value.pit|, n))
    ensures f in PitFrames(mode, prev, st, n)
       <==> exists i: nat :: i < n && CarOf(mode, i).Some? && (prev.None? || prev.value.pit[i] != st.pit[i])
                             && f == RawPit(CarOf(mode, i).value, st.pit[i])
  {
    if n > 0 { PitOnlyOnChange(mode, prev, st, n - 1, f); }
  }

  lemma {:induction false} SpeedOnlyOnChange(mode: MappingMode, prev: Option<CuStatus>, st: CuStatus, n: nat, f: RawFrame)
    requires st.speed.Some? && n <= |st.speed.value|
    ensures f in SpeedFrames(mode, prev, st, n)
       <==> exists i: nat :: i < n && CarOf(mode, i).Some? && SpeedAt(prev, i) != Some(st.speed.value[i])
                             && f == RawSpeed(CarOf(mode, i).value, AtLeastZero(st.speed.value[i]))
  {
    if n > 0 { SpeedOnlyOnChange(mode, prev, st, n - 1, f); }
  }

  // ----- one adapter session

  /** Everything a session remembers between polls. */
  datatype Session = Session(prevData: Option<Frame>, prevStatus: Option<CuStatus>, laps: Laps)

  const NEW_SESSION: Session := Session(None, None, NO_LAPS)

  /** Translating any other frame raises, which ends the session. */
  predicate Readable(mode: MappingMode, s: Session, f: Frame) {
    f.StatusFrame? && s.prevStatus.Some? ==> Comparable(mode, s.prevStatus.value, f.status)
  }

  /** A frame equal to the one before it is skipped; any other is translated. */
  function Poll(mode: MappingMode, s: Session, f: Frame): (Session, seq<RawFrame>)
    requires Readable(mode, s, f)
  {
    if s.prevData == Some(f) then (s, [])
    else
      match f
      case TimerFrame(address, ts) =>
        (Session(Some(f), s.prevStatus, TimerLaps(mode, s.laps, address, ts)), TimerFrames(mode, s.laps, address, ts))
      case StatusFrame(st) => (Session(Some(f), Some(st), s.laps), StatusFrames(mode, s.prevStatus, st))
      case UnknownFrame => (s.(prevData := Some(f)), [RawUnknown])
  }

  /** A frame of an unknown kind is reported, once until another frame comes, and moves no lap or status. */
  lemma UnknownIsReported(mode: MappingMode, s: Session)
    ensures var (s', raws) := Poll(mode, s, UnknownFrame);
            && (s.prevData != Some(UnknownFrame) ==> raws == [RawUnknown])
            && s'.laps == s.laps && s'.prevStatus == s.prevStatus && Poll(mode, s', UnknownFrame) == (s', [])
  {
  }

  class LiveCarreraAdapter {
    const mapping: CarSlotMapping
    var prevData: Option<Frame>
    var prevStatus: Option<CuStatus>
    var lapCounts: map<int, int>
    var prevLapTs: map<int, int>

    constructor (mode: MappingMode)
      ensures fresh(mapping) && mapping.mode == mode && Reading() && State() == NEW_SESSION
    {
      mapping := new CarSlotMapping(mode);
      prevData, prevStatus, lapCounts, prevLapTs := None, None, map[], map[];
    }

    ghost predicate Valid()
      reads this, mapping
    {
      !mapping.locked && Consistent(mapping.mode, mapping.slotToCar)
    }

    /** While its read loop runs, the last frame was translated: a status is the one to compare with. */
    ghost predicate Reading()
      reads this, mapping
    {
      Valid() && (prevData.Some? && prevData.value.StatusFrame? ==> prevStatus == Some(prevData.value.status))
    }

    ghost function State(): Session
      reads this
    {
      Session(prevData, prevStatus, Laps(prevLapTs, lapCounts))
    }

    method CarFor(slot: int) returns (car: Option<int>)
      requires Valid()
      modifies mapping
      ensures Valid() && car == CarOf(mapping.mode, slot)
    {
      MappingIsStable(mapping.mode, mapping.slotToCar, slot);
      car := mapping.NormalizeSlot(slot);
    }

    method TranslateTimer(address: int, ts: int) returns (frames: seq<RawFrame>)
      requires Valid()
      modifies this, mapping
      ensures Valid() && prevData == old(prevData) && prevStatus == old(prevStatus)
      ensures Laps(prevLapTs, lapCounts) == TimerLaps(mapping.mode, old(State()).laps, address, ts)
      ensures frames == TimerFrames(mapping.mode, old(State()).laps, address, ts)
    {
      var car := CarFor(address);
      if car.None? { return []; }
      var c := car.value;
      if c !in prevLapTs {
        prevLapTs := prevLapTs[c := ts];
        return [];
      }
      var lapTime := ts - prevLapTs[c];
      prevLapTs := prevLapTs[c := ts];
      var n := (if c in lapCounts then lapCounts[c] else 0) + 1;
      lapCounts := lapCounts[c := n];
      frames := [RawLap(c, n, lapTime, ts)];
    }

    /** Raises (`ok` false) at the first car's slot that the previous status did not have. */
    method TranslateStatus(st: CuStatus) returns (ok: bool, out: seq<RawFrame>)
      requires Valid()
      modifies this, mapping
      ensures Valid() && prevData == old(prevData) && prevLapTs == old(prevLapTs) && lapCounts == old(lapCounts)
      ensures ok == (old(prevStatus).Some? ==> Comparable(mapping.mode, old(prevStatus).value, st))
      ensures prevStatus == if ok then Some(st) else old(prevStatus)
      ensures ok ==> out == StatusFrames(mapping.mode, old(prevStatus), st)
    {
      var prev := prevStatus;
      out := [];
      for i := 0 to |st.fuel|
        invariant Valid() && (prev.Some? ==> Covers(mapping.mode, |prev.value.fuel|, i)) && out == FuelFrames(mapping.mode, prev, st, i)
        invariant prevStatus == prev && prevData == old(prevData) && prevLapTs == old(prevLapTs) && lapCounts == old(lapCounts)
      {
        var car := CarFor(i);
        if car.Some? {
          if prev.Some? && i >= |prev.value.fuel| { return false, []; }
          if prev.None? || prev.value.fuel[i] != st.fuel[i] { out := out + [RawFuel(car.value, FuelPercent(st.fuel[i]))]; }
        }
      }
      var pits := [];
      for i := 0 to |st.pit|
        invariant Valid() && (prev.Some? ==> Covers(mapping.mode, |prev.value.pit|, i)) && pits == PitFrames(mapping.mode, prev, st, i)
        invariant prevStatus == prev && prevData == old(prevData) && prevLapTs == old(prevLapTs) && lapCounts == old(lapCounts)
      {
        var car := CarFor(i);
        if car.Some? {
          if prev.Some? && i >= |prev.value.pit| { return false, []; }
          if prev.None? || prev.value.pit[i] != st.pit[i] { pits := pits + [RawPit(car.value, st.pit[i])]; }
        }
      }
      var speeds := TranslateSpeeds(st);
      out := out + pits + speeds;
      if prev.None? || prev.value.start != st.start {
        out := out + [RawRaceState(StartState(st.start))];
      }
      prevStatus := Some(st);
      ok := true;
    }

    /** The optional speeds: a slot without an earlier value counts as changed. */
    method TranslateSpeeds(st: CuStatus) returns (speeds: seq<RawFrame>)
      requires Valid()
      modifies mapping
      ensures Valid()
      ensures speeds == if st.speed.Some? then SpeedFrames(mapping.mode, prevStatus, st, |st.speed.value|) else []
    {
      speeds := [];
      if st.speed.None? { return; }
      for i := 0 to |st.speed.value|
        invariant Valid() && speeds == SpeedFrames(mapping.mode, prevStatus, st, i)
      {
        var car := CarFor(i);
        if car.Some? && SpeedAt(prevStatus, i) != Some(st.speed.value[i]) {
          speeds := speeds + [RawSpeed(car.value, AtLeastZero(st.speed.value[i]))];
        }
      }
    }

    /** One successful poll of the read loop; `ok` is false when translating the frame raises, which ends the loop. */
    method OnFrame(f: Frame) returns (ok: bool, frames: seq<RawFrame>)
      requires Reading()
      modifies this, mapping
      ensures Valid() && (ok ==> Reading())
      ensures ok == Readable(mapping.mode, old(State()), f)
      ensures if ok then (State(), frames) == Poll(mapping.mode, old(State()), f) else frames == []
    {
      frames := [];
      if prevData == Some(f) { return true, []; }
      prevData := Some(f);
      match f
      case TimerFrame(address, ts) =>
        frames := TranslateTimer(address, ts);
        ok := true;
      case StatusFrame(st) =>
        ok, frames := TranslateStatus(st);
        if !ok { frames := []; }
      case UnknownFrame => ok, frames := true, [RawUnknown];
    }
  }
}
