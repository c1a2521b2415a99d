/** Diffing status frames and folding the diffs into the dashboard shows exactly the latest status. */
module LiveDashboard {
  import opened Base
  import opened Telemetry
  import opened LiveAdapter
  import opened StateManager

  /** A frame read by the adapter, with the clock readings stamped on its events. */
  datatype Polled = Polled(frame: Frame, monoMs: nat, at: int)

  function Shown(d: Dash, raws: seq<RawFrame>, monoMs: nat, at: int): Dash {
    if |raws| == 0 then d else Applied(Shown(d, raws[..|raws| - 1], monoMs, at), ToEvent(raws[|raws| - 1], monoMs, at))
  }

  /** Adapter and dashboard after reading the frames of one session; one that cannot be read ends it. */
  function Watch(mode: MappingMode, polls: seq<Polled>): (Session, Dash) {
    if |polls| == 0 then (NEW_SESSION, EMPTY_DASH)
    else
      var (s, d) := Watch(mode, polls[..|polls| - 1]);
      var p := polls[|polls| - 1];
      if !Readable(mode, s, p.frame) then (s, d)
      else (Poll(mode, s, p.frame).0, Shown(d, Poll(mode, s, p.frame).1, p.monoMs, p.at))
  }

  function FuelShown(level: int): real { Clamp(FuelPercent(level), 0.0, 100.0) }

  // ----- what a status frame can change, seen from one car

  /** The part of the dashboard that status frames report, for one car. */
  datatype Lamp = Lamp(fuel: Option<real>, inPit: bool, speed: Option<real>, race: RaceState)

  function LampOf(d: Dash, car: int): Lamp { Lamp(CarIn(d, car).fuel, CarIn(d, car).inPit, CarIn(d, car).speed, d.race) }

  function LampAfter(l: Lamp, r: RawFrame, car: int): Lamp {
    match r
    case RawFuel(c, percent) => if c == car then l.(fuel := Some(Clamp(percent, 0.0, 100.0))) else l
    case RawPit(c, inPit) => if c == car then l.(inPit := inPit) else l
    case RawSpeed(c, kmh) => if c == car then l.(speed := Some(AtLeastZero(kmh))) else l
    case RawRaceState(state) => l.(race := state)
    case _ => l
  }

  function LampFold(l: Lamp, raws: seq<RawFrame>, car: int): Lamp {
    if |raws| == 0 then l else LampAfter(LampFold(l, raws[..|raws| - 1], car), raws[|raws| - 1], car)
  }

  lemma LampStep(d: Dash, r: RawFrame, monoMs: nat, at: int, car: int)
    requires 1 <= car <= 6
    ensures LampOf(Applied(d, ToEvent(r, monoMs, at)), car) == LampAfter(LampOf(d, car), r, car)
  {
  }

  lemma {:induction false} LampShown(d: Dash, raws: seq<RawFrame>, monoMs: nat, at: int, car: int)
    requires 1 <= car <= 6
    ensures LampOf(Shown(d, raws, monoMs, at), car) == LampFold(LampOf(d, car), raws, car)
  {
    if |raws| > 0 {
      LampShown(d, raws[..|raws| - 1], monoMs, at, car);
      LampStep(Shown(d, raws[..|raws| - 1], monoMs, at), raws[|raws| - 1], monoMs, at, car);
    }
  }

  lemma {:induction false} FoldConcat(l: Lamp, a: seq<RawFrame>, b: seq<RawFrame>, car: int)
    ensures LampFold(l, a + b, car) == LampFold(LampFold(l, a, car), b, car)
  {
    if |b| == 0 {
      assert a + b == a;
    } else {
      assert (a + b)[..|a + b| - 1] == a + b[..|b| - 1];
      FoldConcat(l, a, b[..|b| - 1], car);
    }
  }

  lemma FoldSnoc(l: Lamp, a: seq<RawFrame>, r: RawFrame, car: int)
    ensures LampFold(l, a + [r], car) == LampAfter(LampFold(l, a, car), r, car)
  {
    assert (a + [r])[..|a|] == a;
  }

  // ----- the parts of a status diff, seen from the car of slot i

  /** Slot n - 1 adds at most one frame, and only its own car sees it. */
  lemma FuelStep(mode: MappingMode, prev: Option<CuStatus>, st: CuStatus, n: nat, l: Lamp, car: int)
    requires 0 < n <= |st.fuel| && (prev.Some? ==> Covers(mode, |prev.value.fuel|, n))
    ensures LampFold(l, FuelFrames(mode, prev, st, n), car)
            == var before := LampFold(l, FuelFrames(mode, prev, st, n - 1), car);
               if CarOf(mode, n - 1) == Some(car) && (prev.None? || prev.value.fuel[n - 1] != st.fuel[n - 1])
               then before.(fuel := Some(FuelShown(st.fuel[n - 1]))) else before
  {
    var before := FuelFrames(mode, prev, st, n - 1);
    match CarOf(mode, n - 1)
    case None =>
    case Some(c) => if prev.None? || prev.value.fuel[n - 1] != st.fuel[n - 1] { FoldSnoc(l, before, RawFuel(c, FuelPercent(st.fuel[n - 1])), car); }
  }

  /** What the first n slots leave, slot by slot. */
  function FuelLamp(mode: MappingMode, prev: Option<CuStatus>, st: CuStatus, n: nat, l: Lamp, car: int): Lamp
    requires n <= |st.fuel| && (prev.Some? ==> Covers(mode, |prev.value.fuel|, n))
  {
    if n == 0 then l
    else
      var before := FuelLamp(mode, prev, st, n - 1, l, car);
      if CarOf(mode, n - 1) == Some(car) && (prev.None? || prev.value.fuel[n - 1] != st.fuel[n - 1]) then before.(fuel := Some(FuelShown(st.fuel[n - 1]))) else before
  }

  lemma {:induction false} FuelFold(mode: MappingMode, prev: Option<CuStatus>, st: CuStatus, n: nat, l: Lamp, car: int)
    requires n <= |st.fuel| && (prev.Some? ==> Covers(mode, |prev.value.fuel|, n))
    ensures LampFold(l, FuelFrames(mode, prev, st, n), car) == FuelLamp(mode, prev, st, n, l, car)
  {
    if n > 0 {
      FuelFold(mode, prev, st, n - 1, l, car);
      FuelStep(mode, prev, st, n, l, car);
    }
  }

  /** Only the slot of the car counts. */
  lemma {:induction false} FuelPart(mode: MappingMode, prev: Option<CuStatus>, st: CuStatus, n: nat, l: Lamp, i: nat, car: int)
    requires n <= |st.fuel| && (prev.Some? ==> Covers(mode, |prev.value.fuel|, n)) && CarOf(mode, i) == Some(car)
    ensures FuelLamp(mode, prev, st, n, l, car) == if i < n && (prev.None? || prev.value.fuel[i] != st.fuel[i]) then l.(fuel := Some(FuelShown(st.fuel[i]))) else l
  {
    if n > 0 {
      FuelPart(mode, prev, st, n - 1, l, i, car);
      if CarOf(mode, n - 1) == Some(car) { CarOfIsInjective(mode, i, n - 1); }
    }
  }

  /** Slot n - 1 adds at most one frame, and only its own car sees it. */
  lemma PitStep(mode: MappingMode, prev: Option<CuStatus>, st: CuStatus, n: nat, l: Lamp, car: int)
    requires 0 < n <= |st.pit| && (prev.Some? ==> Covers(mode, |prev.value.pit|, n))
    ensures LampFold(l, PitFrames(mode, prev, st, n), car)
            == var before := LampFold(l, PitFrames(mode, prev, st, n - 1), car);
               if CarOf(mode, n - 1) == Some(car) && (prev.None? || prev.value.pit[n - 1] != st.pit[n - 1])
               then before.(inPit := st.pit[n - 1]) else before
  {
    var before := PitFrames(mode, prev, st, n - 1);
    match CarOf(mode, n - 1)
    case None =>
    case Some(c) => if prev.None? || prev.value.pit[n - 1] != st.pit[n - 1] { FoldSnoc(l, before, RawPit(c, st.pit[n - 1]), car); }
  }

  /** What the first n slots leave, slot by slot. */
  function PitLamp(mode: MappingMode, prev: Option<CuStatus>, st: CuStatus, n: nat, l: Lamp, car: int): Lamp
    requires n <= |st.pit| && (prev.Some? ==> Covers(mode, |prev.value.pit|, n))
  {
    if n == 0 then l
    else
      var before := PitLamp(mode, prev, st, n - 1, l, car);
      if CarOf(mode, n - 1) == Some(car) && (prev.None? || prev.value.pit[n - 1] != st.pit[n - 1]) then before.(inPit := st.pit[n - 1]) else before
  }

  lemma {:induction false} PitFold(mode: MappingMode, prev: Option<CuStatus>, st: CuStatus, n: nat, l: Lamp, car: int)
    requires n <= |st.pit| && (prev.Some? ==> Covers(mode, |prev.value.pit|, n))
    ensures LampFold(l, PitFrames(mode, prev, st, n), car) == PitLamp(mode, prev, st, n, l, car)
  {
    if n > 0 {
      PitFold(mode, prev, st, n - 1, l, car);
      PitStep(mode, prev, st, n, l, car);
    }
  }

  /** Only the slot of the car counts. */
  lemma {:induction false} PitPart(mode: MappingMode, prev: Option<CuStatus>, st: CuStatus, n: nat, l: Lamp, i: nat, car: int)
    requires n <= |st.pit| && (prev.Some? ==> Covers(mode, |prev.value.pit|, n)) && CarOf(mode, i) == Some(car)
    ensures PitLamp(mode, prev, st, n, l, car) == if i < n && (prev.None? || prev.value.pit[i] != st.pit[i]) then l.(inPit := st.pit[i]) else l
  {
    if n > 0 {
      PitPart(mode, prev, st, n - 1, l, i, car);
      if CarOf(mode, n - 1) == Some(car) { CarOfIsInjective(mode, i, n - 1); }
    }
  }

  /** Slot n - 1 adds at most one frame, and only its own car sees it. */
  lemma SpeedStep(mode: MappingMode, prev: Option<CuStatus>, st: CuStatus, n: nat, l: Lamp, car: int)
    requires st.speed.Some? && 0 < n <= |st.speed.value|
    ensures LampFold(l, SpeedFrames(mode, prev, st, n), car)
            == var before := LampFold(l, SpeedFrames(mode, prev, st, n - 1), car);
               if CarOf(mode, n - 1) == Some(car) && (SpeedAt(prev, n - 1) != SpeedAt(Some(st), n - 1))
               then before.(speed := Some(AtLeastZero(st.speed.value[n - 1]))) else before
  {
    var before := SpeedFrames(mode, prev, st, n - 1);
    match CarOf(mode, n - 1)
    case None =>
    case Some(c) => if SpeedAt(prev, n - 1) != SpeedAt(Some(st), n - 1) { FoldSnoc(l, before, RawSpeed(c, AtLeastZero(st.speed.value[n - 1])), car); }
  }

  /** What the first n slots leave, slot by slot. */
  function SpeedLamp(mode: MappingMode, prev: Option<CuStatus>, st: CuStatus, n: nat, l: Lamp, car: int): Lamp
    requires st.speed.Some? && n <= |st.speed.value|
  {
    if n == 0 then l
    else
      var before := SpeedLamp(mode, prev, st, n - 1, l, car);
      if CarOf(mode, n - 1) == Some(car) && (SpeedAt(prev, n - 1) != SpeedAt(Some(st), n - 1)) then before.(speed := Some(AtLeastZero(st.speed.value[n - 1]))) else before
  }

  lemma {:induction false} SpeedFold(mode: MappingMode, prev: Option<CuStatus>, st: CuStatus, n: nat, l: Lamp, car: int)
    requires st.speed.Some? && n <= |st.speed.value|
    ensures LampFold(l, SpeedFrames(mode, prev, st, n), car) == SpeedLamp(mode, prev, st, n, l, car)
  {
    if n > 0 {
      SpeedFold(mode, prev, st, n - 1, l, car);
      SpeedStep(mode, prev, st, n, l, car);
    }
  }

  /** Only the slot of the car counts. */
  lemma {:induction false} SpeedPart(mode: MappingMode, prev: Option<CuStatus>, st: CuStatus, n: nat, l: Lamp, i: nat, car: int)
    requires st.speed.Some? && n <= |st.speed.value| && CarOf(mode, i) == Some(car)
    ensures SpeedLamp(mode, prev, st, n, l, car) == if i < n && (SpeedAt(prev, i) != SpeedAt(Some(st), i)) then l.(speed := Some(AtLeastZero(st.speed.value[i]))) else l
  {
    if n > 0 {
      SpeedPart(mode, prev, st, n - 1, l, i, car);
      if CarOf(mode, n - 1) == Some(car) { CarOfIsInjective(mode, i, n - 1); }
    }
  }

  lemma FoldInFourParts(l: Lamp, a: seq<RawFrame>, b: seq<RawFrame>, c: seq<RawFrame>, e: seq<RawFrame>, car: int)
    ensures LampFold(l, a + b + c + e, car) == LampFold(LampFold(LampFold(LampFold(l, a, car), b, car), c, car), e, car)
  {
    FoldConcat(l, a, b, car);
    FoldConcat(l, a + b, c, car);
    FoldConcat(l, a + b + c, e, car);
  }

  lemma RacePart(prev: Option<CuStatus>, st: CuStatus, l: Lamp, car: int)
    requires prev.Some? ==> l.race == StartState(prev.value.start)
    ensures LampFold(l, RaceFrames(prev, st), car) == l.(race := StartState(st.start))
  {
    if prev.None? || prev.value.start != st.start {
      FoldSnoc(l, [], RawRaceState(StartState(st.start)), car);
      assert [] + [RawRaceState(StartState(st.start))] == RaceFrames(prev, st);
    }
  }

  function SpeedsOf(mode: MappingMode, prev: Option<CuStatus>, st: CuStatus): seq<RawFrame> {
    if st.speed.Some? then SpeedFrames(mode, prev, st, |st.speed.value|) else []
  }

  lemma SpeedsPart(mode: MappingMode, prev: Option<CuStatus>, st: CuStatus, l: Lamp, i: nat, car: int)
    requires CarOf(mode, i) == Some(car)
    ensures LampFold(l, SpeedsOf(mode, prev, st), car) == l.(speed :=
              if SpeedAt(Some(st), i).Some? && SpeedAt(prev, i) != SpeedAt(Some(st), i) then ShownSpeed(SpeedAt(Some(st), i)) else l.speed)
  {
    if st.speed.Some? {
      SpeedFold(mode, prev, st, |st.speed.value|, l, car);
      SpeedPart(mode, prev, st, |st.speed.value|, l, i, car);
    }
  }

  /** What the diff of a whole status leaves for the car of slot i. */
  lemma StatusPart(mode: MappingMode, prev: Option<CuStatus>, st: CuStatus, l: Lamp, i: nat, car: int)
    requires prev.Some? ==> Comparable(mode, prev.value, st) && l.race == StartState(prev.value.start)
    requires CarOf(mode, i) == Some(car)
    ensures LampFold(l, StatusFrames(mode, prev, st), car) == Lamp(
      if i < |st.fuel| && (prev.None? || prev.value.fuel[i] != st.fuel[i]) then Some(FuelShown(st.fuel[i])) else l.fuel,
      if i < |st.pit| && (prev.None? || prev.value.pit[i] != st.pit[i]) then st.pit[i] else l.inPit,
      if SpeedAt(Some(st), i).Some? && SpeedAt(prev, i) != SpeedAt(Some(st), i) then ShownSpeed(SpeedAt(Some(st), i)) else l.speed,
      StartState(st.start))
  {
    var fuel, pit := FuelFrames(mode, prev, st, |st.fuel|), PitFrames(mode, prev, st, |st.pit|);
    var speed, race := SpeedsOf(mode, prev, st), RaceFrames(prev, st);
    var l1 := LampFold(l, fuel, car);
    var l2 := LampFold(l1, pit, car);
    var l3 := LampFold(l2, speed, car);
    assert StatusFrames(mode, prev, st) == fuel + pit + speed + race;
    FoldInFourParts(l, fuel, pit, speed, race, car);
    FuelFold(mode, prev, st, |st.fuel|, l, car);
    PitFold(mode, prev, st, |st.pit|, l1, car);
    FuelPart(mode, prev, st, |st.fuel|, l, i, car);
    PitPart(mode, prev, st, |st.pit|, l1, i, car);
    SpeedsPart(mode, prev, st, l2, i, car);
    RacePart(prev, st, l3, car);
  }

  // ----- the direct view

  function LastStatus(polls: seq<Polled>): Option<CuStatus> {
    if |polls| == 0 then None
    else if polls[|polls| - 1].frame.StatusFrame? then Some(polls[|polls| - 1].frame.status)
    else LastStatus(polls[..|polls| - 1])
  }

  /** The last speed any status carried for a slot. */
  function LastSpeed(polls: seq<Polled>, slot: nat): Option<real> {
    if |polls| == 0 then None
    else
      var f := polls[|polls| - 1].frame;
      if f.StatusFrame? && SpeedAt(Some(f.status), slot).Some? then SpeedAt(Some(f.status), slot)
      else LastSpeed(polls[..|polls| - 1], slot)
  }

  function ShownSpeed(v: Option<real>): Option<real> { if v.Some? then Some(AtLeastZero(v.value)) else None }

  function FuelAt(st: Option<CuStatus>, slot: nat): Option<int> {
    if st.Some? && slot < |st.value.fuel| then Some(st.value.fuel[slot]) else None
  }

  function PitAt(st: Option<CuStatus>, slot: nat): Option<bool> {
    if st.Some? && slot < |st.value.pit| then Some(st.value.pit[slot]) else None
  }

  /** The last fuel level, and the last pit flag, any status had for a slot. */
  function LastFuel(polls: seq<Polled>, slot: nat): Option<int> {
    if |polls| == 0 then None
    else
      var f := polls[|polls| - 1].frame;
      if f.StatusFrame? && FuelAt(Some(f.status), slot).Some? then FuelAt(Some(f.status), slot)
      else LastFuel(polls[..|polls| - 1], slot)
  }

  function LastPit(polls: seq<Polled>, slot: nat): Option<bool> {
    if |polls| == 0 then None
    else
      var f := polls[|polls| - 1].frame;
      if f.StatusFrame? && PitAt(Some(f.status), slot).Some? then PitAt(Some(f.status), slot)
      else LastPit(polls[..|polls| - 1], slot)
  }

  /** All of it was read in one session: no status brings a slot that the one before did not have. */
  predicate OneSession(mode: MappingMode, polls: seq<Polled>) {
    |polls| > 0 ==>
      var init, f := polls[..|polls| - 1], polls[|polls| - 1].frame;
      && OneSession(mode, init)
      && (f.StatusFrame? && LastStatus(init).Some? ==> Comparable(mode, LastStatus(init).value, f.status))
  }

  predicate SessionAgrees(s: Session, polls: seq<Polled>) {
    && s.prevStatus == LastStatus(polls)
    && (s.prevData.Some? && s.prevData.value.StatusFrame? ==> s.prevStatus == Some(s.prevData.value.status))
  }

  /** For the car of slot i the dashboard is the direct view of the polls. */
  predicate SlotAgrees(d: Dash, polls: seq<Polled>, i: nat, car: int) {
    var l := LampOf(d, car);
    && l.fuel == (match LastFuel(polls, i) case None => None case Some(level) => Some(FuelShown(level)))
    && l.inPit == (LastPit(polls, i) == Some(true))
    && l.speed == ShownSpeed(LastSpeed(polls, i))
    && l.race == (match LastStatus(polls) case None => Idle case Some(st) => StartState(st.start))
  }

  /** In one session a slot that the current status has, it has the latest word on. */
  lemma {:induction false} CurrentIsLast(mode: MappingMode, polls: seq<Polled>, slot: nat)
    ensures FuelAt(LastStatus(polls), slot).Some? ==> LastFuel(polls, slot) == FuelAt(LastStatus(polls), slot)
    ensures PitAt(LastStatus(polls), slot).Some? ==> LastPit(polls, slot) == PitAt(LastStatus(polls), slot)
  {
    if |polls| > 0 { CurrentIsLast(mode, polls[..|polls| - 1], slot); }
  }

  lemma {:induction false} CurrentSpeedIsLast(polls: seq<Polled>, slot: nat)
    ensures SpeedAt(LastStatus(polls), slot).Some? ==> LastSpeed(polls, slot) == SpeedAt(LastStatus(polls), slot)
  {
    if |polls| > 0 { CurrentSpeedIsLast(polls[..|polls| - 1], slot); }
  }

  lemma {:induction false} SessionFollows(mode: MappingMode, polls: seq<Polled>)
    requires OneSession(mode, polls)
    ensures SessionAgrees(Watch(mode, polls).0, polls)
  {
    if |polls| > 0 { SessionFollows(mode, polls[..|polls| - 1]); }
  }

  /** One more status moves the dashboard from the view of the old polls to the view of the new ones. */
  lemma StatusKeepsAgreement(mode: MappingMode, d: Dash, init: seq<Polled>, p: Polled, i: nat, car: int)
    requires p.frame.StatusFrame? && (LastStatus(init).Some? ==> Comparable(mode, LastStatus(init).value, p.frame.status))
    requires CarOf(mode, i) == Some(car) && SlotAgrees(d, init, i, car)
    ensures SlotAgrees(Shown(d, StatusFrames(mode, LastStatus(init), p.frame.status), p.monoMs, p.at), init + [p], i, car)
  {
    var prev, st := LastStatus(init), p.frame.status;
    var raws := StatusFrames(mode, prev, st);
    assert (init + [p])[..|init|] == init;
    CurrentIsLast(mode, init, i);
    CurrentSpeedIsLast(init, i);
    LampShown(d, raws, p.monoMs, p.at, car);
    StatusPart(mode, prev, st, LampOf(d, car), i, car);
  }

  /** A repeated frame, a crossing or an unknown frame changes nothing a status reports. */
  lemma OtherKeepsAgreement(mode: MappingMode, d: Dash, d': Dash, init: seq<Polled>, p: Polled, i: nat, car: int)
    requires SlotAgrees(d, init, i, car) && LampOf(d', car) == LampOf(d, car)
    requires !p.frame.StatusFrame? || LastStatus(init) == Some(p.frame.status)
    ensures SlotAgrees(d', init + [p], i, car)
  {
    assert (init + [p])[..|init|] == init;
    if p.frame.StatusFrame? {
      CurrentIsLast(mode, init, i);
      CurrentSpeedIsLast(init, i);
    }
  }

  /** Crossings and unknown frames light no lamp. */
  lemma TimerPart(mode: MappingMode, laps: Laps, address: int, ts: int, l: Lamp, car: int)
    ensures LampFold(l, TimerFrames(mode, laps, address, ts), car) == l
    ensures LampFold(l, [RawUnknown], car) == l
  {
    var frames := TimerFrames(mode, laps, address, ts);
    if |frames| == 1 { assert [] + [frames[0]] == frames; FoldSnoc(l, [], frames[0], car); }
    FoldSnoc(l, [], RawUnknown, car);
    assert [] + [RawUnknown] == [RawUnknown];
  }

  lemma OtherFrameLightsNothing(mode: MappingMode, s: Session, d: Dash, p: Polled, car: int)
    requires Readable(mode, s, p.frame) && !p.frame.StatusFrame? && 1 <= car <= 6
    ensures LampOf(Shown(d, Poll(mode, s, p.frame).1, p.monoMs, p.at), car) == LampOf(d, car)
  {
    LampShown(d, Poll(mode, s, p.frame).1, p.monoMs, p.at, car);
    if p.frame.TimerFrame? {
      TimerPart(mode, s.laps, p.frame.address, p.frame.timestamp, LampOf(d, car), car);
    } else {
      TimerPart(mode, s.laps, 0, 0, LampOf(d, car), car);
      assert Shown(d, [], p.monoMs, p.at) == d;
    }
  }

  /**
   * Diff-then-fold equals the direct view: after any frames of one session, laps and unknown frames in
   * between, every slot's fuel, pit flag and speed are the last ones any status had for it, and the race
   * state is that of the last status.
   */
  lemma {:induction false} DiffThenFoldIsDirectView(mode: MappingMode, polls: seq<Polled>, i: nat, car: int)
    requires OneSession(mode, polls) && CarOf(mode, i) == Some(car)
    ensures SlotAgrees(Watch(mode, polls).1, polls, i, car)
  {
    if |polls| > 0 {
      var init, p := polls[..|polls| - 1], polls[|polls| - 1];
      DiffThenFoldIsDirectView(mode, init, i, car);
      SessionFollows(mode, init);
      var (s, d) := Watch(mode, init);
      var d' := Watch(mode, polls).1;
      assert polls == init + [p] && Readable(mode, s, p.frame);
      if s.prevData == Some(p.frame) {
        OtherKeepsAgreement(mode, d, d', init, p, i, car);
      } else if p.frame.StatusFrame? {
        StatusKeepsAgreement(mode, d, init, p, i, car);
      } else {
        OtherFrameLightsNothing(mode, s, d, p, car);
        OtherKeepsAgreement(mode, d, d', init, p, i, car);
      }
    }
  }
}
