/** The lap numbers an adapter session gives, and the lap count the dashboard makes of them. */
module LapCounting {
  import opened Base
  import opened Telemetry
  import opened LiveAdapter
  import opened StateManager
  import opened LiveDashboard

  // ----- the reference: crossings that are not repeats

  function LastFrame(polls: seq<Polled>): Option<Frame> { if |polls| == 0 then None else Some(polls[|polls| - 1].frame) }

  /** A further crossing of the car, unless the frame repeats the one polled just before it. */
  function OneMore(mode: MappingMode, cs: seq<int>, before: Option<Frame>, f: Frame, car: int): seq<int> {
    if f.TimerFrame? && CarOf(mode, f.address) == Some(car) && before != Some(f) then cs + [f.timestamp] else cs
  }

  /** The times at which a car crossed the line, re-broadcasts of the frame before left out. */
  function Crossings(mode: MappingMode, polls: seq<Polled>, car: int): seq<int> {
    if |polls| == 0 then []
    else
      var init := polls[..|polls| - 1];
      OneMore(mode, Crossings(mode, init, car), LastFrame(init), polls[|polls| - 1].frame, car)
  }

  /** Laps are counted from the first crossing on. */
  function Driven(cs: seq<int>): nat { if |cs| == 0 then 0 else |cs| - 1 }

  /** The frames a session emits. */
  function Emitted(mode: MappingMode, polls: seq<Polled>): seq<RawFrame> {
    if |polls| == 0 then []
    else
      var s := Watch(mode, polls[..|polls| - 1]).0;
      var f := polls[|polls| - 1].frame;
      Emitted(mode, polls[..|polls| - 1]) + (if Readable(mode, s, f) then Poll(mode, s, f).1 else [])
  }

  /** The numbers of a car's lap frames, in order. */
  function NumbersOf(raws: seq<RawFrame>, car: int): seq<int> {
    if |raws| == 0 then []
    else
      var r := raws[|raws| - 1];
      NumbersOf(raws[..|raws| - 1], car) + (if r.RawLap? && r.car == car then [r.number] else [])
  }

  function CountingUp(n: nat): seq<int> { if n == 0 then [] else CountingUp(n - 1) + [n] }

  // ----- the session

  /** What the session remembers of a car after frame `last`. */
  predicate Remembers(s: Session, last: Option<Frame>, cs: seq<int>, car: int) {
    && s.prevData == last
    && (car in s.laps.prevTs <==> cs != [])
    && (cs != [] ==> car in s.laps.prevTs && s.laps.prevTs[car] == cs[|cs| - 1])
    && Count(s.laps.counts, car) == Driven(cs)
  }

  lemma RemembersOneMore(mode: MappingMode, s: Session, cs: seq<int>, f: Frame, car: int)
    requires Remembers(s, s.prevData, cs, car) && Readable(mode, s, f)
    ensures Remembers(Poll(mode, s, f).0, Some(f), OneMore(mode, cs, s.prevData, f, car), car)
  {
  }

  lemma {:induction false} SessionRemembers(mode: MappingMode, polls: seq<Polled>, car: int)
    requires OneSession(mode, polls)
    ensures Remembers(Watch(mode, polls).0, LastFrame(polls), Crossings(mode, polls, car), car)
  {
    if |polls| > 0 {
      var init := polls[..|polls| - 1];
      SessionRemembers(mode, init, car);
      SessionFollows(mode, init);
      RemembersOneMore(mode, Watch(mode, init).0, Crossings(mode, init, car), polls[|polls| - 1].frame, car);
    }
  }

  // ----- the frames

  lemma {:induction false} NumbersConcat(a: seq<RawFrame>, b: seq<RawFrame>, car: int)
    ensures NumbersOf(a + b, car) == NumbersOf(a, car) + NumbersOf(b, car)
  {
    if |b| == 0 {
      assert a + b == a;
    } else {
      assert (a + b)[..|a + b| - 1] == a + b[..|b| - 1];
      NumbersConcat(a, b[..|b| - 1], car);
    }
  }

  lemma {:induction false} NoNumbers(raws: seq<RawFrame>, car: int)
    requires forall r <- raws :: !r.RawLap?
    ensures NumbersOf(raws, car) == []
  {
    if |raws| > 0 {
      assert forall r <- raws[..|raws| - 1] :: r in raws;
      NoNumbers(raws[..|raws| - 1], car);
    }
  }

  lemma StatusHasNoNumbers(mode: MappingMode, prev: Option<CuStatus>, st: CuStatus, car: int)
    requires prev.Some? ==> Comparable(mode, prev.value, st)
    ensures NumbersOf(StatusFrames(mode, prev, st), car) == []
  {
    forall r | r in StatusFrames(mode, prev, st) ensures !r.RawLap? {
      FuelOnlyOnChange(mode, prev, st, |st.fuel|, r);
      PitOnlyOnChange(mode, prev, st, |st.pit|, r);
      if st.speed.Some? { SpeedOnlyOnChange(mode, prev, st, |st.speed.value|, r); }
    }
    NoNumbers(StatusFrames(mode, prev, st), car);
  }

  /** A frame carries a lap number exactly when it is a further crossing, and then the next one. */
  lemma FrameNumbers(mode: MappingMode, s: Session, cs: seq<int>, f: Frame, car: int)
    requires Remembers(s, s.prevData, cs, car) && Readable(mode, s, f)
    ensures var n, n' := Driven(cs), Driven(OneMore(mode, cs, s.prevData, f, car));
            && n <= n' <= n + 1
            && NumbersOf(Poll(mode, s, f).1, car) == if n' > n then [n'] else []
  {
    if s.prevData != Some(f) {
      match f
      case StatusFrame(st) => StatusHasNoNumbers(mode, s.prevStatus, st, car);
      case UnknownFrame => NoNumbers([RawUnknown], car);
      case TimerFrame(address, ts) => TimerNumbers(mode, s.laps, address, ts, car);
    }
  }

  lemma TimerNumbers(mode: MappingMode, laps: Laps, address: int, ts: int, car: int)
    ensures NumbersOf(TimerFrames(mode, laps, address, ts), car)
            == if CarOf(mode, address) == Some(car) && car in laps.prevTs then [Count(laps.counts, car) + 1] else []
  {
    var frames := TimerFrames(mode, laps, address, ts);
    if |frames| == 1 { assert frames[..0] == []; }
  }

  lemma OneMoreNumber(emitted: seq<RawFrame>, more: seq<RawFrame>, n: nat, n': nat, car: int)
    requires NumbersOf(emitted, car) == CountingUp(n) && n <= n' <= n + 1
    requires NumbersOf(more, car) == if n' > n then [n'] else []
    ensures NumbersOf(emitted + more, car) == CountingUp(n')
  {
    NumbersConcat(emitted, more, car);
    assert CountingUp(n) + [] == CountingUp(n);
  }

  /** In one session the laps of a car are numbered 1, 2, 3, ..., one for each crossing after its first. */
  lemma {:induction false} LapsAreNumbered(mode: MappingMode, polls: seq<Polled>, car: int)
    requires OneSession(mode, polls)
    ensures NumbersOf(Emitted(mode, polls), car) == CountingUp(Driven(Crossings(mode, polls, car)))
  {
    if |polls| > 0 {
      var init, f := polls[..|polls| - 1], polls[|polls| - 1].frame;
      var s, cs := Watch(mode, init).0, Crossings(mode, init, car);
      LapsAreNumbered(mode, init, car);
      SessionFollows(mode, init);
      SessionRemembers(mode, init, car);
      FrameNumbers(mode, s, cs, f, car);
      OneMoreNumber(Emitted(mode, init), Poll(mode, s, f).1, Driven(cs), Driven(OneMore(mode, cs, s.prevData, f, car)), car);
    }
  }

  // ----- the dashboard

  /** The car's crossings do not go back in time, nor before time zero. */
  predicate InTime(cs: seq<int>) {
    (forall i :: 0 <= i < |cs| ==> cs[i] >= 0) && forall i :: 0 < i < |cs| ==> cs[i - 1] <= cs[i]
  }

  /** Frames without a lap of the car leave its count alone. */
  lemma {:induction false} OthersKeepCount(d: Dash, raws: seq<RawFrame>, monoMs: nat, at: int, car: int)
    requires forall i :: 0 <= i < |raws| ==> !(raws[i].RawLap? && raws[i].car == car)
    ensures CarIn(Shown(d, raws, monoMs, at), car).lapCount == CarIn(d, car).lapCount
  {
    if |raws| > 0 { OthersKeepCount(d, raws[..|raws| - 1], monoMs, at, car); }
  }

  /** A lap frame that is not behind the count moves it to its number. */
  lemma LapShows(d: Dash, raw: RawFrame, monoMs: nat, at: int)
    requires raw.RawLap? && 1 <= raw.car <= 6 && raw.number >= 1 && raw.timeMs >= 0 && raw.cuMs >= 0
    requires CarIn(d, raw.car).lapCount < raw.number
    ensures CarIn(Shown(d, [raw], monoMs, at), raw.car).lapCount == raw.number
  {
    assert [raw][..0] == [];
    assert Shown(d, [raw], monoMs, at) == Applied(d, ToEvent(raw, monoMs, at));
  }

  lemma NewestInTime(cs: seq<int>, ts: int)
    requires InTime(cs + [ts])
    ensures ts >= 0 && (cs != [] ==> cs[|cs| - 1] <= ts)
  {
    var all := cs + [ts];
    assert all[|cs|] == ts;
    if cs != [] { assert all[|cs| - 1] == cs[|cs| - 1] && all[|cs| - 1] <= all[|cs|]; }
  }

  /** A crossing of another car, or a first one, brings no lap of this car. */
  lemma NoLapYet(mode: MappingMode, laps: Laps, d: Dash, address: int, ts: int, monoMs: nat, at: int, car: int)
    requires CarOf(mode, address) != Some(car) || car !in laps.prevTs
    ensures CarIn(Shown(d, TimerFrames(mode, laps, address, ts), monoMs, at), car).lapCount == CarIn(d, car).lapCount
  {
    OthersKeepCount(d, TimerFrames(mode, laps, address, ts), monoMs, at, car);
  }

  lemma TimerCounts(mode: MappingMode, s: Session, d: Dash, cs: seq<int>, address: int, ts: int, monoMs: nat, at: int, car: int)
    requires 1 <= car <= 6 && Remembers(s, s.prevData, cs, car) && CarIn(d, car).lapCount == Driven(cs)
    requires CarOf(mode, address) == Some(car) ==> InTime(cs + [ts])
    ensures CarIn(Shown(d, TimerFrames(mode, s.laps, address, ts), monoMs, at), car).lapCount
            == if CarOf(mode, address) == Some(car) then |cs| else Driven(cs)
  {
    if CarOf(mode, address) != Some(car) || cs == [] {
      NoLapYet(mode, s.laps, d, address, ts, monoMs, at, car);
    } else {
      NewestInTime(cs, ts);
      var raw := RawLap(car, Count(s.laps.counts, car) + 1, ts - s.laps.prevTs[car], ts);
      assert TimerFrames(mode, s.laps, address, ts) == [raw];
      LapShows(d, raw, monoMs, at);
    }
  }

  lemma StatusKeepsCount(mode: MappingMode, prev: Option<CuStatus>, st: CuStatus, d: Dash, monoMs: nat, at: int, car: int)
    requires prev.Some? ==> Comparable(mode, prev.value, st)
    ensures CarIn(Shown(d, StatusFrames(mode, prev, st), monoMs, at), car).lapCount == CarIn(d, car).lapCount
  {
    var raws := StatusFrames(mode, prev, st);
    forall i | 0 <= i < |raws| ensures !raws[i].RawLap? {
      FuelOnlyOnChange(mode, prev, st, |st.fuel|, raws[i]);
      PitOnlyOnChange(mode, prev, st, |st.pit|, raws[i]);
      if st.speed.Some? { SpeedOnlyOnChange(mode, prev, st, |st.speed.value|, raws[i]); }
    }
    OthersKeepCount(d, raws, monoMs, at, car);
  }

  lemma InTimeBefore(cs: seq<int>, ts: int)
    requires InTime(cs + [ts])
    ensures InTime(cs)
  {
    var all := cs + [ts];
    assert forall i :: 0 <= i < |cs| ==> cs[i] == all[i];
  }

  lemma CountOneMore(mode: MappingMode, s: Session, d: Dash, cs: seq<int>, p: Polled, car: int)
    requires 1 <= car <= 6 && Remembers(s, s.prevData, cs, car) && InTime(OneMore(mode, cs, s.prevData, p.frame, car))
    requires Readable(mode, s, p.frame) && CarIn(d, car).lapCount == Driven(cs)
    ensures CarIn(Shown(d, Poll(mode, s, p.frame).1, p.monoMs, p.at), car).lapCount
            == Driven(OneMore(mode, cs, s.prevData, p.frame, car))
  {
    if s.prevData == Some(p.frame) {
      OthersKeepCount(d, [], p.monoMs, p.at, car);
    } else {
      match p.frame
      case TimerFrame(address, ts) => TimerCounts(mode, s, d, cs, address, ts, p.monoMs, p.at, car);
      case StatusFrame(st) => StatusKeepsCount(mode, s.prevStatus, st, d, p.monoMs, p.at, car);
      case UnknownFrame => OthersKeepCount(d, [RawUnknown], p.monoMs, p.at, car);
    }
  }

  /** The lap count the dashboard shows is the number of the car's crossings after its first. */
  lemma {:induction false} DashboardCountsCrossings(mode: MappingMode, polls: seq<Polled>, car: int)
    requires OneSession(mode, polls) && 1 <= car <= 6 && InTime(Crossings(mode, polls, car))
    ensures CarIn(Watch(mode, polls).1, car).lapCount == Driven(Crossings(mode, polls, car))
  {
    if |polls| > 0 {
      var init, p := polls[..|polls| - 1], polls[|polls| - 1];
      var cs := Crossings(mode, init, car);
      if Crossings(mode, polls, car) != cs { InTimeBefore(cs, p.frame.timestamp); }
      DashboardCountsCrossings(mode, init, car);
      SessionFollows(mode, init);
      SessionRemembers(mode, init, car);
      CountOneMore(mode, Watch(mode, init).0, Watch(mode, init).1, cs, p, car);
    }
  }
}
