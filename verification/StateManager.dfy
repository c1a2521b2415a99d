/** The in-memory dashboard aggregate: one event at a time, and what it amounts to over a history. */
module StateManager {
  import opened Base
  import opened Telemetry
  import opened Sorting

  const CARS: nat := 6
  const RECENT_MAX: nat := 100

  datatype CarState = CarState(
    lapCount: int, samples: nat, totalMs: int, best: Option<int>, latest: Option<int>,
    fuel: Option<real>, inPit: bool, speed: Option<real>, lastEventMs: Option<int>)

  const NEW_CAR: CarState := CarState(0, 0, 0, None, None, None, false, None, None)

  datatype Dash = Dash(cars: map<int, CarState>, race: RaceState, processed: nat, dropped: nat, recent: seq<Event>)

  const EMPTY_DASH: Dash := Dash(map[], Idle, 0, 0, [])

  function Canonical(e: Event): bool { e.car.Some? && 1 <= e.car.value <= CARS }

  function CarIn(d: Dash, car: int): CarState { if car in d.cars then d.cars[car] else NEW_CAR }

  function Smaller(best: Option<int>, t: int): int { if best.None? || t < best.value then t else best.value }

  function ClampFuel(x: real): real { if x < 0.0 then 0.0 else if x > 100.0 then 100.0 else x }

  predicate LapCounts(e: Event) { e.payload.LapData? && Canonical(e) && e.payload.number >= 1 && e.payload.timeMs >= 0 }

  /** What a canonical event does to its car. */
  function CarAfter(c: CarState, e: Event): CarState {
    match e.payload
    case LapData(number, timeMs, _) => c.(
      lapCount := if number > c.lapCount then number else c.lapCount,
      latest := Some(timeMs), best := Some(Smaller(c.best, timeMs)),
      samples := c.samples + 1, totalMs := c.totalMs + timeMs, lastEventMs := Some(e.monoMs))
    case FuelData(level) => c.(fuel := Some(ClampFuel(level)), lastEventMs := Some(e.monoMs))
    case PitData(inPit) => c.(inPit := inPit, lastEventMs := Some(e.monoMs))
    case SpeedData(kmh) => c.(speed := Some(if kmh > 0.0 then kmh else 0.0), lastEventMs := Some(e.monoMs))
    case ControllerData(_, _) => c.(lastEventMs := Some(e.monoMs))
    case _ => c
  }

  predicate Touches(e: Event) {
    Canonical(e) && (e.payload.LapData? ==> LapCounts(e))
    && !e.payload.BrakeData? && !e.payload.RaceStateData? && !e.payload.LinkData? && !e.payload.NotSupported?
  }

  function Applied(d: Dash, e: Event): Dash {
    Dash(
      if Touches(e) then d.cars[e.car.value := CarAfter(CarIn(d, e.car.value), e)] else d.cars,
      if e.payload.RaceStateData? then e.payload.state else d.race,
      d.processed + (if e.payload.LapData? then 1 else 0),
      d.dropped + (if e.payload.LapData? && !LapCounts(e) then 1 else 0),
      if |d.recent| < RECENT_MAX then [e] + d.recent else [e] + d.recent[..RECENT_MAX - 1])
  }

  function AppliedAll(d: Dash, es: seq<Event>): Dash {
    if |es| == 0 then d else Applied(AppliedAll(d, es[..|es| - 1]), es[|es| - 1])
  }

  class StateManager {
    var cars: map<int, CarState>
    var race: RaceState
    var processed: nat
    var dropped: nat
    var recent: seq<Event>

    ghost function State(): Dash
      reads this
    {
      Dash(cars, race, processed, dropped, recent)
    }

    constructor ()
      ensures State() == EMPTY_DASH
    {
      cars, race, processed, dropped, recent := map[], Idle, 0, 0, [];
    }

    /** Creates the car on first use. */
    method Car(id: int) returns (car: CarState)
      modifies this`cars
      ensures car == (if id in old(cars) then old(cars)[id] else NEW_CAR)
      ensures cars == old(cars)[id := car]
    {
      if id !in cars { cars := cars[id := NEW_CAR]; }
      car := cars[id];
    }

    /** The newest events first, the oldest falling out of the bounded list. */
    method Remember(e: Event)
      requires |recent| <= RECENT_MAX
      modifies this`recent
      ensures |recent| <= RECENT_MAX
      ensures recent == if |old(recent)| < RECENT_MAX then [e] + old(recent) else [e] + old(recent)[..RECENT_MAX - 1]
    {
      var longer := [e] + recent;
      if |longer| > RECENT_MAX {
        assert longer[..RECENT_MAX] == [e] + recent[..RECENT_MAX - 1];
        longer := longer[..RECENT_MAX];
      }
      recent := longer;
    }

    method ApplyLap(e: Event)
      requires e.payload.LapData?
      modifies this`cars, this`processed, this`dropped
      ensures processed == old(processed) + 1 && dropped == old(dropped) + (if LapCounts(e) then 0 else 1)
      ensures cars == if LapCounts(e) then old(cars)[e.car.value := CarAfter(CarIn(old(State()), e.car.value), e)] else old(cars)
    {
      processed := processed + 1;
      if e.car.None? || !(1 <= e.car.value <= CARS) || e.payload.number < 1 || e.payload.timeMs < 0 {
        dropped := dropped + 1;
        return;
      }
      var car := Car(e.car.value);
      if e.payload.number > car.lapCount { car := car.(lapCount := e.payload.number); }
      car := car.(latest := Some(e.payload.timeMs), best := Some(Smaller(car.best, e.payload.timeMs)));
      car := car.(samples := car.samples + 1, totalMs := car.totalMs + e.payload.timeMs, lastEventMs := Some(e.monoMs));
      cars := cars[e.car.value := car];
    }

    method ApplyToCar(e: Event)
      requires Canonical(e) && !e.payload.LapData? && Touches(e)
      modifies this`cars
      ensures cars == old(cars)[e.car.value := CarAfter(CarIn(old(State()), e.car.value), e)]
    {
      var car := Car(e.car.value);
      match e.payload
      case FuelData(level) => cars := cars[e.car.value := car.(fuel := Some(ClampFuel(level)), lastEventMs := Some(e.monoMs))];
      case PitData(inPit) => cars := cars[e.car.value := car.(inPit := inPit, lastEventMs := Some(e.monoMs))];
      case SpeedData(kmh) =>
        cars := cars[e.car.value := car.(speed := Some(if kmh > 0.0 then kmh else 0.0), lastEventMs := Some(e.monoMs))];
      case ControllerData(_, _) => cars := cars[e.car.value := car.(lastEventMs := Some(e.monoMs))];
    }

    method Apply(e: Event)
      requires |recent| <= RECENT_MAX
      modifies this
      ensures |recent| <= RECENT_MAX
      ensures State() == Applied(old(State()), e)
    {
      Remember(e);
      match e.payload
      case LapData(_, _, _) => ApplyLap(e);
      case RaceStateData(state) => race := state;
      case BrakeData(_) =>
      case LinkData(_) =>
      case NotSupported =>
      case _ =>
        if e.car.Some? && 1 <= e.car.value <= CARS { ApplyToCar(e); }
    }

    /** The race part of a snapshot: cars by rank with positions, leader, fastest lap and total. */
    method BuildRaceMetrics() returns (m: Metrics)
      ensures m == MetricsOf(State())
    {
      var entries := [];
      for car := 0 to CARS
        invariant entries == Entries(State(), car)
      {
        if car + 1 in cars { entries := entries + [Entry(car + 1, cars[car + 1].lapCount, cars[car + 1].best)]; }
      }
      var ranked := SortBy(entries, Before);
      var placed, fastest, total := [], None, 0;
      for k := 0 to |ranked|
        invariant placed == Placings(ranked[..k]) && fastest == Fastest(ranked[..k]) && total == SumBy(ranked[..k], LapsOfEntry)
      {
        assert ranked[..k + 1][..k] == ranked[..k];
        placed := placed + [Placing(k + 1, ranked[k])];
        if ranked[k].best.Some? { fastest := Some(Smaller(fastest, ranked[k].best.value)); }
        total := total + ranked[k].laps;
      }
      assert ranked[..|ranked|] == ranked;
      m := Metrics(placed, if ranked == [] then None else Some(ranked[0].id), fastest, total);
    }
  }

  // ----- aggregates are the statistics of the accepted laps

  datatype Sample = Sample(number: int, timeMs: int)

  /** The laps of a car that the dashboard accepted, in order. */
  function Accepted(es: seq<Event>, car: int): seq<Sample> {
    if |es| == 0 then []
    else
      var e := es[|es| - 1];
      Accepted(es[..|es| - 1], car)
      + (if e.payload.LapData? && e.car == Some(car) && 1 <= car <= 6 && e.payload.number >= 1 && e.payload.timeMs >= 0
         then [Sample(e.payload.number, e.payload.timeMs)] else [])
  }

  function TimeMs(lap: Sample): int { lap.timeMs }

  /** `c` carries exactly the minimum, sum, count and highest number of `laps` (and the newest time). */
  ghost predicate Aggregates(c: CarState, laps: seq<Sample>) {
    && c.samples == |laps| && c.totalMs == SumBy(laps, TimeMs)
    && (c.best.None? <==> laps == [])
    && (c.best.Some? ==> (forall l <- laps :: c.best.value <= l.timeMs) && exists l <- laps :: l.timeMs == c.best.value)
    && (forall l <- laps :: l.number <= c.lapCount)
    && (if laps == [] then c.lapCount == 0 else exists l <- laps :: l.number == c.lapCount)
    && c.latest == (if laps == [] then None else Some(laps[|laps| - 1].timeMs))
  }

  lemma {:induction false} AggregatesEqualHistory(es: seq<Event>, car: int)
    ensures Aggregates(CarIn(AppliedAll(EMPTY_DASH, es), car), Accepted(es, car))
  {
    if |es| > 0 {
      var before, e := es[..|es| - 1], es[|es| - 1];
      AggregatesEqualHistory(before, car);
      var c, laps := CarIn(AppliedAll(EMPTY_DASH, before), car), Accepted(before, car);
      if LapCounts(e) && e.car.value == car {
        AggregateOneMore(c, laps, e);
      } else {
        assert laps + [] == laps;
      }
    }
  }

  lemma AggregateOneMore(c: CarState, laps: seq<Sample>, e: Event)
    requires Aggregates(c, laps) && LapCounts(e)
    ensures Aggregates(CarAfter(c, e), laps + [Sample(e.payload.number, e.payload.timeMs)])
  {
    var x := Sample(e.payload.number, e.payload.timeMs);
    var more, c' := laps + [x], CarAfter(c, e);
    assert more[..|laps|] == laps && x in more;
    forall l | l in laps ensures l in more { }
    if c.best.Some? && !(x.timeMs < c.best.value) {
      var l :| l in laps && l.timeMs == c.best.value;
      assert l in more;
    }
    if laps != [] && !(x.number > c.lapCount) {
      var l :| l in laps && l.number == c.lapCount;
      assert l in more;
    }
  }

  lemma SameLapsSameExtremes(c: CarState, c': CarState, a: seq<Sample>, b: seq<Sample>)
    requires Aggregates(c, a) && Aggregates(c', b)
    requires forall l :: l in a <==> l in b
    ensures c.best == c'.best && c.lapCount == c'.lapCount
  {
    if a != [] {
      assert a[0] in b;
      var x :| x in a && x.timeMs == c.best.value;
      var y :| y in b && y.timeMs == c'.best.value;
      var m :| m in a && m.number == c.lapCount;
      var n :| n in b && n.number == c'.lapCount;
      assert x in b && y in a && m in b && n in a;
    }
    assert a == [] ==> b == [] by { assert b != [] ==> b[0] in b; }
  }

  /** Best, sum, count and lap count do not depend on the order in which the accepted laps arrived. */
  lemma OrderDoesNotMatter(es: seq<Event>, es': seq<Event>, car: int)
    requires multiset(Accepted(es, car)) == multiset(Accepted(es', car))
    ensures var c, c' := CarIn(AppliedAll(EMPTY_DASH, es), car), CarIn(AppliedAll(EMPTY_DASH, es'), car);
            c.best == c'.best && c.totalMs == c'.totalMs && c.samples == c'.samples && c.lapCount == c'.lapCount
  {
    var a, b := Accepted(es, car), Accepted(es', car);
    var c, c' := CarIn(AppliedAll(EMPTY_DASH, es), car), CarIn(AppliedAll(EMPTY_DASH, es'), car);
    AggregatesEqualHistory(es, car);
    AggregatesEqualHistory(es', car);
    SumIgnoresOrder(a, b, TimeMs);
    assert |multiset(a)| == |a| && |multiset(b)| == |b|;
    forall l ensures l in a <==> l in b { assert l in multiset(a) <==> l in multiset(b); }
    SameLapsSameExtremes(c, c', a, b);
  }

  function SamplesUpTo(d: Dash, n: nat): nat {
    if n == 0 then 0 else SamplesUpTo(d, n - 1) + CarIn(d, n).samples
  }

  lemma {:induction false} SamplesAfter(d: Dash, e: Event, n: nat)
    ensures SamplesUpTo(Applied(d, e), n) == SamplesUpTo(d, n) + (if LapCounts(e) && e.car.value <= n then 1 else 0)
  {
    if n > 0 { SamplesAfter(d, e, n - 1); }
  }

  /** Every processed lap event is accepted by exactly one car or dropped. */
  lemma {:induction false} AcceptedPlusDropped(es: seq<Event>)
    ensures var d := AppliedAll(EMPTY_DASH, es); SamplesUpTo(d, CARS) + d.dropped == d.processed
  {
    if |es| == 0 {
      NoSamplesYet(CARS);
    } else {
      AcceptedPlusDropped(es[..|es| - 1]);
      SamplesAfter(AppliedAll(EMPTY_DASH, es[..|es| - 1]), es[|es| - 1], CARS);
    }
  }

  lemma {:induction false} NoSamplesYet(n: nat)
    ensures SamplesUpTo(EMPTY_DASH, n) == 0
  {
    if n > 0 { NoSamplesYet(n - 1); }
  }

  /** The recent list is the newest events first, at most RECENT_MAX of them. */
  lemma {:induction false} RecentIsNewestFirst(es: seq<Event>)
    ensures var r := AppliedAll(EMPTY_DASH, es).recent;
            && |r| == (if |es| < 100 then |es| else 100)
            && forall i :: 0 <= i < |r| ==> r[i] == es[|es| - 1 - i]
  {
    if |es| > 0 { RecentIsNewestFirst(es[..|es| - 1]); }
  }

  // ----- the live ranking

  datatype Entry = Entry(id: int, laps: int, best: Option<int>)

  const NO_BEST: int := 1_000_000_000_000

  function BestKey(e: Entry): int { if e.best.Some? then e.best.value else NO_BEST }

  /** The sort key (-laps, best, id), compared lexicographically. */
  predicate Before(a: Entry, b: Entry) {
    || a.laps > b.laps
    || (a.laps == b.laps && (BestKey(a) < BestKey(b) || (BestKey(a) == BestKey(b) && a.id < b.id)))
  }

  function Entries(d: Dash, n: nat): seq<Entry> {
    if n == 0 then []
    else (
      Entries(d, n - 1)
      + (if n in d.cars then [Entry(n, d.cars[n].lapCount, d.cars[n].best)] else []))
  }

  function Ranking(d: Dash): seq<Entry> { SortBy(Entries(d, CARS), Before) }

  function LapsOfEntry(e: Entry): int { e.laps }

  /** The best of all cars' best laps, if any car has one. */
  function Fastest(es: seq<Entry>): Option<int> {
    if |es| == 0 then None
    else
      var before, last := Fastest(es[..|es| - 1]), es[|es| - 1].best;
      if last.None? then before else Some(Smaller(before, last.value))
  }

  /** A car with the position the snapshot gives it. */
  datatype Placing = Placing(position: nat, entry: Entry)

  datatype Metrics = Metrics(cars: seq<Placing>, leader: Option<int>, fastest: Option<int>, totalLaps: int)

  function Placings(ranked: seq<Entry>): seq<Placing> {
    if |ranked| == 0 then [] else Placings(ranked[..|ranked| - 1]) + [Placing(|ranked|, ranked[|ranked| - 1])]
  }

  function MetricsOf(d: Dash): Metrics {
    var ranked := Ranking(d);
    Metrics(Placings(ranked), if ranked == [] then None else Some(ranked[0].id), Fastest(ranked), SumBy(ranked, LapsOfEntry))
  }

  lemma {:induction false} EntriesAreCars(d: Dash, n: nat)
    ensures forall e :: e in Entries(d, n) <==> 1 <= e.id <= n && e.id in d.cars && e == Entry(e.id, d.cars[e.id].lapCount, d.cars[e.id].best)
    ensures forall i, j :: 0 <= i < j < |Entries(d, n)| ==> Entries(d, n)[i].id < Entries(d, n)[j].id
  {
    if n > 0 {
      EntriesAreCars(d, n - 1);
      var shorter := Entries(d, n - 1);
      forall i | 0 <= i < |shorter| ensures shorter[i].id <= n - 1 { assert shorter[i] in shorter; }
    }
  }

  /**
   * The ranking lists every known car once, strictly ordered by (laps down, best up, id up), and is
   * the only such list: positions are therefore determined by the aggregates alone.
   */
  lemma RankingIsTheOnlyOrder(d: Dash, other: seq<Entry>)
    ensures Ordered(Ranking(d), Before) && multiset(Ranking(d)) == multiset(Entries(d, CARS))
    ensures Ordered(other, Before) && multiset(other) == multiset(Entries(d, CARS)) ==> other == Ranking(d)
    ensures |Ranking(d)| > 0 ==> forall e <- Entries(d, CARS) :: e.laps <= Ranking(d)[0].laps
  {
    var es := Entries(d, CARS);
    EntriesAreCars(d, CARS);
    assert StrictOrder(Before);
    SortIsOrdered(es, Before);
    SortIsPermutation(es, Before);
    if Ordered(other, Before) && multiset(other) == multiset(es) { OrderIsUnique(other, Ranking(d), Before); }
    if |Ranking(d)| > 0 {
      var r := Ranking(d);
      forall e | e in es ensures e.laps <= r[0].laps {
        assert e in multiset(r);
        var k :| 0 <= k < |r| && r[k] == e;
        if k > 0 { assert Before(r[0], r[k]); }
      }
    }
  }

  lemma {:induction false} PlacingAt(ranked: seq<Entry>, i: nat)
    requires i < |ranked|
    ensures |Placings(ranked)| == |ranked| && Placings(ranked)[i] == Placing(i + 1, ranked[i])
  {
    if |ranked| > 1 { PlacingAt(ranked[..|ranked| - 1], if i < |ranked| - 1 then i else 0); }
  }

  function Firsts(ranked: seq<Entry>, i: nat): set<Entry>
    requires i <= |ranked|
  {
    if i == 0 then {} else Firsts(ranked, i - 1) + {ranked[i - 1]}
  }

  ghost predicate IsAt(ranked: seq<Entry>, i: nat, x: Entry)
    requires i <= |ranked|
  {
    exists k :: 0 <= k < i && ranked[k] == x
  }

  lemma {:induction false} InFirsts(ranked: seq<Entry>, i: nat, x: Entry)
    requires i <= |ranked|
    ensures x in Firsts(ranked, i) <==> IsAt(ranked, i, x)
  {
    if i > 0 {
      InFirsts(ranked, i - 1, x);
      if ranked[i - 1] == x { assert IsAt(ranked, i, x); }
    }
  }

  lemma {:induction false} FirstsCount(ranked: seq<Entry>, i: nat)
    requires Ordered(ranked, Before) && i <= |ranked|
    ensures |Firsts(ranked, i)| == i
  {
    if i > 0 {
      FirstsCount(ranked, i - 1);
      InFirsts(ranked, i - 1, ranked[i - 1]);
      forall k | 0 <= k < i - 1 ensures ranked[k] != ranked[i - 1] { assert Before(ranked[k], ranked[i - 1]); }
    }
  }

  lemma LaterIsNotBefore(ranked: seq<Entry>, i: nat, k: nat)
    requires Ordered(ranked, Before) && i <= k < |ranked|
    ensures !Before(ranked[k], ranked[i])
  {
    if i < k { assert Before(ranked[i], ranked[k]); }
  }

  /** More laps first; on equal laps the faster best lap, a car without one last; then the lower id. */
  lemma RankedByLapsThenBest(d: Dash, i: nat, j: nat)
    requires i < j < |Ranking(d)|
    requires forall e <- Entries(d, CARS) :: e.best.Some? ==> e.best.value < 1_000_000_000_000
    ensures var a, b := Ranking(d)[i], Ranking(d)[j];
            && a.laps >= b.laps
            && (a.laps == b.laps && b.best.Some? ==> a.best.Some? && a.best.value <= b.best.value)
            && (a.laps == b.laps && a.best == b.best ==> a.id < b.id)
  {
    var es, r := Entries(d, CARS), Ranking(d);
    RankingIsTheOnlyOrder(d, r);
    assert r[i] in multiset(es) && r[j] in multiset(es);
    assert Before(r[i], r[j]);
  }

  /** What the readings of a car show after one event: fuel within 0 to 100, no negative speed. */
  lemma ReadingsShown(d: Dash, e: Event)
    requires e.car.Some? && 1 <= e.car.value <= 6
    ensures var c, c' := CarIn(d, e.car.value), CarIn(Applied(d, e), e.car.value);
            match e.payload
            case FuelData(level) =>
              c' == c.(fuel := Some(if level < 0.0 then 0.0 else if level > 100.0 then 100.0 else level), lastEventMs := Some(e.monoMs))
            case PitData(inPit) => c' == c.(inPit := inPit, lastEventMs := Some(e.monoMs))
            case SpeedData(kmh) => c' == c.(speed := Some(if kmh < 0.0 then 0.0 else kmh), lastEventMs := Some(e.monoMs))
            case ControllerData(_, _) => c' == c.(lastEventMs := Some(e.monoMs))
            case LapData(_, _, _) => c' == c.(lapCount := c'.lapCount, samples := c'.samples, totalMs := c'.totalMs,
                                              best := c'.best, latest := c'.latest, lastEventMs := c'.lastEventMs)
            case _ => c' == c
    ensures forall car: int :: car != e.car.value ==> CarIn(Applied(d, e), car) == CarIn(d, car)
  {
  }

  /** Events of no car or of one beyond 6, and those that say nothing of a car, add and change no car. */
  lemma OthersTouchNoCar(d: Dash, e: Event)
    requires e.car.None? || e.car.value < 1 || e.car.value > 6
             || e.payload.BrakeData? || e.payload.RaceStateData? || e.payload.LinkData? || e.payload.NotSupported?
             || (e.payload.LapData? && (e.payload.number < 1 || e.payload.timeMs < 0))
    ensures Applied(d, e).cars == d.cars
    ensures Applied(d, e).race == if e.payload.RaceStateData? then e.payload.state else d.race
  {
  }

  /** The stamp of the last event that counted for a car. */
  function LastCounted(es: seq<Event>, car: int): Option<int> {
    if |es| == 0 then None
    else
      var e := es[|es| - 1];
      var counts := match e.payload
        case LapData(number, timeMs, _) => number >= 1 && timeMs >= 0
        case FuelData(_) => true
        case PitData(_) => true
        case SpeedData(_) => true
        case ControllerData(_, _) => true
        case _ => false;
      if counts && e.car == Some(car) then Some(e.monoMs) else LastCounted(es[..|es| - 1], car)
  }

  lemma {:induction false} LastEventIsNewest(es: seq<Event>, car: int)
    requires 1 <= car <= CARS
    ensures CarIn(AppliedAll(EMPTY_DASH, es), car).lastEventMs == LastCounted(es, car)
  {
    if |es| > 0 { LastEventIsNewest(es[..|es| - 1], car); }
  }

  ghost function CarsAhead(d: Dash, e: Entry): set<Entry> { set x | x in Entries(d, CARS) && Before(x, e) }

  lemma AheadAreFirst(d: Dash, i: nat)
    requires i < |Ranking(d)|
    ensures CarsAhead(d, Ranking(d)[i]) == Firsts(Ranking(d), i)
  {
    var es, r := Entries(d, CARS), Ranking(d);
    RankingIsTheOnlyOrder(d, r);
    forall x ensures x in CarsAhead(d, r[i]) <==> x in Firsts(r, i) {
      InFirsts(r, i, x);
      assert x in es <==> x in multiset(r);
      if x in CarsAhead(d, r[i]) {
        var k :| 0 <= k < |r| && r[k] == x;
        if i <= k { LaterIsNotBefore(r, i, k); }
      }
      if x in Firsts(r, i) {
        var k :| 0 <= k < i && r[k] == x;
        assert Before(r[k], r[i]);
      }
    }
  }

  /** Every known car is placed once, and its position is one more than the number of cars ranked before it. */
  lemma PositionsAreRanks(d: Dash, i: nat)
    requires i < |Ranking(d)|
    ensures |Placings(Ranking(d))| == |Ranking(d)| == |Entries(d, CARS)|
    ensures Placings(Ranking(d))[i] == Placing(i + 1, Ranking(d)[i])
    ensures |CarsAhead(d, Ranking(d)[i])| == i
  {
    RankingIsTheOnlyOrder(d, Ranking(d));
    PlacingAt(Ranking(d), i);
    AheadAreFirst(d, i);
    FirstsCount(Ranking(d), i);
    assert |multiset(Entries(d, CARS))| == |Entries(d, CARS)| && |multiset(Ranking(d))| == |Ranking(d)|;
  }

  lemma {:induction false} FastestIsMinimum(es: seq<Entry>)
    ensures Fastest(es).None? ==> forall e <- es :: e.best.None?
    ensures Fastest(es).Some? ==> forall e <- es :: e.best.Some? ==> Fastest(es).value <= e.best.value
    ensures Fastest(es).Some? ==> exists e <- es :: e.best == Fastest(es)
  {
    if |es| > 0 {
      var init, last := es[..|es| - 1], es[|es| - 1];
      FastestIsMinimum(init);
      assert last in es && forall e <- init :: e in es;
      forall e | e in es ensures e in init || e == last { }
    }
  }

  function LapsUpTo(d: Dash, n: nat): int {
    if n == 0 then 0 else LapsUpTo(d, n - 1) + CarIn(d, n).lapCount
  }

  lemma {:induction false} EntriesSum(d: Dash, n: nat)
    ensures SumBy(Entries(d, n), LapsOfEntry) == LapsUpTo(d, n)
  {
    if n > 0 {
      EntriesSum(d, n - 1);
      var shorter := Entries(d, n - 1);
      if n in d.cars { assert Entries(d, n)[..|shorter|] == shorter; } else { assert Entries(d, n) == shorter; }
    }
  }

  /** Leader, fastest lap and total of a snapshot are those of the known cars. */
  lemma MetricsAreRight(d: Dash)
    ensures var m, es := MetricsOf(d), Entries(d, CARS);
            && m.totalLaps == LapsUpTo(d, CARS)
            && (m.leader.None? <==> es == [])
            && (m.leader.Some? ==> exists e <- es :: e.id == m.leader.value && forall x <- es :: x == e || Before(e, x))
            && (m.fastest.None? <==> forall e <- es :: e.best.None?)
            && (m.fastest.Some? ==> exists e <- es :: e.best == m.fastest)
            && (m.fastest.Some? ==> forall e <- es :: e.best.Some? ==> m.fastest.value <= e.best.value)
  {
    var es, r := Entries(d, CARS), Ranking(d);
    RankingIsTheOnlyOrder(d, r);
    EntriesSum(d, CARS);
    SumIgnoresOrder(r, es, LapsOfEntry);
    FastestIsMinimum(r);
    assert |multiset(es)| == |es| && |multiset(r)| == |r|;
    forall x ensures x in es <==> x in r { assert x in multiset(es) <==> x in multiset(r); }
    if r != [] {
      assert r[0] in es;
      forall x | x in es && x != r[0] ensures Before(r[0], x) {
        var k :| 0 <= k < |r| && r[k] == x;
      }
    }
  }

  lemma {:induction false} OnlyCanonicalCars(es: seq<Event>)
    ensures forall c <- AppliedAll(EMPTY_DASH, es).cars :: 1 <= c <= CARS
  {
    if |es| > 0 { OnlyCanonicalCars(es[..|es| - 1]); }
  }
}
