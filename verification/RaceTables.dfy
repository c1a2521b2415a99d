/** Rows of the race database and the queries over them. */
module RaceTables {
  import opened Base

  type RaceId = nat

  /** A race has cars 1..CARS. */
  const CARS: nat := 6

  datatype Status = Draft | Ready | Running | Paused | Finished | Cancelled {
    predicate Live() { Running? || Paused? }
    predicate Terminal() { Finished? || Cancelled? }
    predicate Unstarted() { Draft? || Ready? }
  }

  datatype Mode = FixedLaps | FixedDuration

  /** What a validated create/edit request carries; `roster` maps car id to driver name. */
  datatype RawForm = Form(mode: Mode, lapTarget: Option<int>, durationSeconds: Option<int>, roster: map<int, string>)

  predicate ValidForm(f: RawForm) {
    && (f.mode.FixedLaps? ==> f.lapTarget.Some? && f.lapTarget.value >= 1 && f.durationSeconds.None?)
    && (f.mode.FixedDuration? ==> f.durationSeconds.Some? && f.durationSeconds.value >= 1 && f.lapTarget.None?)
    && |f.roster| >= 1
    && (forall c <- f.roster :: 1 <= c <= CARS)
  }

  type Form = f: RawForm | ValidForm(f) witness Form(FixedLaps, Some(1), None, map[1 := "A"])

  datatype Race = Race(form: Form, status: Status, startedAt: Option<int>, finishedAt: Option<int>)

  datatype Lap = Lap(race: RaceId, car: int, driver: string, number: int, timeMs: int, at: int)

  /** One row per accepted crossing of a car; (race, car, cuMs) is unique. */
  datatype Identity = Identity(race: RaceId, car: int, cuMs: int)

  datatype Checkpoint = Checkpoint(lastCuMs: int, lapCount: int)

  datatype Move = MarkReady | Start | Pause | Resume | Finish | Cancel

  datatype EventKind = Lifecycle(move: Move) | SafetyCarStarted | SafetyCarEnded | Telemetered {
    predicate Safety() { SafetyCarStarted? || SafetyCarEnded? }
  }

  datatype RaceEvent = RaceEvent(race: RaceId, at: int, kind: EventKind, car: Option<int>)

  datatype DriverStats = DriverStats(
    car: int, name: string, laps: nat, best: Option<int>, average: Option<int>, last: Option<int>, total: Option<int>)

  datatype StandingsRow = StandingsRow(
    position: nat, car: int, name: string, laps: nat, best: Option<int>, total: Option<int>,
    gap: Option<int>, lapsBehind: int)

  datatype Summary = Summary(
    race: Race, durationMs: Option<int>, drivers: seq<DriverStats>, standings: seq<StandingsRow>)

  datatype Report = Report(race: RaceId, summary: Summary)

  /** Everything that survives a crash. Sequences are tables in insertion (row id) order. */
  datatype Tables = Tables(
    races: map<RaceId, Race>,
    laps: seq<Lap>,
    identities: seq<Identity>,
    checkpoints: map<(RaceId, int), Checkpoint>,
    events: seq<RaceEvent>,
    reports: seq<Report>)

  const EMPTY: Tables := Tables(map[], [], [], map[], [], [])

  function RaceLaps(laps: seq<Lap>, id: RaceId): seq<Lap> { Filter(laps, (l: Lap) => l.race == id) }

  function CarLaps(laps: seq<Lap>, car: int): seq<Lap> { Filter(laps, (l: Lap) => l.car == car) }

  function LapsOf(laps: seq<Lap>, id: RaceId, car: int): seq<Lap> { CarLaps(RaceLaps(laps, id), car) }

  function IdentitiesOf(ids: seq<Identity>, id: RaceId, car: int): seq<Identity> {
    Filter(ids, (i: Identity) => i.race == id && i.car == car)
  }

  function SafetyLog(events: seq<RaceEvent>, id: RaceId): seq<RaceEvent> {
    Filter(events, (e: RaceEvent) => e.race == id && e.kind.Safety())
  }

  function LapsWithout(laps: seq<Lap>, id: RaceId): seq<Lap> { Filter(laps, (l: Lap) => l.race != id) }

  function IdentitiesWithout(ids: seq<Identity>, id: RaceId): seq<Identity> { Filter(ids, (i: Identity) => i.race != id) }

  function EventsWithout(events: seq<RaceEvent>, id: RaceId): seq<RaceEvent> { Filter(events, (e: RaceEvent) => e.race != id) }

  function ReportsWithout(reports: seq<Report>, id: RaceId): seq<Report> { Filter(reports, (r: Report) => r.race != id) }

  lemma LapsOfSnoc(laps: seq<Lap>, x: Lap, id: RaceId, car: int)
    ensures RaceLaps(laps + [x], id) == RaceLaps(laps, id) + (if x.race == id then [x] else [])
    ensures LapsOf(laps + [x], id, car) == LapsOf(laps, id, car) + (if x.race == id && x.car == car then [x] else [])
  {
    FilterSnoc(laps, x, (l: Lap) => l.race == id);
    var rows := RaceLaps(laps, id);
    if x.race == id {
      assert RaceLaps(laps + [x], id) == rows + [x];
      FilterSnoc(rows, x, (l: Lap) => l.car == car);
      assert CarLaps(rows + [x], car) == CarLaps(rows, car) + (if x.car == car then [x] else []);
    } else {
      assert RaceLaps(laps + [x], id) == rows;
    }
  }

  lemma IdentitiesOfSnoc(ids: seq<Identity>, x: Identity, id: RaceId, car: int)
    ensures IdentitiesOf(ids + [x], id, car) == IdentitiesOf(ids, id, car) + (if x.race == id && x.car == car then [x] else [])
  {
    FilterSnoc(ids, x, (i: Identity) => i.race == id && i.car == car);
  }

  lemma SafetyLogSnoc(events: seq<RaceEvent>, x: RaceEvent, id: RaceId)
    ensures SafetyLog(events + [x], id) == SafetyLog(events, id) + (if x.race == id && x.kind.Safety() then [x] else [])
  {
    FilterSnoc(events, x, (e: RaceEvent) => e.race == id && e.kind.Safety());
  }

  /** ON DELETE CASCADE removes exactly the rows of the deleted race. */
  lemma WithoutRace(t: Tables, gone: RaceId, id: RaceId, car: int)
    ensures RaceLaps(LapsWithout(t.laps, gone), id) == if id == gone then [] else RaceLaps(t.laps, id)
    ensures IdentitiesOf(IdentitiesWithout(t.identities, gone), id, car) == if id == gone then [] else IdentitiesOf(t.identities, id, car)
    ensures SafetyLog(EventsWithout(t.events, gone), id) == if id == gone then [] else SafetyLog(t.events, id)
  {
    if id == gone {
      FilterNone(t.laps, (l: Lap) => l.race != gone, (l: Lap) => l.race == id);
      FilterNone(t.identities, (i: Identity) => i.race != gone, (i: Identity) => i.race == id && i.car == car);
      FilterNone(t.events, (e: RaceEvent) => e.race != gone, (e: RaceEvent) => e.race == id && e.kind.Safety());
    } else {
      FilterStronger(t.laps, (l: Lap) => l.race != gone, (l: Lap) => l.race == id);
      FilterStronger(t.identities, (i: Identity) => i.race != gone, (i: Identity) => i.race == id && i.car == car);
      FilterStronger(t.events, (e: RaceEvent) => e.race != gone, (e: RaceEvent) => e.race == id && e.kind.Safety());
    }
  }
}
