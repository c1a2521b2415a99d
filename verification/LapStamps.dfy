/** Laps that carry no Control Unit time, as every simulated one does, are told apart by their monotonic stamps. */
module LapStamps {
  import opened Base
  import opened Telemetry
  import opened RaceTables
  import opened Reporting
  import opened RaceRules
  import opened RaceInvariants
  import opened LapPipeline

  /** A lap of `car` with a positive time and without a usable Control Unit time. */
  predicate Unstamped(e: Event, car: int) {
    && e.payload.LapData? && e.car == Some(car) && e.payload.timeMs > 0
    && (e.payload.cuMs.None? || e.payload.cuMs.value < 0)
  }

  ghost function Recorded(cfg: Config, s: Sys, es: seq<Event>): Sys {
    if |es| == 0 then s else RecordLap(cfg, Recorded(cfg, s, es[..|es| - 1]), es[|es| - 1], NoFault, Commits, false)
  }

  predicate StampSeen(es: seq<Event>, stamp: int) { exists i :: 0 <= i < |es| && es[i].monoMs == stamp }

  /** The times of the events whose stamp is neither an earlier event's nor that of a lap already stored. */
  function NewTimes(db: Tables, id: RaceId, es: seq<Event>, car: int): seq<int>
    requires forall i :: 0 <= i < |es| ==> Unstamped(es[i], car)
  {
    if |es| == 0 then []
    else
      var init, e := es[..|es| - 1], es[|es| - 1];
      assert Unstamped(e, car);
      NewTimes(db, id, init, car)
      + (if !StampSeen(init, e.monoMs) && Identity(id, car, e.monoMs) !in db.identities then [e.payload.timeMs] else [])
  }

  /** The times of all of them. */
  function AllTimes(es: seq<Event>, car: int): seq<int>
    requires forall i :: 0 <= i < |es| ==> Unstamped(es[i], car)
  {
    seq(|es|, i requires 0 <= i < |es| => assert Unstamped(es[i], car); es[i].payload.timeMs)
  }

  /** The race stays below its lap target, if it has one, whatever of `n` more laps of `car` is stored. */
  ghost predicate RoomForAll(db: Tables, id: RaceId, car: int, n: nat)
    requires id in db.races
  {
    var form := db.races[id].form;
    form.mode.FixedLaps? && form.lapTarget.Some? ==>
      && form.lapTarget.value > 0
      && forall c: int :: |LapsOf(db.laps, id, c)| + (if c == car then n else 0) < form.lapTarget.value
  }

  /** What holds after some of the events. */
  ghost predicate Follows(s0: Sys, s: Sys, id: RaceId, es: seq<Event>, car: int)
    requires id in s0.db.races && forall i :: 0 <= i < |es| ==> Unstamped(es[i], car)
  {
    && RunsContinuously(s, id, s0.db.races[id])
    && TimesOf(LapsOf(s.db.laps, id, car)) == TimesOf(LapsOf(s0.db.laps, id, car)) + NewTimes(s0.db, id, es, car)
    && (forall c: int :: c != car ==> LapsOf(s.db.laps, id, c) == LapsOf(s0.db.laps, id, c))
    && (forall stamp: int :: Identity(id, car, stamp) in s.db.identities
          <==> Identity(id, car, stamp) in s0.db.identities || StampSeen(es, stamp))
  }

  lemma {:induction false} FewNewTimes(db: Tables, id: RaceId, es: seq<Event>, car: int)
    requires forall i :: 0 <= i < |es| ==> Unstamped(es[i], car)
    ensures |NewTimes(db, id, es, car)| <= |es|
  {
    if |es| > 0 { FewNewTimes(db, id, es[..|es| - 1], car); }
  }

  lemma StampsSnoc(init: seq<Event>, e: Event, stamp: int)
    ensures StampSeen(init + [e], stamp) <==> StampSeen(init, stamp) || e.monoMs == stamp
  {
    var es := init + [e];
    if StampSeen(init, stamp) {
      var i :| 0 <= i < |init| && init[i].monoMs == stamp;
      assert es[i].monoMs == stamp;
    }
    assert es[|init|] == e;
  }

  lemma OneMore(cfg: Config, s0: Sys, s: Sys, id: RaceId, es: seq<Event>, car: int)
    requires id in s0.db.races && car in s0.db.races[id].form.roster
    requires |es| > 0 && forall i :: 0 <= i < |es| ==> Unstamped(es[i], car)
    requires Follows(s0, s, id, es[..|es| - 1], car) && RoomForAll(s0.db, id, car, |es|)
    ensures Follows(s0, RecordLap(cfg, s, es[|es| - 1], NoFault, Commits, false), id, es, car)
  {
    var init, e := es[..|es| - 1], es[|es| - 1];
    var s', stamp := RecordLap(cfg, s, e, NoFault, Commits, false), e.monoMs;
    assert es == init + [e];
    RoomLeft(s0, s, id, es, car);
    OneEvent(cfg, s, id, e, stamp);
    forall t: int ensures StampSeen(es, t) <==> StampSeen(init, t) || stamp == t { StampsSnoc(init, e, t); }
    if Identity(id, car, stamp) in s.db.identities {
      assert NewTimes(s0.db, id, es, car) == NewTimes(s0.db, id, init, car);
    } else {
      var l := s'.db.laps[|s.db.laps|];
      TimesAfterLap(s.db.laps, l, id, car);
      forall c: int | c != car ensures LapsOf(s'.db.laps, id, c) == LapsOf(s.db.laps, id, c) { LapsOfSnoc(s.db.laps, l, id, c); }
    }
  }

  lemma RoomLeft(s0: Sys, s: Sys, id: RaceId, es: seq<Event>, car: int)
    requires id in s0.db.races && |es| > 0 && forall i :: 0 <= i < |es| ==> Unstamped(es[i], car)
    requires Follows(s0, s, id, es[..|es| - 1], car) && RoomForAll(s0.db, id, car, |es|)
    ensures RoomFor(s, id, car)
  {
    FewNewTimes(s0.db, id, es[..|es| - 1], car);
    assert |TimesOf(LapsOf(s.db.laps, id, car))| == |LapsOf(s.db.laps, id, car)|;
    assert |TimesOf(LapsOf(s0.db.laps, id, car))| == |LapsOf(s0.db.laps, id, car)|;
  }

  lemma {:induction false} EveryEventFollowed(cfg: Config, s0: Sys, id: RaceId, es: seq<Event>, car: int)
    requires id in s0.db.races && RunsContinuously(s0, id, s0.db.races[id]) && car in s0.db.races[id].form.roster
    requires (forall i :: 0 <= i < |es| ==> Unstamped(es[i], car)) && RoomForAll(s0.db, id, car, |es|)
    ensures Follows(s0, Recorded(cfg, s0, es), id, es, car)
  {
    if |es| == 0 {
      assert TimesOf(LapsOf(s0.db.laps, id, car)) + [] == TimesOf(LapsOf(s0.db.laps, id, car));
    } else {
      EveryEventFollowed(cfg, s0, id, es[..|es| - 1], car);
      OneMore(cfg, s0, Recorded(cfg, s0, es[..|es| - 1]), id, es, car);
    }
  }

  /**
   * Laps of a driver without a Control Unit time, in a running race that stays below its target: each is
   * stored exactly when its monotonic stamp is not an earlier one's, nor that of a lap already stored. The
   * stored rows go on being numbered 1, 2, 3, ... and carry the times of those events, in order.
   */
  lemma UnstampedLapsStored(cfg: Config, s0: Sys, id: RaceId, es: seq<Event>, car: int)
    requires id in s0.db.races && RunsContinuously(s0, id, s0.db.races[id]) && car in s0.db.races[id].form.roster
    requires (forall i :: 0 <= i < |es| ==> Unstamped(es[i], car)) && RoomForAll(s0.db, id, car, |es|)
    ensures var s := Recorded(cfg, s0, es);
            && s.active == Some(id) && Numbered(LapsOf(s.db.laps, id, car))
            && TimesOf(LapsOf(s.db.laps, id, car)) == TimesOf(LapsOf(s0.db.laps, id, car)) + NewTimes(s0.db, id, es, car)
  {
    EveryEventFollowed(cfg, s0, id, es, car);
    assert CarContinuous(Recorded(cfg, s0, es).db, id, car);
  }

  lemma {:induction false} AllNew(db: Tables, id: RaceId, es: seq<Event>, car: int)
    requires forall i :: 0 <= i < |es| ==> Unstamped(es[i], car)
    requires forall i, j :: 0 <= i < j < |es| ==> es[i].monoMs != es[j].monoMs
    requires forall i :: 0 <= i < |es| ==> Identity(id, car, es[i].monoMs) !in db.identities
    ensures NewTimes(db, id, es, car) == AllTimes(es, car)
  {
    if |es| > 0 {
      AllNew(db, id, es[..|es| - 1], car);
      assert !StampSeen(es[..|es| - 1], es[|es| - 1].monoMs);
    }
  }

  /** In particular, with all stamps new and different, every lap is stored. */
  lemma DifferentStampsAllStored(cfg: Config, s0: Sys, id: RaceId, es: seq<Event>, car: int)
    requires id in s0.db.races && RunsContinuously(s0, id, s0.db.races[id]) && car in s0.db.races[id].form.roster
    requires (forall i :: 0 <= i < |es| ==> Unstamped(es[i], car)) && RoomForAll(s0.db, id, car, |es|)
    requires forall i, j :: 0 <= i < j < |es| ==> es[i].monoMs != es[j].monoMs
    requires forall i :: 0 <= i < |es| ==> Identity(id, car, es[i].monoMs) !in s0.db.identities
    ensures TimesOf(LapsOf(Recorded(cfg, s0, es).db.laps, id, car))
            == TimesOf(LapsOf(s0.db.laps, id, car)) + AllTimes(es, car)
  {
    UnstampedLapsStored(cfg, s0, id, es, car);
    AllNew(s0.db, id, es, car);
  }
}
