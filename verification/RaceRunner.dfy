/** The race runner: hands every live event to the race service, one at a time. */
module RaceRunner {
  import opened Base
  import opened Telemetry
  import opened LiveAdapter
  import opened RaceService
  import opened LapPipeline

  class RaceTelemetryRunner {
    const service: RaceService
    var latestRaceState: Option<RaceState>

    constructor (service: RaceService)
      ensures this.service == service && latestRaceState == None
    {
      this.service := service;
      latestRaceState := None;
    }

    method DispatchEvent(e: Event, f: Faults)
      modifies this, service, service.db, service.context
      ensures service.State() == DispatchWith(service.cfg, old(service.State()), e, f)
      ensures latestRaceState == if e.payload.RaceStateData? then Some(e.payload.state) else old(latestRaceState)
    {
      if e.payload.RaceStateData? { latestRaceState := Some(e.payload.state); }
      if service.context.raceId.None? { return; }
      if e.payload.LapData? {
        service.IngestLap(e, f.lap, f.finishTx, f.snapshotFails);
      } else if service.cfg.persistEvents {
        service.IngestEvent(e, f.eventFails);
      }
    }

    /**
     * One polled frame on its way from the adapter into the database. A frame that cannot be read ends the
     * session (`ok` false): nothing is dispatched, and the next adapter starts from scratch.
     */
    method FollowFrame(adapter: LiveCarreraAdapter, f: Frame, monoMs: nat, at: int) returns (ok: bool)
      requires adapter.Reading()
      modifies this, service, service.db, service.context, adapter, adapter.mapping
      ensures ok ==> adapter.Reading()
      ensures ok == Readable(adapter.mapping.mode, old(adapter.State()), f)
      ensures var fed := Feed(service.cfg, adapter.mapping.mode, Pipe(old(adapter.State()), old(service.State())), Got(f, monoMs, at));
              fed == Pipe(if ok then adapter.State() else NEW_SESSION, service.State())
    {
      ghost var before := service.State();
      var raws;
      ok, raws := adapter.OnFrame(f);
      if !ok { return; }
      for k := 0 to |raws|
        invariant adapter.Reading() && adapter.State() == Poll(adapter.mapping.mode, old(adapter.State()), f).0
        invariant service.State() == DispatchAll(service.cfg, before, raws[..k], monoMs, at)
      {
        assert raws[..k + 1][..k] == raws[..k];
        DispatchEvent(ToEvent(raws[k], monoMs, at), NO_FAULTS);
      }
      assert raws[..|raws|] == raws;
    }
  }
}
