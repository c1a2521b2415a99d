/** The canonical telemetry event that flows from the adapter to every consumer. */
module Telemetry {
  import opened Base

  datatype RaceState = Idle | Countdown | RaceRunning | RacePaused | RaceFinished

  datatype LinkState =
    | Disconnected | ManuallyDisconnected | Scanning | Connecting | Connected | Subscribing
    | LinkReady | Stale | Degraded | Stalled | Reconnecting | LinkError

  datatype Payload =
    | LapData(number: int, timeMs: int, cuMs: Option<int>)
    | FuelData(level: real)
    | PitData(inPit: bool)
    | SpeedData(kmh: real)
    | ControllerData(throttle: real, brake: real)
    | BrakeData(force: real)
    | RaceStateData(state: RaceState)
    | LinkData(link: LinkState)
    | NotSupported

  /** `car` is what the producer reported: 1..8, of which only 1..6 can race. */
  datatype Event = Event(car: Option<int>, monoMs: nat, at: int, payload: Payload)
}
