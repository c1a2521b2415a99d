/**
 * The Bluetooth supervisor between two suspension points: one step is whatever runs until the next
 * await that can hand control to another task. The class is proved against these functions.
 */
module SupervisorRules {
  import opened Base
  import opened Telemetry

  // ----- the command slot shared with the user interface

  datatype Command = ToConnect | ToDisconnect | ToScan | ToRetry {
    predicate Wakes() { ToConnect? || ToRetry? }
  }

  datatype Mailbox = Mailbox(desired: bool, serial: nat, pending: Option<Command>)

  function Requested(m: Mailbox, c: Command): Mailbox {
    Mailbox(if c.ToConnect? then true else if c.ToDisconnect? then false else m.desired, m.serial + 1, Some(c))
  }

  /** A command is delivered once: only while its number is above the last one seen. */
  function Delivered(m: Mailbox, lastSerial: nat): Option<Command> { if m.serial <= lastSerial then None else m.pending }

  // ----- the supervisor

  datatype Config = Config(
    allowConnect: bool, allowDisconnect: bool, scanFirst: bool, staleMs: int, reconnectOnStale: bool,
    schedule: seq<real>, interval: real)

  /** Who wants the operation lock. */
  datatype Job = ApiConnect | ApiDisconnect(manual: bool) | ApiRetry | ApiScan | LoopConnect | LoopScan {
    predicate OfLoop() { LoopConnect? || LoopScan? }
  }

  /** What the holder of the lock is waiting for. */
  datatype Phase = ClosingFor(id: nat) | ScanRuns | Resolving | Opening(id: nat, reset: bool)

  datatype Hold = Hold(job: Job, phase: Phase)

  datatype Cause = UiDisconnect | UiRetry | WentStale | Dropped

  /** Where the run loop is suspended; Running only inside a step. */
  datatype Loop = NotStarted | Running | Waiting | Pumping | Closing(id: nat, cause: Cause) | Queued | Holding

  datatype Why = Unwanted | BackingOff | Erroring

  /** History: connects begun, sessions opened and closed, waits of the loop, disconnects carried out. */
  datatype Note =
    | Started(id: nat, reset: bool)
    | Opened(id: nat, reset: bool)
    | Closed(id: nat)
    | Slept(why: Why, seconds: real)
    | DisconnectDone

  datatype Sup = Sup(
    box: Mailbox, desired: bool, manual: bool, status: LinkState, attempts: nat, lastRx: Option<int>,
    lastSerial: nat, connectedOnce: bool, adapter: Option<nat>, nextId: nat,
    loop: Loop, holder: Option<Hold>, waiters: seq<Job>, log: seq<Note>)

  function Fresh(box: Mailbox): Sup {
    Sup(box, box.desired, false, Disconnected, 0, None, box.serial, false, None, 0, NotStarted, None, [], [])
  }

  function Noted(s: Sup, n: Note): Sup { s.(log := s.log + [n]) }

  predicate Free(s: Sup) { s.holder.None? && s.waiters == [] }

  function NextDelay(cfg: Config, attempts: nat): real {
    if cfg.schedule == [] then cfg.interval
    else
      var k := if attempts == 0 then 0 else attempts - 1;
      cfg.schedule[if k < |cfg.schedule| then k else |cfg.schedule| - 1]
  }

  function Sleep(s: Sup, why: Why, seconds: real): Sup { Noted(s, Slept(why, seconds)).(loop := Waiting) }

  function BackOff(cfg: Config, s: Sup): Sup { Sleep(s, BackingOff, NextDelay(cfg, s.attempts)) }

  function OneFailure(s: Sup, status: LinkState): Sup { s.(status := status, attempts := s.attempts + 1) }

  // ----- the run loop, from one suspension to the next

  /** adapter.connect begins, under the lock; only adapters made before the first success reset the clock. */
  function Open(s: Sup): Sup {
    Noted(s, Started(s.nextId, !s.connectedOnce)).(
      status := Connecting, nextId := s.nextId + 1,
      loop := Holding, holder := Some(Hold(LoopConnect, Opening(s.nextId, !s.connectedOnce))))
  }

  function BeginConnect(cfg: Config, s: Sup): Sup {
    if cfg.scanFirst then s.(loop := Holding, holder := Some(Hold(LoopConnect, Resolving))) else Open(s)
  }

  function Enqueued(s: Sup, job: Job): Sup { s.(loop := Queued, waiters := s.waiters + [job]) }

  /** The rest of an iteration, once the settings were read. */
  function Decide(cfg: Config, s: Sup): Sup {
    if !s.desired then Sleep(s, Unwanted, 0.25)
    else if s.adapter.Some? then s.(loop := Pumping)
    else if Free(s) then BeginConnect(cfg, s)
    else Enqueued(s, LoopConnect)
  }

  predicate Busy(status: LinkState) {
    status.Connecting? || status.Connected? || status.Subscribing? || status.Reconnecting? || status.LinkReady?
  }

  function LoopScans(cfg: Config, s: Sup): Sup {
    if Busy(s.status) then Decide(cfg, s)
    else s.(status := Scanning, loop := Holding, holder := Some(Hold(LoopScan, ScanRuns)))
  }

  /** What follows, in the loop, once the adapter of a closing is gone. */
  function AfterUiDisconnect(cfg: Config, s: Sup): Sup { Decide(cfg, s.(status := ManuallyDisconnected)) }

  function AfterUiRetry(cfg: Config, s: Sup): Sup { Decide(cfg, s.(status := Reconnecting)) }

  function Detached(s: Sup, cause: Cause): Sup
    requires s.adapter.Some?
  {
    s.(adapter := None, loop := Closing(s.adapter.value, cause))
  }

  function Obeyed(cfg: Config, s: Sup, command: Command): Sup {
    match command
    case ToConnect => Decide(cfg, s.(desired := true, manual := false))
    case ToDisconnect =>
      var off := s.(desired := false, manual := true);
      if off.adapter.Some? then Detached(off, UiDisconnect) else AfterUiDisconnect(cfg, off)
    case ToRetry =>
      var on := s.(desired := true, manual := false);
      if on.adapter.Some? then Detached(on, UiRetry) else AfterUiRetry(cfg, on)
    case ToScan => if Free(s) then LoopScans(cfg, s) else Enqueued(s, LoopScan)
  }

  /** Top of an iteration: read the settings, obey a new command, decide. */
  function Top(cfg: Config, s: Sup): Sup {
    var command := Delivered(s.box, s.lastSerial);
    var s' := s.(loop := Running, desired := s.box.desired,
                 lastSerial := if s.box.serial <= s.lastSerial then s.lastSerial else s.box.serial);
    if command.None? then Decide(cfg, s') else Obeyed(cfg, s', command.value)
  }

  function ConnectFailed(cfg: Config, s: Sup): Sup {
    var failed := OneFailure(s, LinkError);
    if !s.desired then Top(cfg, failed) else BackOff(cfg, failed.(status := Reconnecting))
  }

  function ConnectDone(cfg: Config, s: Sup, id: nat, reset: bool, now: int): Sup {
    Top(cfg, Noted(s, Opened(id, reset)).(
      adapter := Some(id), connectedOnce := true, status := LinkReady, attempts := 0, lastRx := Some(now)))
  }

  function AfterDrop(cfg: Config, s: Sup): Sup {
    if !s.desired then Top(cfg, s.(status := Disconnected)) else BackOff(cfg, OneFailure(s, Reconnecting))
  }

  function AfterStale(cfg: Config, s: Sup): Sup { Top(cfg, OneFailure(s, Reconnecting)) }

  predicate TooOld(cfg: Config, s: Sup, now: int) {
    s.status.LinkReady? && s.lastRx.Some? && now - s.lastRx.value >= cfg.staleMs
  }

  function MaybeStale(cfg: Config, s: Sup, now: int): Sup {
    if !TooOld(cfg, s, now) then Top(cfg, s)
    else
      var stale := s.(status := Stale);
      if !(cfg.reconnectOnStale && s.desired) then Top(cfg, stale)
      else if s.adapter.Some? then Detached(stale, WentStale)
      else AfterStale(cfg, stale)
  }

  function StreamEnded(cfg: Config, s: Sup): Sup {
    if s.manual && !s.desired then Top(cfg, s)
    else if s.adapter.Some? then Detached(s, Dropped)
    else AfterDrop(cfg, s)
  }

  function LoopCrashed(s: Sup): Sup { Sleep(OneFailure(s, LinkError), Erroring, 1.0) }

  /** An event from the adapter: its own telemetry, a connection event, or anything else. */
  datatype Heard = Own(monoMs: int) | Link(state: LinkState) | Other

  datatype Outcome = Silence(now: int) | Got(heard: Heard, now: int) | Ended | Crashed

  function HeardBy(s: Sup, h: Heard): Sup {
    match h
    case Own(ms) =>
      var seen := s.(lastRx := Some(ms));
      if s.status.Stale? || s.status.Connected? || s.status.Subscribing?
      then seen.(status := LinkReady, attempts := 0) else seen
    case Link(l) => if l.Stale? || l.Reconnecting? || l.LinkError? then s.(status := l) else s
    case Other => s
  }

  function Pumped(cfg: Config, s: Sup, o: Outcome): Sup {
    match o
    case Silence(now) => MaybeStale(cfg, s, now)
    case Got(heard, now) => MaybeStale(cfg, HeardBy(s, heard), now)
    case Ended => StreamEnded(cfg, s)
    case Crashed => LoopCrashed(s)
  }

  // ----- the public calls, once they hold the lock

  function StartedLoop(s: Sup): Loop { if s.loop.NotStarted? then Waiting else s.loop }

  function ApiConnects(s: Sup): Sup {
    s.(desired := true, manual := false, box := s.box.(desired := true),
       status := if s.status.ManuallyDisconnected? then Disconnected else s.status, loop := StartedLoop(s))
  }

  function DisconnectEnds(s: Sup, manual: bool): Sup {
    Noted(s, DisconnectDone).(status := if manual then ManuallyDisconnected else Disconnected)
  }

  function ApiDisconnects(s: Sup, manual: bool): Sup {
    var off := s.(desired := false, manual := manual, box := s.box.(desired := false));
    if s.adapter.Some? then off.(adapter := None, holder := Some(Hold(ApiDisconnect(manual), ClosingFor(s.adapter.value))))
    else DisconnectEnds(off, manual)
  }

  function RetryEnds(s: Sup): Sup { s.(status := Disconnected, loop := StartedLoop(s)) }

  function ApiRetries(s: Sup): Sup {
    var on := s.(desired := true, manual := false, box := Requested(s.box.(desired := true), ToRetry), status := Reconnecting);
    if s.adapter.Some? then on.(adapter := None, holder := Some(Hold(ApiRetry, ClosingFor(s.adapter.value))))
    else RetryEnds(on)
  }

  function ApiScans(s: Sup): Sup {
    if Busy(s.status) then s else s.(status := Scanning, holder := Some(Hold(ApiScan, ScanRuns)))
  }

  function ScanEnds(s: Sup): Sup { if s.desired then s else s.(status := Disconnected) }

  function Granted(cfg: Config, s: Sup, job: Job): Sup {
    match job
    case ApiConnect => ApiConnects(s)
    case ApiDisconnect(manual) => ApiDisconnects(s, manual)
    case ApiRetry => ApiRetries(s)
    case ApiScan => ApiScans(s)
    case LoopConnect => BeginConnect(cfg, s.(loop := Running))
    case LoopScan => LoopScans(cfg, s.(loop := Running))
  }

  function Asked(cfg: Config, s: Sup, job: Job): Sup {
    if Free(s) then Granted(cfg, s, job) else s.(waiters := s.waiters + [job])
  }

  // ----- steps

  datatype Action =
    | Ipc(command: Command)
    | SetDesired(value: bool)
    | CallConnect
    | CallDisconnect(manual: bool)
    | CallRetry
    | CallScan
    | Grant
    | HolderResumes(ok: bool, now: int)
    | LoopResumes(outcome: Outcome)

  function HolderResumed(cfg: Config, s: Sup, h: Hold, ok: bool, now: int): Sup {
    var r := s.(holder := None);
    match h.phase
    case ClosingFor(id) =>
      var closed := Noted(r, Closed(id));
      if h.job.ApiDisconnect? then DisconnectEnds(closed, h.job.manual) else RetryEnds(closed)
    case ScanRuns =>
      if h.job.ApiScan? then (if ok then ScanEnds(r) else r)
      else if ok then Decide(cfg, ScanEnds(r.(loop := Running)))
      else LoopCrashed(r.(loop := Running))
    case Resolving => if ok then Open(r) else ConnectFailed(cfg, r.(loop := Running))
    case Opening(id, reset) =>
      if ok then ConnectDone(cfg, r.(loop := Running), id, reset, now) else ConnectFailed(cfg, r.(loop := Running))
  }

  function AfterClosing(cfg: Config, s: Sup, cause: Cause): Sup {
    match cause
    case UiDisconnect => AfterUiDisconnect(cfg, s)
    case UiRetry => AfterUiRetry(cfg, s)
    case WentStale => AfterStale(cfg, s)
    case Dropped => AfterDrop(cfg, s)
  }

  function LoopResumed(cfg: Config, s: Sup, o: Outcome): Sup {
    match s.loop
    case Waiting => Top(cfg, s)
    case Pumping => Pumped(cfg, s.(loop := Running), o)
    case Closing(id, cause) => AfterClosing(cfg, Noted(s, Closed(id)).(loop := Running), cause)
    case _ => s
  }

  /** A step whose task is not there to take it changes nothing. */
  function Step(cfg: Config, s: Sup, a: Action): Sup {
    match a
    case Ipc(c) => s.(box := Requested(s.box, c))
    case SetDesired(value) => s.(box := s.box.(desired := value))
    case CallConnect => if cfg.allowConnect then Asked(cfg, s, ApiConnect) else s.(status := LinkError)
    case CallDisconnect(manual) =>
      if manual && !cfg.allowDisconnect then s.(status := LinkError) else Asked(cfg, s, ApiDisconnect(manual))
    case CallRetry => Asked(cfg, s, ApiRetry)
    case CallScan => Asked(cfg, s, ApiScan)
    case Grant => if s.holder.None? && s.waiters != [] then Granted(cfg, s.(waiters := s.waiters[1..]), s.waiters[0]) else s
    case HolderResumes(ok, now) => if s.holder.Some? then HolderResumed(cfg, s, s.holder.value, ok, now) else s
    case LoopResumes(o) => LoopResumed(cfg, s, o)
  }

  function Run(cfg: Config, s: Sup, actions: seq<Action>): Sup {
    if |actions| == 0 then s else Step(cfg, Run(cfg, s, actions[..|actions| - 1]), actions[|actions| - 1])
  }
}
