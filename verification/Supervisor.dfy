/**
 * The command slot and the supervisor as objects changed in place. Each method runs from one suspension
 * point to the next; what it leaves in `loop`, `holder` and `waiters` says who is suspended where.
 */
module Supervisor {
  import opened Base
  import opened Telemetry
  import opened SupervisorRules

  class RuntimeSettings {
    var desired: bool
    var serial: nat
    var pending: Option<Command>

    ghost function Box(): Mailbox
      reads this
    {
      Mailbox(desired, serial, pending)
    }

    constructor ()
      ensures Box() == Mailbox(false, 0, None)
    {
      desired, serial, pending := false, 0, None;
    }

    method SetDesiredConnected(value: bool)
      modifies this
      ensures Box() == old(Box()).(desired := value)
    {
      desired := value;
    }

    method RequestCommand(command: Command) returns (number: nat)
      modifies this
      ensures Box() == Requested(old(Box()), command) && number == serial
    {
      serial := serial + 1;
      pending := Some(command);
      if command.ToConnect? {
        desired := true;
      } else if command.ToDisconnect? {
        desired := false;
      }
      number := serial;
    }

    method ConsumeCommand(last: nat) returns (number: nat, command: Option<Command>)
      ensures number == serial && command == Delivered(Box(), last)
    {
      number := serial;
      command := if serial <= last then None else pending;
    }
  }

  function RequestedAll(m: Mailbox, commands: seq<Command>): Mailbox {
    if |commands| == 0 then m else Requested(RequestedAll(m, commands[..|commands| - 1]), commands[|commands| - 1])
  }

  function LastWish(desired: bool, commands: seq<Command>): bool {
    if |commands| == 0 then desired
    else
      match commands[|commands| - 1]
      case ToConnect => true
      case ToDisconnect => false
      case _ => LastWish(desired, commands[..|commands| - 1])
  }

  /**
   * Whatever is requested between two reads: the reader gets exactly the newest command, once; the
   * overwritten ones survive only in the desired flag, which is the last connect or disconnect among them.
   */
  lemma {:induction false} NewestCommandOnly(m: Mailbox, commands: seq<Command>)
    ensures var m' := RequestedAll(m, commands);
            && m'.serial == m.serial + |commands| && m'.desired == LastWish(m.desired, commands)
            && Delivered(m', m.serial) == (if commands == [] then None else Some(commands[|commands| - 1]))
            && Delivered(m', m'.serial) == None
  {
    if |commands| > 0 { NewestCommandOnly(m, commands[..|commands| - 1]); }
  }

  class BluetoothConnectionSupervisor {
    const cfg: Config
    const runtime: RuntimeSettings
    var desired: bool
    var manual: bool
    var status: LinkState
    var attempts: nat
    var lastRx: Option<int>
    var lastSerial: nat
    var connectedOnce: bool
    var adapter: Option<nat>
    var nextId: nat
    var loop: Loop
    var holder: Option<Hold>
    var waiters: seq<Job>
    ghost var log: seq<Note>

    ghost function State(): Sup
      reads this, runtime
    {
      Sup(runtime.Box(), desired, manual, status, attempts, lastRx, lastSerial, connectedOnce, adapter, nextId,
          loop, holder, waiters, log)
    }

    constructor (cfg: Config, runtime: RuntimeSettings)
      ensures this.cfg == cfg && this.runtime == runtime && State() == Fresh(runtime.Box())
    {
      this.cfg, this.runtime := cfg, runtime;
      desired, manual, status, attempts, lastRx := runtime.desired, false, Disconnected, 0, None;
      lastSerial, connectedOnce, adapter, nextId := runtime.serial, false, None, 0;
      loop, holder, waiters, log := NotStarted, None, [], [];
    }

    // ----- the run loop

    method WaitOrWake(why: Why, seconds: real)
      modifies this
      ensures State() == Sleep(old(State()), why, seconds)
    {
      log := log + [Slept(why, seconds)];
      loop := Waiting;
    }

    method NextBackoffDelay() returns (seconds: real)
      ensures seconds == NextDelay(cfg, attempts)
      ensures |cfg.schedule| == 0 ==> seconds == cfg.interval
      ensures 1 <= attempts <= |cfg.schedule| ==> seconds == cfg.schedule[attempts - 1]
      ensures attempts > |cfg.schedule| > 0 ==> seconds == cfg.schedule[|cfg.schedule| - 1]
    {
      if cfg.schedule == [] { return cfg.interval; }
      var k := if attempts == 0 then 0 else attempts - 1;
      if k > |cfg.schedule| - 1 { k := |cfg.schedule| - 1; }
      seconds := cfg.schedule[k];
    }

    method CountFailure(state: LinkState)
      modifies this
      ensures State() == OneFailure(old(State()), state)
    {
      status := state;
      attempts := attempts + 1;
    }

    /** Holding the lock: adapter.connect is called and suspends. */
    method OpenAdapter()
      modifies this
      ensures State() == Open(old(State()))
    {
      status := Connecting;
      var reset := true;
      if connectedOnce { reset := false; }
      log := log + [Started(nextId, reset)];
      loop, holder := Holding, Some(Hold(LoopConnect, Opening(nextId, reset)));
      nextId := nextId + 1;
    }

    method ConnectOnceLocked()
      modifies this
      ensures State() == BeginConnect(cfg, old(State()))
    {
      if cfg.scanFirst {
        loop, holder := Holding, Some(Hold(LoopConnect, Resolving));
      } else {
        OpenAdapter();
      }
    }

    method ActOnDesire()
      modifies this
      ensures State() == Decide(cfg, old(State()))
    {
      if !desired {
        WaitOrWake(Unwanted, 0.25);
      } else if adapter.Some? {
        loop := Pumping;
      } else if holder.None? && waiters == [] {
        ConnectOnceLocked();
      } else {
        loop, waiters := Queued, waiters + [LoopConnect];
      }
    }

    method ScanFromLoop()
      modifies this
      ensures State() == LoopScans(cfg, old(State()))
    {
      if Busy(status) {
        ActOnDesire();
      } else {
        status, loop, holder := Scanning, Holding, Some(Hold(LoopScan, ScanRuns));
      }
    }

    /** Takes the session away from the loop's view; its disconnect is now in flight. */
    method Detach(cause: Cause)
      requires adapter.Some?
      modifies this
      ensures State() == Detached(old(State()), cause)
    {
      loop := Closing(adapter.value, cause);
      adapter := None;
    }

    method Obey(command: Command)
      modifies this
      ensures State() == Obeyed(cfg, old(State()), command)
    {
      match command
      case ToConnect =>
        desired, manual := true, false;
        ActOnDesire();
      case ToDisconnect =>
        desired, manual := false, true;
        if adapter.Some? {
          Detach(UiDisconnect);
        } else {
          status := ManuallyDisconnected;
          ActOnDesire();
        }
      case ToRetry =>
        desired, manual := true, false;
        if adapter.Some? {
          Detach(UiRetry);
        } else {
          status := Reconnecting;
          ActOnDesire();
        }
      case ToScan =>
        if holder.None? && waiters == [] {
          ScanFromLoop();
        } else {
          loop, waiters := Queued, waiters + [LoopScan];
        }
    }

    /** One iteration from its top: settings, then a new command if any, then the decision. */
    method SyncRuntimeRequests()
      modifies this
      ensures State() == Top(cfg, old(State()))
    {
      loop, desired := Running, runtime.desired;
      var number, command := runtime.ConsumeCommand(lastSerial);
      if number > lastSerial { lastSerial := number; }
      if command.Some? { Obey(command.value); } else { ActOnDesire(); }
    }

    method BackOffNow()
      modifies this
      ensures State() == BackOff(cfg, old(State()))
    {
      var seconds := NextBackoffDelay();
      WaitOrWake(BackingOff, seconds);
    }

    method OnConnectFailed()
      modifies this
      ensures State() == ConnectFailed(cfg, old(State()))
    {
      CountFailure(LinkError);
      if !desired {
        SyncRuntimeRequests();
      } else {
        status := Reconnecting;
        BackOffNow();
      }
    }

    method OnConnected(id: nat, reset: bool, now: int)
      modifies this
      ensures State() == ConnectDone(cfg, old(State()), id, reset, now)
    {
      adapter, connectedOnce := Some(id), true;
      log := log + [Opened(id, reset)];
      status, attempts, lastRx := LinkReady, 0, Some(now);
      SyncRuntimeRequests();
    }

    method OnDropped()
      modifies this
      ensures State() == AfterDrop(cfg, old(State()))
    {
      if !desired {
        status := Disconnected;
        SyncRuntimeRequests();
      } else {
        CountFailure(Reconnecting);
        BackOffNow();
      }
    }

    method OnStaleClosed()
      modifies this
      ensures State() == AfterStale(cfg, old(State()))
    {
      CountFailure(Reconnecting);
      SyncRuntimeRequests();
    }

    method MaybeMarkStale(now: int)
      modifies this
      ensures State() == MaybeStale(cfg, old(State()), now)
    {
      if !status.LinkReady? || lastRx.None? || now - lastRx.value < cfg.staleMs {
        SyncRuntimeRequests();
        return;
      }
      status := Stale;
      if !(cfg.reconnectOnStale && desired) {
        SyncRuntimeRequests();
      } else if adapter.Some? {
        Detach(WentStale);
      } else {
        OnStaleClosed();
      }
    }

    method HandleUnexpectedDisconnect()
      modifies this
      ensures State() == StreamEnded(cfg, old(State()))
    {
      if manual && !desired {
        SyncRuntimeRequests();
      } else if adapter.Some? {
        Detach(Dropped);
      } else {
        OnDropped();
      }
    }

    method SetError()
      modifies this
      ensures State() == LoopCrashed(old(State()))
    {
      CountFailure(LinkError);
      WaitOrWake(Erroring, 1.0);
    }

    method TakeIn(heard: Heard)
      modifies this
      ensures State() == HeardBy(old(State()), heard)
    {
      match heard
      case Own(ms) =>
        lastRx := Some(ms);
        if status.Stale? || status.Connected? || status.Subscribing? {
          status, attempts := LinkReady, 0;
        }
      case Link(l) =>
        if l.Stale? || l.Reconnecting? || l.LinkError? { status := l; }
      case Other =>
    }

    /** The wait for the next adapter event ends. */
    method PumpLiveEventsOnce(o: Outcome)
      modifies this
      ensures State() == Pumped(cfg, old(State()), o)
    {
      match o
      case Silence(now) => MaybeMarkStale(now);
      case Got(heard, now) =>
        TakeIn(heard);
        MaybeMarkStale(now);
      case Ended => HandleUnexpectedDisconnect();
      case Crashed => SetError();
    }

    // ----- the public calls, holding the lock

    method EnsureStarted()
      modifies this
      ensures State() == old(State()).(loop := StartedLoop(old(State())))
    {
      if loop.NotStarted? { loop := Waiting; }
    }

    method Connect()
      modifies this, runtime
      ensures State() == ApiConnects(old(State()))
    {
      desired, manual := true, false;
      runtime.SetDesiredConnected(true);
      if status.ManuallyDisconnected? { status := Disconnected; }
      EnsureStarted();
    }

    method FinishDisconnect(manually: bool)
      modifies this
      ensures State() == DisconnectEnds(old(State()), manually)
    {
      status := if manually then ManuallyDisconnected else Disconnected;
      log := log + [DisconnectDone];
    }

    method Disconnect(manually: bool)
      modifies this, runtime
      ensures State() == ApiDisconnects(old(State()), manually)
    {
      desired, manual := false, manually;
      runtime.SetDesiredConnected(false);
      if adapter.Some? {
        holder := Some(Hold(ApiDisconnect(manually), ClosingFor(adapter.value)));
        adapter := None;
      } else {
        FinishDisconnect(manually);
      }
    }

    method FinishRetry()
      modifies this
      ensures State() == RetryEnds(old(State()))
    {
      status := Disconnected;
      EnsureStarted();
    }

    method RetryNow()
      modifies this, runtime
      ensures State() == ApiRetries(old(State()))
    {
      desired, manual := true, false;
      runtime.SetDesiredConnected(true);
      var number := runtime.RequestCommand(ToRetry);
      status := Reconnecting;
      if adapter.Some? {
        holder := Some(Hold(ApiRetry, ClosingFor(adapter.value)));
        adapter := None;
      } else {
        FinishRetry();
      }
    }

    method ScanDevices()
      modifies this
      ensures State() == ApiScans(old(State()))
    {
      if !Busy(status) { status, holder := Scanning, Some(Hold(ApiScan, ScanRuns)); }
    }

    method FinishScan()
      modifies this
      ensures State() == ScanEnds(old(State()))
    {
      if !desired { status := Disconnected; }
    }

    method Acquired(job: Job)
      modifies this, runtime
      ensures State() == Granted(cfg, old(State()), job)
    {
      match job
      case ApiConnect => Connect();
      case ApiDisconnect(m) => Disconnect(m);
      case ApiRetry => RetryNow();
      case ApiScan => ScanDevices();
      case LoopConnect =>
        loop := Running;
        ConnectOnceLocked();
      case LoopScan =>
        loop := Running;
        ScanFromLoop();
    }

    method Acquire(job: Job)
      modifies this, runtime
      ensures State() == Asked(cfg, old(State()), job)
    {
      if holder.None? && waiters == [] { Acquired(job); } else { waiters := waiters + [job]; }
    }

    // ----- resumptions

    method ResumeHolder(hold: Hold, ok: bool, now: int)
      requires holder == Some(hold)
      modifies this
      ensures State() == HolderResumed(cfg, old(State()), hold, ok, now)
    {
      holder := None;
      match hold.phase
      case ClosingFor(id) =>
        log := log + [Closed(id)];
        if hold.job.ApiDisconnect? { FinishDisconnect(hold.job.manual); } else { FinishRetry(); }
      case ScanRuns =>
        if hold.job.ApiScan? {
          if ok { FinishScan(); }
        } else {
          loop := Running;
          if ok {
            FinishScan();
            ActOnDesire();
          } else {
            SetError();
          }
        }
      case Resolving =>
        if ok {
          OpenAdapter();
        } else {
          loop := Running;
          OnConnectFailed();
        }
      case Opening(id, reset) =>
        loop := Running;
        if ok { OnConnected(id, reset, now); } else { OnConnectFailed(); }
    }

    method FinishClosing(cause: Cause)
      modifies this
      ensures State() == AfterClosing(cfg, old(State()), cause)
    {
      match cause
      case UiDisconnect =>
        status := ManuallyDisconnected;
        ActOnDesire();
      case UiRetry =>
        status := Reconnecting;
        ActOnDesire();
      case WentStale => OnStaleClosed();
      case Dropped => OnDropped();
    }

    method ResumeLoop(o: Outcome)
      modifies this
      ensures State() == LoopResumed(cfg, old(State()), o)
    {
      match loop
      case Waiting => SyncRuntimeRequests();
      case Pumping =>
        loop := Running;
        PumpLiveEventsOnce(o);
      case Closing(id, cause) =>
        log := log + [Closed(id)];
        loop := Running;
        FinishClosing(cause);
      case _ =>
    }

    /** Any step of the machine, dispatched to the method that performs it. */
    method Perform(a: Action)
      modifies this, runtime
      ensures State() == Step(cfg, old(State()), a)
    {
      match a
      case Ipc(c) => var number := runtime.RequestCommand(c);
      case SetDesired(value) => runtime.SetDesiredConnected(value);
      case CallConnect => if cfg.allowConnect { Acquire(ApiConnect); } else { status := LinkError; }
      case CallDisconnect(m) => if m && !cfg.allowDisconnect { status := LinkError; } else { Acquire(ApiDisconnect(m)); }
      case CallRetry => Acquire(ApiRetry);
      case CallScan => Acquire(ApiScan);
      case Grant =>
        if holder.None? && waiters != [] {
          var job := waiters[0];
          waiters := waiters[1..];
          Acquired(job);
        }
      case HolderResumes(ok, now) => if holder.Some? { ResumeHolder(holder.value, ok, now); }
      case LoopResumes(o) => ResumeLoop(o);
    }
  }
}
