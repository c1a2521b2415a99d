/** A request to connect is not lost: what each form of it leaves behind can start a connect. */
module ConnectServed {
  import opened Base
  import opened Telemetry
  import opened SupervisorRules
  import opened SupervisorRuns
  import opened DisconnectWins

  /** At the top of an iteration with nothing new to obey. */
  lemma QuietTopStarts(cfg: Config, s: Sup)
    requires Sound(cfg, false, s) && (s.loop.Running? || s.loop.Waiting?)
    requires s.adapter.None? && s.box.desired && Delivered(s.box, s.lastSerial).None?
    ensures LeadsOn(cfg, s, Top(cfg, s))
  {
    DecidedStarts(cfg, s.(loop := Running, desired := true,
                          lastSerial := if s.box.serial <= s.lastSerial then s.lastSerial else s.box.serial));
  }

  /** ... or with any command, an old disconnect included: that one costs an iteration. */
  lemma WantedTopStarts(cfg: Config, s: Sup)
    requires Sound(cfg, false, s) && (s.loop.Running? || s.loop.Waiting?) && s.adapter.None? && s.box.desired && Free(s)
    ensures LeadsOn(cfg, s, Top(cfg, s))
  {
    var command := Delivered(s.box, s.lastSerial);
    var on := s.(loop := Running, desired := true, lastSerial := s.box.serial);
    match command
    case None => QuietTopStarts(cfg, s);
    case Some(ToConnect) => DecidedStarts(cfg, on.(manual := false));
    case Some(ToRetry) => DecidedStarts(cfg, on.(manual := false, status := Reconnecting));
    case Some(ToScan) => ScanStarts(cfg, on);
    case Some(ToDisconnect) => OldDisconnectCostsOne(cfg, s);
  }

  lemma OldDisconnectCostsOne(cfg: Config, s: Sup)
    requires Sound(cfg, false, s) && (s.loop.Running? || s.loop.Waiting?) && s.adapter.None? && s.box.desired
    requires Delivered(s.box, s.lastSerial) == Some(ToDisconnect)
    ensures LeadsOn(cfg, s, Top(cfg, s))
  {
    var t := Top(cfg, s);
    TopKeeps(cfg, false, s);
    NotedFacts(s.log, Slept(Unwanted, 0.25));
    assert t.loop.Waiting? && t.adapter.None? && t.box == s.box && Delivered(t.box, t.lastSerial).None?;
    QuietTopStarts(cfg, t);
    StartsEither(cfg, t, LoopResumes(Ended));
  }

  lemma WaitingWantedStarts(cfg: Config, s: Sup)
    requires Inv(cfg, false, s) && s.loop.Waiting? && s.adapter.None? && s.box.desired && Free(s)
    ensures CanStart(cfg, s)
  {
    WantedTopStarts(cfg, s);
    StartsEither(cfg, s, LoopResumes(Ended));
  }

  lemma PumpingWantedStarts(cfg: Config, s: Sup)
    requires Inv(cfg, false, s) && s.loop.Pumping? && s.adapter.None? && s.box.desired && Free(s)
    ensures CanStart(cfg, s)
  {
    var now := if s.lastRx.Some? then s.lastRx.value + cfg.staleMs - 1 else 0;
    WantedTopStarts(cfg, s.(loop := Running));
    StartsEither(cfg, s, LoopResumes(Silence(now)));
  }

  /** A closing of the loop ends in a decision, at the top of an iteration, or in a wait. */
  lemma ClosingWantedStarts(cfg: Config, s: Sup)
    requires Inv(cfg, false, s) && s.loop.Closing? && s.box.desired && Free(s)
    ensures CanStart(cfg, s)
  {
    var r := Noted(s, Closed(s.loop.id)).(loop := Running);
    var s' := Step(cfg, s, LoopResumes(Ended));
    NotedFacts(s.log, Closed(s.loop.id));
    ClosedKeeps(cfg, false, s, Disconnected);
    StepKeeps(cfg, false, s, LoopResumes(Ended));
    match s.loop.cause
    case WentStale =>
      WantedTopStarts(cfg, OneFailure(r, Reconnecting));
      StartsEither(cfg, s, LoopResumes(Ended));
    case Dropped =>
      if s.desired {
        NotedFacts(r.log, Slept(BackingOff, NextDelay(cfg, r.attempts + 1)));
        WaitingWantedStarts(cfg, s');
        StartsAfter(cfg, s, LoopResumes(Ended));
      } else {
        WantedTopStarts(cfg, r.(status := Disconnected));
        StartsEither(cfg, s, LoopResumes(Ended));
      }
    case _ =>
      if s.desired {
        ClosingStarts(cfg, s);
      } else {
        NotedFacts(r.log, Slept(Unwanted, 0.25));
        WaitingWantedStarts(cfg, s');
        StartsAfter(cfg, s, LoopResumes(Ended));
      }
  }

  /** Nothing connected, the stored wish on, nobody at the lock and the loop started: a connect can start. */
  lemma WantedStarts(cfg: Config, s: Sup)
    requires Inv(cfg, false, s) && Free(s) && s.adapter.None? && s.box.desired && !s.loop.NotStarted?
    ensures CanStart(cfg, s)
  {
    match s.loop
    case Waiting => WaitingWantedStarts(cfg, s);
    case Pumping => PumpingWantedStarts(cfg, s);
    case Closing(_, _) => ClosingWantedStarts(cfg, s);
    case _ =>
  }

  /** The connect call, also as the first call of a process: it leaves the wish in memory and in the settings. */
  lemma ConnectCallServed(cfg: Config, s: Sup)
    requires Inv(cfg, false, s) && Free(s) && s.adapter.None? && cfg.allowConnect
    ensures var s' := Step(cfg, s, CallConnect); s'.desired && !s'.manual && s'.box.desired && CanStart(cfg, s')
  {
    StepKeeps(cfg, false, s, CallConnect);
    WantedStarts(cfg, Step(cfg, s, CallConnect));
  }

  /** The retry call, whether or not it has a session to close first. */
  lemma RetryCallServed(cfg: Config, s: Sup)
    requires Inv(cfg, false, s) && Free(s)
    ensures CanStart(cfg, Step(cfg, s, CallRetry))
  {
    var s' := Step(cfg, s, CallRetry);
    StepKeeps(cfg, false, s, CallRetry);
    if s'.holder.None? {
      WantedStarts(cfg, s');
    } else {
      ApiHolderEnds(cfg, s');
      WantedStarts(cfg, Step(cfg, s', HolderResumes(true, 0)));
      StartsAfter(cfg, s', HolderResumes(true, 0));
    }
  }

  /** The connect command; and the retry command even against a stored wish to be disconnected. */
  lemma CommandServed(cfg: Config, s: Sup)
    requires Inv(cfg, false, s) && Free(s) && s.adapter.None? && !s.loop.NotStarted?
    ensures CanStart(cfg, Step(cfg, s, Ipc(ToConnect)))
    ensures s.lastSerial <= s.box.serial ==> CanStart(cfg, Step(cfg, s, Ipc(ToRetry)))
  {
    StepKeeps(cfg, false, s, Ipc(ToConnect));
    WantedStarts(cfg, Step(cfg, s, Ipc(ToConnect)));
    var retry := Step(cfg, s, Ipc(ToRetry));
    StepKeeps(cfg, false, s, Ipc(ToRetry));
    if retry.box.desired { WantedStarts(cfg, retry); } else if s.lastSerial <= s.box.serial { UnreadStarts(cfg, retry); }
  }
}
