/** What the supervisor's status says, and what each call and each end of a wait makes of it. */
module LinkStatus {
  import opened Base
  import opened Telemetry
  import opened SupervisorRules
  import opened SupervisorRuns

  // ----- the loop's own connects and scans

  /** While the loop opens a session the status is CONNECTING, and while it scans SCANNING. */
  predicate Shows(s: Sup) {
    s.holder.Some? && s.holder.value.job.OfLoop() ==>
      && (s.holder.value.phase.Opening? ==> s.status.Connecting?)
      && (s.holder.value.phase.ScanRuns? ==> s.status.Scanning?)
  }

  /** The loop does not hold the lock. */
  predicate OffLock(s: Sup) { s.holder.Some? ==> !s.holder.value.job.OfLoop() }

  /** Nobody who waits for the lock is overtaken. */
  predicate Appends(s: Sup, s': Sup) { |s.waiters| <= |s'.waiters| && s'.waiters[..|s.waiters|] == s.waiters }

  lemma DecideShows(cfg: Config, s: Sup)
    requires OffLock(s)
    ensures Shows(Decide(cfg, s)) && Appends(s, Decide(cfg, s))
  {
  }

  lemma TopShows(cfg: Config, s: Sup)
    requires OffLock(s)
    ensures Shows(Top(cfg, s)) && Appends(s, Top(cfg, s))
  {
    var command := Delivered(s.box, s.lastSerial);
    var s' := s.(loop := Running, desired := s.box.desired,
                 lastSerial := if s.box.serial <= s.lastSerial then s.lastSerial else s.box.serial);
    match command
    case None => DecideShows(cfg, s');
    case Some(ToConnect) => DecideShows(cfg, s'.(desired := true, manual := false));
    case Some(ToDisconnect) => DecideShows(cfg, s'.(desired := false, manual := true, status := ManuallyDisconnected));
    case Some(ToRetry) => DecideShows(cfg, s'.(desired := true, manual := false, status := Reconnecting));
    case Some(ToScan) => DecideShows(cfg, s');
  }

  lemma ClosedShows(cfg: Config, s: Sup, cause: Cause)
    requires OffLock(s)
    ensures Shows(AfterClosing(cfg, s, cause)) && Appends(s, AfterClosing(cfg, s, cause))
  {
    match cause
    case UiDisconnect => DecideShows(cfg, s.(status := ManuallyDisconnected));
    case UiRetry => DecideShows(cfg, s.(status := Reconnecting));
    case WentStale => TopShows(cfg, OneFailure(s, Reconnecting));
    case Dropped => if !s.desired { TopShows(cfg, s.(status := Disconnected)); }
  }

  lemma MaybeStaleShows(cfg: Config, s: Sup, now: int)
    requires OffLock(s)
    ensures Shows(MaybeStale(cfg, s, now)) && Appends(s, MaybeStale(cfg, s, now))
  {
    var stale := s.(status := Stale);
    TopShows(cfg, s);
    TopShows(cfg, stale);
    TopShows(cfg, OneFailure(stale, Reconnecting));
  }

  lemma PumpedShows(cfg: Config, s: Sup, o: Outcome)
    requires OffLock(s)
    ensures Shows(Pumped(cfg, s, o)) && Appends(s, Pumped(cfg, s, o))
  {
    match o
    case Silence(now) => MaybeStaleShows(cfg, s, now);
    case Got(heard, now) => MaybeStaleShows(cfg, HeardBy(s, heard), now);
    case Ended =>
      TopShows(cfg, s);
      TopShows(cfg, s.(status := Disconnected));
    case Crashed =>
  }

  lemma LoopShows(cfg: Config, s: Sup, o: Outcome)
    requires OffLock(s)
    ensures Shows(LoopResumed(cfg, s, o)) && Appends(s, LoopResumed(cfg, s, o))
  {
    match s.loop
    case Waiting => TopShows(cfg, s);
    case Pumping => PumpedShows(cfg, s.(loop := Running), o);
    case Closing(id, cause) => ClosedShows(cfg, Noted(s, Closed(id)).(loop := Running), cause);
    case _ =>
  }

  lemma HolderShows(cfg: Config, s: Sup, ok: bool, now: int)
    requires s.holder.Some?
    ensures Shows(HolderResumed(cfg, s, s.holder.value, ok, now)) && Appends(s, HolderResumed(cfg, s, s.holder.value, ok, now))
  {
    var r := s.(holder := None, loop := Running);
    match s.holder.value.phase
    case ScanRuns => if ok { DecideShows(cfg, ScanEnds(r)); }
    case Opening(id, reset) =>
      TopShows(cfg, Noted(r, SupervisorRules.Opened(id, reset)).(
        adapter := Some(id), connectedOnce := true, status := LinkReady, attempts := 0, lastRx := Some(now)));
      TopShows(cfg, OneFailure(r, LinkError));
    case Resolving => TopShows(cfg, OneFailure(r, LinkError));
    case ClosingFor(_) =>
  }

  /** A step keeps what the status shows, unless a call is refused, which shows an error. */
  lemma StepShows(cfg: Config, s: Sup, a: Action)
    requires cfg.allowConnect && cfg.allowDisconnect && Inv(cfg, false, s) && Shows(s)
    ensures Shows(Step(cfg, s, a))
  {
    match a
    case LoopResumes(o) => if OffLock(s) { LoopShows(cfg, s, o); }
    case HolderResumes(ok, now) => if s.holder.Some? { HolderShows(cfg, s, ok, now); }
    case Grant => if s.holder.None? && s.waiters != [] { DecideShows(cfg, s.(waiters := s.waiters[1..], loop := Running)); }
    case _ =>
  }

  /** With both calls allowed, in every interleaving the status says CONNECTING while the loop connects and SCANNING while it scans. */
  lemma {:induction false} LoopShowsItsWork(cfg: Config, box: Mailbox, actions: seq<Action>)
    requires cfg.allowConnect && cfg.allowDisconnect
    ensures Shows(Run(cfg, Fresh(box), actions))
  {
    if |actions| > 0 {
      var init := actions[..|actions| - 1];
      LoopShowsItsWork(cfg, box, init);
      EveryInterleaving(cfg, box, init);
      StepShows(cfg, Run(cfg, Fresh(box), init), actions[|actions| - 1]);
    }
  }

  /** The lock is served in turn: every step appends to its queue at most, and only a grant takes from it, the one who waited longest. */
  lemma FirstComeFirstServed(cfg: Config, s: Sup, a: Action)
    requires Inv(cfg, false, s)
    ensures !a.Grant? ==> Appends(s, Step(cfg, s, a))
    ensures a.Grant? && s.holder.None? && s.waiters != [] ==> Appends(s.(waiters := s.waiters[1..]), Step(cfg, s, a))
  {
    match a
    case LoopResumes(o) => if OffLock(s) { LoopShows(cfg, s, o); }
    case HolderResumes(ok, now) => if s.holder.Some? { HolderShows(cfg, s, ok, now); }
    case Grant => if s.holder.None? && s.waiters != [] { DecideShows(cfg, s.(waiters := s.waiters[1..], loop := Running)); }
    case _ =>
  }

  // ----- the calls

  /** A call that the configuration forbids shows an error and does nothing else. */
  lemma RefusedCallOnlyShows(cfg: Config, s: Sup)
    ensures !cfg.allowConnect ==> Step(cfg, s, CallConnect) == s.(status := LinkError)
    ensures !cfg.allowDisconnect ==> Step(cfg, s, CallDisconnect(true)) == s.(status := LinkError)
  {
  }

  /** A connect call only takes back the status of a manual disconnect. */
  lemma ConnectCallShows(cfg: Config, s: Sup)
    requires cfg.allowConnect && Free(s)
    ensures var s' := Step(cfg, s, CallConnect);
            && s'.status == (if s.status.ManuallyDisconnected? then Disconnected else s.status)
            && s'.adapter == s.adapter && s'.holder.None? && s'.loop == (if s.loop.NotStarted? then Waiting else s.loop)
  {
  }

  /** A disconnect call, with a session to close or without: at its end the status says who disconnected, and nothing is open. */
  lemma DisconnectCallShows(cfg: Config, s: Sup, manual: bool, ok: bool, now: int)
    requires Free(s) && (manual ==> cfg.allowDisconnect)
    ensures var s' := Step(cfg, s, CallDisconnect(manual));
            var end := if s.adapter.Some? then Step(cfg, s', HolderResumes(ok, now)) else s';
            && (s.adapter.Some? ==> s'.holder == Some(Hold(ApiDisconnect(manual), ClosingFor(s.adapter.value))))
            && !s'.desired && !s'.box.desired && s'.manual == manual && s'.adapter.None?
            && end.status == (if manual then ManuallyDisconnected else Disconnected)
            && Free(end) && end.adapter.None? && end.loop == s.loop && end.attempts == s.attempts
            && end.log == s.log + (if s.adapter.Some? then [Closed(s.adapter.value)] else []) + [DisconnectDone]
  {
  }

  /** A retry call shows RECONNECTING while it closes a session, and DISCONNECTED once nothing is open. */
  lemma RetryCallShows(cfg: Config, s: Sup, ok: bool, now: int)
    requires Free(s)
    ensures var s' := Step(cfg, s, CallRetry);
            var end := if s.adapter.Some? then Step(cfg, s', HolderResumes(ok, now)) else s';
            && (s.adapter.Some? ==> s'.status.Reconnecting? && s'.holder == Some(Hold(ApiRetry, ClosingFor(s.adapter.value))))
            && s'.desired && s'.box.desired && !s'.manual && s'.box.pending == Some(ToRetry) && s'.box.serial == s.box.serial + 1
            && end.status.Disconnected? && Free(end) && end.adapter.None? && end.log == s.log + (if s.adapter.Some? then [Closed(s.adapter.value)] else [])
  {
  }

  /** A scan call that succeeds leaves SCANNING only while a connection is wanted; one that raises leaves the status as it was. */
  lemma ScanCallEnds(cfg: Config, s: Sup, ok: bool, now: int)
    requires s.holder == Some(Hold(ApiScan, ScanRuns))
    ensures Step(cfg, s, HolderResumes(ok, now)) == s.(holder := None, status := if ok && !s.desired then Disconnected else s.status)
  {
  }

  /** A supervisor obeys no command that was issued before it was made, only the wish stored with it. */
  lemma OldCommandsAreSkipped(cfg: Config, box: Mailbox, pending: Option<Command>)
    ensures Delivered(Fresh(box).box, Fresh(box).lastSerial).None? && Fresh(box).desired == box.desired
    ensures var s, s' := Step(cfg, Fresh(box), CallConnect), Step(cfg, Fresh(box.(pending := pending)), CallConnect);
            Top(cfg, s') == Top(cfg, s).(box := Top(cfg, s).box.(pending := pending))
  {
  }

  /** The stored wish is what the next iteration goes by: withdrawn, it waits; kept, it goes on with the session. */
  lemma WishIsRead(cfg: Config, s: Sup, wish: bool, o: Outcome)
    requires s.loop.Waiting? && Delivered(s.box, s.lastSerial).None?
    ensures var s' := Step(cfg, Step(cfg, s, SetDesired(wish)), LoopResumes(o));
            && s'.desired == wish && s'.box == s.box.(desired := wish) && s'.adapter == s.adapter
            && (!wish ==> s'.loop.Waiting? && s'.holder == s.holder && s'.log == s.log + [Slept(Unwanted, 0.25)])
            && (wish && s.adapter.Some? ==> s'.loop.Pumping?)
            && (wish && s.adapter.None? ==> s'.loop.Queued? || s'.loop.Holding?)
  {
  }

  // ----- the ends of waits

  /** No command is waiting and the wish is on: the next iteration obeys nothing and goes on with the session. */
  predicate Undisturbed(s: Sup) { s.box.desired && Delivered(s.box, s.lastSerial).None? }

  /** A session that was opened is READY, and the loop waits for its events. */
  lemma OpenedIsReady(cfg: Config, s: Sup, now: int)
    requires s.holder.Some? && s.holder.value.phase.Opening? && Undisturbed(s)
    ensures var s' := Step(cfg, s, HolderResumes(true, now));
            && s'.adapter == Some(s.holder.value.phase.id) && s'.status.LinkReady? && s'.lastRx == Some(now)
            && s'.connectedOnce && s'.loop.Pumping? && s'.holder.None?
  {
  }

  /** A connect that fails while wanted leaves RECONNECTING and the loop in its wait; nothing is connected. */
  lemma FailedIsReconnecting(cfg: Config, s: Sup, now: int)
    requires Inv(cfg, false, s) && s.desired
    requires s.holder.Some? && (s.holder.value.phase.Resolving? || s.holder.value.phase.Opening?)
    ensures var s' := Step(cfg, s, HolderResumes(false, now));
            s'.adapter.None? && s'.status.Reconnecting? && s'.loop.Waiting? && s'.holder.None?
  {
  }

  /** Telemetry brings a stale link back to READY; silence beyond the limit makes a ready one STALE when it is not given up. */
  lemma StatusFollowsTelemetry(cfg: Config, s: Sup, ms: int, now: int)
    requires s.loop.Pumping? && s.adapter.Some? && Undisturbed(s) && s.desired
    ensures var s' := Step(cfg, s, LoopResumes(Got(Own(ms), now)));
            && (s.status.Stale? && now - ms < cfg.staleMs ==> s'.status.LinkReady? && s'.lastRx == Some(ms) && s'.loop.Pumping?)
    ensures var s' := Step(cfg, s, LoopResumes(Silence(now)));
            s.status.LinkReady? && s.lastRx.Some? && !cfg.reconnectOnStale ==>
              s'.loop.Pumping? && s'.adapter == s.adapter
              && s'.status == (if now - s.lastRx.value >= cfg.staleMs then Stale else LinkReady)
  {
  }

  /** A scan call goes ahead exactly when the link is neither up nor being built. */
  lemma ScanWhenIdle(cfg: Config, s: Sup)
    requires Free(s)
    ensures var s' := Step(cfg, s, CallScan);
            if s.status.Connecting? || s.status.Connected? || s.status.Subscribing? || s.status.Reconnecting? || s.status.LinkReady?
            then s' == s else s'.status.Scanning? && s'.holder == Some(Hold(ApiScan, ScanRuns))
  {
  }
}
