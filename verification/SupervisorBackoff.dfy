/**
 * What counts as a failure of the link, read off what happened and where everyone was suspended when it
 * happened, and what the supervisor makes of it: its attempt counter and its waits.
 */
module SupervisorBackoff {
  import opened Base
  import opened Telemetry
  import opened SupervisorRules
  import opened SupervisorRuns

  // ----- causes

  predicate HolderIsConnecting(s: Sup) {
    s.holder.Some? && (s.holder.value.phase.Resolving? || s.holder.value.phase.Opening?)
  }

  /** Resolving the device or opening the adapter raised. */
  predicate ConnectFails(s: Sup, a: Action) { a.HolderResumes? && !a.ok && HolderIsConnecting(s) }

  predicate ConnectSucceeds(s: Sup, a: Action) {
    a.HolderResumes? && a.ok && s.holder.Some? && s.holder.value.phase.Opening?
  }

  /** An iteration of the loop raised: in a scan it was asked for, or while waiting for an event. */
  predicate LoopRaises(s: Sup, a: Action) {
    || (a.HolderResumes? && !a.ok && s.holder.Some? && s.holder.value.job.LoopScan?)
    || (a.LoopResumes? && s.loop.Pumping? && a.outcome.Crashed?)
  }

  /** The stream of a session that was not withdrawn came to its end. */
  predicate StreamEnds(s: Sup, a: Action) {
    a.LoopResumes? && s.loop.Pumping? && a.outcome.Ended? && !(s.manual && !s.desired)
  }

  /** That session is gone, and a connection is still wanted. */
  predicate SessionLost(s: Sup, a: Action) {
    && s.desired
    && (|| (StreamEnds(s, a) && s.adapter.None?)
        || (a.LoopResumes? && s.loop.Closing? && s.loop.cause.Dropped?))
  }

  /** The adapter's own telemetry arrives on a link that is up but not ready. */
  predicate Revives(s: Sup, a: Action) {
    && a.LoopResumes? && s.loop.Pumping? && a.outcome.Got? && a.outcome.heard.Own?
    && (s.status.Stale? || s.status.Connected? || s.status.Subscribing?)
  }

  /** A ready link has been silent for too long when the wait for an event ends. */
  predicate GoesStale(cfg: Config, s: Sup, a: Action) {
    && a.LoopResumes? && s.loop.Pumping?
    && match a.outcome
       case Silence(now) => s.status.LinkReady? && s.lastRx.Some? && now - s.lastRx.value >= cfg.staleMs
       case Got(Own(ms), now) => (s.status.LinkReady? || Revives(s, a)) && now - ms >= cfg.staleMs
       case Got(Link(l), now) =>
         && s.status.LinkReady? && !l.Stale? && !l.Reconnecting? && !l.LinkError?
         && s.lastRx.Some? && now - s.lastRx.value >= cfg.staleMs
       case Got(Other, now) => s.status.LinkReady? && s.lastRx.Some? && now - s.lastRx.value >= cfg.staleMs
       case _ => false
  }

  predicate GivesUpStale(cfg: Config, s: Sup, a: Action) { GoesStale(cfg, s, a) && cfg.reconnectOnStale && s.desired }

  /** The stale session is gone and is to be replaced. */
  predicate StaleReconnects(cfg: Config, s: Sup, a: Action) {
    || (GivesUpStale(cfg, s, a) && s.adapter.None?)
    || (a.LoopResumes? && s.loop.Closing? && s.loop.cause.WentStale?)
  }

  predicate Fails(cfg: Config, s: Sup, a: Action) {
    ConnectFails(s, a) || LoopRaises(s, a) || SessionLost(s, a) || StaleReconnects(cfg, s, a)
  }

  predicate Readies(s: Sup, a: Action) { ConnectSucceeds(s, a) || Revives(s, a) }

  /** The failures that are waited out: a connect that failed while wanted, and an unexpected disconnect. */
  predicate WaitedOut(s: Sup, a: Action) { (ConnectFails(s, a) && s.desired) || SessionLost(s, a) }

  /** The wait after n failures: the n-th entry of the schedule, its last one from there on, or the interval without a schedule. */
  function Scheduled(cfg: Config, n: nat): real
    requires n >= 1
  {
    if |cfg.schedule| == 0 then cfg.interval
    else if n <= |cfg.schedule| then cfg.schedule[n - 1]
    else cfg.schedule[|cfg.schedule| - 1]
  }

  lemma DelayIsScheduled(cfg: Config, n: nat)
    requires n >= 1
    ensures NextDelay(cfg, n) == Scheduled(cfg, n)
  {
  }

  /** Failures since the last READY, counted over a whole run. */
  function FailuresSinceReady(cfg: Config, s: Sup, actions: seq<Action>): nat {
    if |actions| == 0 then 0
    else
      var before, a := actions[..|actions| - 1], actions[|actions| - 1];
      (if Readies(Run(cfg, s, before), a) then 0 else FailuresSinceReady(cfg, s, before))
      + (if Fails(cfg, Run(cfg, s, before), a) then 1 else 0)
  }

  /** One wait for each failure that is waited out, of the schedule entry for the failures so far. */
  function ExpectedWaits(cfg: Config, s: Sup, actions: seq<Action>): seq<real> {
    if |actions| == 0 then []
    else
      var before, a := actions[..|actions| - 1], actions[|actions| - 1];
      ExpectedWaits(cfg, s, before)
      + (if WaitedOut(Run(cfg, s, before), a) then [Scheduled(cfg, FailuresSinceReady(cfg, s, actions))] else [])
  }

  /** The back-off waits the loop entered, in order. */
  function BackOffs(log: seq<Note>): seq<real> {
    if |log| == 0 then []
    else
      var last := log[|log| - 1];
      BackOffs(log[..|log| - 1]) + (if last.Slept? && last.why.BackingOff? then [last.seconds] else [])
  }

  lemma BackOffsSnoc(log: seq<Note>, n: Note)
    ensures BackOffs(log + [n]) == BackOffs(log) + (if n.Slept? && n.why.BackingOff? then [n.seconds] else [])
  {
    assert (log + [n])[..|log|] == log;
  }

  // ----- which steps of the loop touch neither counter nor waits

  predicate Untouched(s: Sup, s': Sup) { s'.attempts == s.attempts && BackOffs(s'.log) == BackOffs(s.log) }

  predicate OneMoreFailure(s: Sup, s': Sup) { s'.attempts == s.attempts + 1 && BackOffs(s'.log) == BackOffs(s.log) }

  predicate FailureWaitedOut(cfg: Config, s: Sup, s': Sup) {
    && s'.attempts == s.attempts + 1 && s'.loop.Waiting?
    && BackOffs(s'.log) == BackOffs(s.log) + [Scheduled(cfg, s.attempts + 1)]
  }

  lemma NoteUntouched(s: Sup, n: Note)
    requires !(n.Slept? && n.why.BackingOff?)
    ensures Untouched(s, Noted(s, n))
  {
    BackOffsSnoc(s.log, n);
    assert BackOffs(s.log) + [] == BackOffs(s.log);
  }

  lemma DecideUntouched(cfg: Config, s: Sup)
    ensures Untouched(s, Decide(cfg, s))
  {
    if !s.desired {
      NoteUntouched(s, Slept(Unwanted, 0.25));
    } else {
      NoteUntouched(s, Started(s.nextId, !s.connectedOnce));
    }
  }

  lemma ObeyedUntouched(cfg: Config, s: Sup, command: Command)
    ensures Untouched(s, Obeyed(cfg, s, command))
  {
    match command
    case ToConnect => DecideUntouched(cfg, s.(desired := true, manual := false));
    case ToDisconnect => DecideUntouched(cfg, s.(desired := false, manual := true, status := ManuallyDisconnected));
    case ToRetry => DecideUntouched(cfg, s.(desired := true, manual := false, status := Reconnecting));
    case ToScan => DecideUntouched(cfg, s);
  }

  lemma TopUntouched(cfg: Config, s: Sup)
    ensures Untouched(s, Top(cfg, s))
  {
    var s' := s.(loop := Running, desired := s.box.desired,
                 lastSerial := if s.box.serial <= s.lastSerial then s.lastSerial else s.box.serial);
    var command := Delivered(s.box, s.lastSerial);
    if command.None? { DecideUntouched(cfg, s'); } else { ObeyedUntouched(cfg, s', command.value); }
  }

  lemma BackOffWaits(cfg: Config, s: Sup, status: LinkState)
    ensures FailureWaitedOut(cfg, s, BackOff(cfg, OneFailure(s, status)))
  {
    DelayIsScheduled(cfg, s.attempts + 1);
    BackOffsSnoc(s.log, Slept(BackingOff, NextDelay(cfg, s.attempts + 1)));
  }

  lemma ConnectFailedCounts(cfg: Config, s: Sup)
    ensures var s' := ConnectFailed(cfg, s); if s.desired then FailureWaitedOut(cfg, s, s') else OneMoreFailure(s, s')
  {
    if s.desired {
      BackOffWaits(cfg, s, Reconnecting);
      assert ConnectFailed(cfg, s) == BackOff(cfg, OneFailure(s, Reconnecting));
    } else {
      TopUntouched(cfg, OneFailure(s, LinkError));
    }
  }

  lemma CrashCounts(s: Sup)
    ensures OneMoreFailure(s, LoopCrashed(s))
  {
    NoteUntouched(OneFailure(s, LinkError), Slept(Erroring, 1.0));
  }

  lemma AfterDropCounts(cfg: Config, s: Sup)
    ensures var s' := AfterDrop(cfg, s); if s.desired then FailureWaitedOut(cfg, s, s') else Untouched(s, s')
  {
    if s.desired { BackOffWaits(cfg, s, Reconnecting); } else { TopUntouched(cfg, s.(status := Disconnected)); }
  }

  lemma AfterStaleCounts(cfg: Config, s: Sup)
    ensures OneMoreFailure(s, AfterStale(cfg, s))
  {
    TopUntouched(cfg, OneFailure(s, Reconnecting));
  }

  lemma MaybeStaleCounts(cfg: Config, s: Sup, now: int)
    ensures var s' := MaybeStale(cfg, s, now);
            if TooOld(cfg, s, now) && cfg.reconnectOnStale && s.desired && s.adapter.None? then OneMoreFailure(s, s')
            else Untouched(s, s')
  {
    var stale := s.(status := Stale);
    if !TooOld(cfg, s, now) {
      TopUntouched(cfg, s);
    } else if !(cfg.reconnectOnStale && s.desired) {
      TopUntouched(cfg, stale);
    } else if s.adapter.None? {
      AfterStaleCounts(cfg, stale);
    }
  }

  // ----- one step

  /** What a step does to counter and waits, from its cause alone. */
  predicate CountsRight(cfg: Config, s: Sup, a: Action, s': Sup) {
    && s'.attempts == (if Readies(s, a) then 0 else s.attempts) + (if Fails(cfg, s, a) then 1 else 0)
    && BackOffs(s'.log) == BackOffs(s.log) + (if WaitedOut(s, a) then [Scheduled(cfg, s'.attempts)] else [])
    && (WaitedOut(s, a) ==> s'.loop.Waiting?)
  }

  lemma HeardCounts(cfg: Config, s: Sup, heard: Heard, now: int)
    requires s.loop.Pumping?
    ensures CountsRight(cfg, s, LoopResumes(Got(heard, now)), MaybeStale(cfg, HeardBy(s.(loop := Running), heard), now))
  {
    assert BackOffs(s.log) + [] == BackOffs(s.log);
    MaybeStaleCounts(cfg, HeardBy(s.(loop := Running), heard), now);
  }

  lemma EndCounts(cfg: Config, s: Sup)
    requires s.loop.Pumping?
    ensures CountsRight(cfg, s, LoopResumes(Ended), StreamEnded(cfg, s.(loop := Running)))
  {
    var r := s.(loop := Running);
    assert BackOffs(s.log) + [] == BackOffs(s.log);
    if s.manual && !s.desired { TopUntouched(cfg, r); } else if s.adapter.None? { AfterDropCounts(cfg, r); }
  }

  lemma PumpCounts(cfg: Config, s: Sup, o: Outcome)
    requires s.loop.Pumping?
    ensures CountsRight(cfg, s, LoopResumes(o), Pumped(cfg, s.(loop := Running), o))
  {
    var r := s.(loop := Running);
    assert BackOffs(s.log) + [] == BackOffs(s.log);
    match o
    case Silence(now) => MaybeStaleCounts(cfg, r, now);
    case Got(heard, now) => HeardCounts(cfg, s, heard, now);
    case Ended => EndCounts(cfg, s);
    case Crashed => CrashCounts(r);
  }

  lemma AfterClosingCounts(cfg: Config, s: Sup, cause: Cause)
    ensures var s' := AfterClosing(cfg, s, cause);
            if cause.WentStale? then OneMoreFailure(s, s')
            else if cause.Dropped? && s.desired then FailureWaitedOut(cfg, s, s')
            else Untouched(s, s')
  {
    match cause
    case UiDisconnect => DecideUntouched(cfg, s.(status := ManuallyDisconnected));
    case UiRetry => DecideUntouched(cfg, s.(status := Reconnecting));
    case WentStale => AfterStaleCounts(cfg, s);
    case Dropped => AfterDropCounts(cfg, s);
  }

  lemma ClosingCounts(cfg: Config, s: Sup, o: Outcome)
    requires s.loop.Closing?
    ensures CountsRight(cfg, s, LoopResumes(o), LoopResumed(cfg, s, o))
  {
    NoteUntouched(s, Closed(s.loop.id));
    AfterClosingCounts(cfg, Noted(s, Closed(s.loop.id)).(loop := Running), s.loop.cause);
    assert BackOffs(s.log) + [] == BackOffs(s.log);
  }

  lemma ApiHolderUntouched(cfg: Config, s: Sup, ok: bool, now: int)
    requires s.holder.Some? && HoldFits(s.holder.value) && !s.holder.value.job.OfLoop()
    ensures Untouched(s, HolderResumed(cfg, s, s.holder.value, ok, now))
  {
    var h := s.holder.value;
    if h.phase.ClosingFor? {
      NoteUntouched(s, Closed(h.phase.id));
      NoteUntouched(Noted(s, Closed(h.phase.id)), DisconnectDone);
    }
  }

  lemma LoopHolderCounts(cfg: Config, s: Sup, ok: bool, now: int)
    requires s.holder.Some? && HoldFits(s.holder.value) && s.holder.value.job.OfLoop()
    ensures CountsRight(cfg, s, HolderResumes(ok, now), HolderResumed(cfg, s, s.holder.value, ok, now))
  {
    var r := s.(holder := None, loop := Running);
    assert BackOffs(s.log) + [] == BackOffs(s.log);
    match s.holder.value.phase
    case ScanRuns => if ok { DecideUntouched(cfg, ScanEnds(r)); } else { CrashCounts(r); }
    case Resolving => if ok { NoteUntouched(s, Started(s.nextId, !s.connectedOnce)); } else { ConnectFailedCounts(cfg, r); }
    case Opening(id, reset) => OpeningCounts(cfg, r, id, reset, ok, now);
    case ClosingFor(_) =>
  }

  lemma OpeningCounts(cfg: Config, s: Sup, id: nat, reset: bool, ok: bool, now: int)
    ensures !ok && s.desired ==> FailureWaitedOut(cfg, s, ConnectFailed(cfg, s))
    ensures !ok && !s.desired ==> OneMoreFailure(s, ConnectFailed(cfg, s))
    ensures ok ==> ConnectDone(cfg, s, id, reset, now).attempts == 0 && BackOffs(ConnectDone(cfg, s, id, reset, now).log) == BackOffs(s.log)
  {
    if ok {
      NoteUntouched(s, Opened(id, reset));
      TopUntouched(cfg, Noted(s, Opened(id, reset)).(
        adapter := Some(id), connectedOnce := true, status := LinkReady, attempts := 0, lastRx := Some(now)));
    } else {
      ConnectFailedCounts(cfg, s);
    }
  }

  lemma GrantedUntouched(cfg: Config, s: Sup, job: Job)
    ensures Untouched(s, Granted(cfg, s, job))
  {
    match job
    case ApiDisconnect(_) => NoteUntouched(s, DisconnectDone);
    case LoopConnect => NoteUntouched(s, Started(s.nextId, !s.connectedOnce));
    case LoopScan => DecideUntouched(cfg, s.(loop := Running));
    case _ =>
  }

  lemma AskedUntouched(cfg: Config, s: Sup, job: Job)
    ensures Untouched(s, Asked(cfg, s, job))
  {
    if Free(s) { GrantedUntouched(cfg, s, job); }
  }

  predicate NoCause(cfg: Config, s: Sup, a: Action) { !Fails(cfg, s, a) && !Readies(s, a) && !WaitedOut(s, a) }

  lemma CallHasNoCause(cfg: Config, s: Sup, a: Action)
    requires !a.LoopResumes?
    requires a.HolderResumes? && s.holder.Some? ==> HoldFits(s.holder.value) && !s.holder.value.job.OfLoop()
    ensures NoCause(cfg, s, a)
  {
  }

  lemma UntouchedCounts(cfg: Config, s: Sup, a: Action, s': Sup)
    requires NoCause(cfg, s, a) && Untouched(s, s')
    ensures CountsRight(cfg, s, a, s')
  {
    assert BackOffs(s.log) + [] == BackOffs(s.log);
  }

  /** The calls, the grant of the lock to any of them, and the commands. */
  lemma CallUntouched(cfg: Config, s: Sup, a: Action)
    requires !a.LoopResumes? && !a.HolderResumes?
    ensures Untouched(s, Step(cfg, s, a))
  {
    match a
    case CallConnect => AskedUntouched(cfg, s, ApiConnect);
    case CallDisconnect(manual) => AskedUntouched(cfg, s, ApiDisconnect(manual));
    case CallRetry => AskedUntouched(cfg, s, ApiRetry);
    case CallScan => AskedUntouched(cfg, s, ApiScan);
    case Grant =>
      if s.holder.None? && s.waiters != [] { GrantedUntouched(cfg, s.(waiters := s.waiters[1..]), s.waiters[0]); }
    case _ =>
  }

  lemma StepCounts(cfg: Config, s: Sup, a: Action)
    requires Placed(s)
    ensures CountsRight(cfg, s, a, Step(cfg, s, a))
  {
    if a.LoopResumes? {
      LoopCounts(cfg, s, a.outcome);
    } else if a.HolderResumes? && s.holder.Some? && s.holder.value.job.OfLoop() {
      LoopHolderCounts(cfg, s, a.ok, a.now);
    } else {
      CallHasNoCause(cfg, s, a);
      if !a.HolderResumes? {
        CallUntouched(cfg, s, a);
      } else if s.holder.Some? {
        ApiHolderUntouched(cfg, s, a.ok, a.now);
      }
      UntouchedCounts(cfg, s, a, Step(cfg, s, a));
    }
  }

  lemma LoopCounts(cfg: Config, s: Sup, o: Outcome)
    ensures CountsRight(cfg, s, LoopResumes(o), LoopResumed(cfg, s, o))
  {
    assert BackOffs(s.log) + [] == BackOffs(s.log);
    match s.loop
    case Waiting => TopUntouched(cfg, s);
    case Pumping => PumpCounts(cfg, s, o);
    case Closing(_, _) => ClosingCounts(cfg, s, o);
    case _ =>
  }

  // ----- where the two closings come from

  /** Not closing a session because it was dropped or went stale. */
  predicate Plain(l: Loop) { l.Closing? ==> l.cause.UiDisconnect? || l.cause.UiRetry? }

  lemma DecideIsPlain(cfg: Config, s: Sup)
    ensures Plain(Decide(cfg, s).loop)
  {
  }

  lemma ObeyedIsPlain(cfg: Config, s: Sup, command: Command)
    ensures Plain(Obeyed(cfg, s, command).loop)
  {
    match command
    case ToConnect => DecideIsPlain(cfg, s.(desired := true, manual := false));
    case ToDisconnect => DecideIsPlain(cfg, s.(desired := false, manual := true, status := ManuallyDisconnected));
    case ToRetry => DecideIsPlain(cfg, s.(desired := true, manual := false, status := Reconnecting));
    case ToScan => DecideIsPlain(cfg, s);
  }

  lemma TopIsPlain(cfg: Config, s: Sup)
    ensures Plain(Top(cfg, s).loop) && Plain(Decide(cfg, s).loop)
  {
    var s' := s.(loop := Running, desired := s.box.desired,
                 lastSerial := if s.box.serial <= s.lastSerial then s.lastSerial else s.box.serial);
    var command := Delivered(s.box, s.lastSerial);
    DecideIsPlain(cfg, s);
    if command.None? { DecideIsPlain(cfg, s'); } else { ObeyedIsPlain(cfg, s', command.value); }
  }

  lemma FailureIsPlain(cfg: Config, s: Sup)
    ensures Plain(ConnectFailed(cfg, s).loop) && Plain(AfterDrop(cfg, s).loop) && Plain(AfterStale(cfg, s).loop)
  {
    TopIsPlain(cfg, OneFailure(s, LinkError));
    TopIsPlain(cfg, s.(status := Disconnected));
    TopIsPlain(cfg, OneFailure(s, Reconnecting));
  }

  lemma HolderIsPlain(cfg: Config, s: Sup, ok: bool, now: int)
    requires Placed(s) && s.holder.Some? && Plain(s.loop)
    ensures Plain(HolderResumed(cfg, s, s.holder.value, ok, now).loop)
  {
    var r := s.(holder := None, loop := Running);
    match s.holder.value.phase
    case Opening(id, reset) =>
      FailureIsPlain(cfg, r);
      if ok { ConnectDoneIsPlain(cfg, r, id, reset, now); }
    case Resolving => FailureIsPlain(cfg, r);
    case ScanRuns => TopIsPlain(cfg, ScanEnds(r));
    case ClosingFor(_) =>
  }

  lemma ConnectDoneIsPlain(cfg: Config, s: Sup, id: nat, reset: bool, now: int)
    ensures Plain(ConnectDone(cfg, s, id, reset, now).loop)
  {
    TopIsPlain(cfg, Noted(s, Opened(id, reset)).(
      adapter := Some(id), connectedOnce := true, status := LinkReady, attempts := 0, lastRx := Some(now)));
  }

  lemma GrantedIsPlain(cfg: Config, s: Sup, job: Job)
    requires Plain(s.loop)
    ensures Plain(Granted(cfg, s, job).loop)
  {
    if job.LoopScan? { TopIsPlain(cfg, s.(loop := Running)); }
  }

  /** The wait for an event leads to such a closing exactly when the stream ends, or the link is given up as stale. */
  lemma PumpCloses(cfg: Config, s: Sup, o: Outcome)
    requires s.loop.Pumping? && s.adapter.Some?
    ensures var l, a := Pumped(cfg, s.(loop := Running), o).loop, LoopResumes(o);
            && (StreamEnds(s, a) ==> l == Closing(s.adapter.value, Dropped))
            && (GivesUpStale(cfg, s, a) ==> l == Closing(s.adapter.value, WentStale))
            && (!StreamEnds(s, a) && !GivesUpStale(cfg, s, a) ==> Plain(l))
  {
    var r := s.(loop := Running);
    match o
    case Silence(now) => StaleCloses(cfg, r, now);
    case Got(heard, now) => StaleCloses(cfg, HeardBy(r, heard), now);
    case Ended => TopIsPlain(cfg, r);
    case Crashed =>
  }

  lemma StaleCloses(cfg: Config, s: Sup, now: int)
    requires s.adapter.Some?
    ensures var l := MaybeStale(cfg, s, now).loop;
            if TooOld(cfg, s, now) && cfg.reconnectOnStale && s.desired then l == Closing(s.adapter.value, WentStale) else Plain(l)
  {
    TopIsPlain(cfg, s);
    TopIsPlain(cfg, s.(status := Stale));
  }

  /** The loop starts closing a session as dropped, or as stale, exactly when its stream ends or it is given up as stale. */
  lemma ClosingHasItsCause(cfg: Config, s: Sup, a: Action)
    requires Placed(s) && !s.loop.Closing? && s.adapter.Some?
    ensures var l := Step(cfg, s, a).loop;
            && (l.Closing? && l.cause.Dropped? <==> StreamEnds(s, a))
            && (l.Closing? && l.cause.WentStale? <==> GivesUpStale(cfg, s, a))
  {
    match a
    case CallConnect => GrantedIsPlain(cfg, s, ApiConnect);
    case CallDisconnect(manual) => GrantedIsPlain(cfg, s, ApiDisconnect(manual));
    case CallRetry => GrantedIsPlain(cfg, s, ApiRetry);
    case CallScan => GrantedIsPlain(cfg, s, ApiScan);
    case Grant =>
      if s.holder.None? && s.waiters != [] { GrantedIsPlain(cfg, s.(waiters := s.waiters[1..]), s.waiters[0]); }
    case HolderResumes(ok, now) => if s.holder.Some? { HolderIsPlain(cfg, s, ok, now); }
    case LoopResumes(o) => if s.loop.Pumping? { PumpCloses(cfg, s, o); } else { TopIsPlain(cfg, s); }
    case _ =>
  }

  // ----- every run

  /**
   * After every interleaving the attempt counter is the number of failures since the last READY, and the
   * back-off waits are one capped schedule entry for each connect that failed while wanted and each
   * unexpected disconnect, in order, and none for anything else.
   */
  lemma {:induction false} BackoffFollowsFailures(cfg: Config, box: Mailbox, actions: seq<Action>)
    ensures var s := Run(cfg, Fresh(box), actions);
            && s.attempts == FailuresSinceReady(cfg, Fresh(box), actions)
            && BackOffs(s.log) == ExpectedWaits(cfg, Fresh(box), actions)
  {
    if |actions| > 0 {
      var before, a := actions[..|actions| - 1], actions[|actions| - 1];
      BackoffFollowsFailures(cfg, box, before);
      EveryInterleaving(cfg, box, before);
      StepCounts(cfg, Run(cfg, Fresh(box), before), a);
    }
  }
}
