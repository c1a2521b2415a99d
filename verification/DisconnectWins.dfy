/** When a disconnect request wins, and exactly when it does not. */
module DisconnectWins {
  import opened Base
  import opened Telemetry
  import opened SupervisorRules
  import opened SupervisorRuns

  /** A request to connect or retry, by call or by command. */
  predicate Requests(a: Action) {
    a.CallConnect? || a.CallRetry? || (a.Ipc? && a.command.Wakes()) || (a.SetDesired? && a.value)
  }

  predicate RequestFree(actions: seq<Action>) { forall i :: 0 <= i < |actions| ==> !Requests(actions[i]) }

  predicate WantsQueued(waiters: seq<Job>) {
    |waiters| > 0 && (waiters[0].ApiConnect? || waiters[0].ApiRetry? || WantsQueued(waiters[1..]))
  }

  /** A connect or retry command that the loop has not seen yet. */
  predicate Unread(s: Sup) {
    var c := Delivered(s.box, s.lastSerial);
    c.Some? && c.value.Wakes()
  }

  /** The loop decided to connect but does not hold the lock yet, or holds it and is still resolving the device. */
  predicate Parked(s: Sup) {
    ConnectJobs(s.waiters) > 0 || (s.holder.Some? && s.holder.value.phase.Resolving?)
  }

  /** The loop's scan comes before any disconnect call in the queue for the lock. */
  predicate ScanAhead(waiters: seq<Job>) {
    |waiters| > 0 && (waiters[0].LoopScan? || (!waiters[0].ApiDisconnect? && ScanAhead(waiters[1..])))
  }

  /** The loop read "wanted" in this iteration, and will still find it so after the await it is in. */
  predicate MidIteration(s: Sup) {
    && s.desired && s.adapter.None?
    && (|| (s.loop.Closing? && (s.loop.cause.UiDisconnect? || s.loop.cause.UiRetry?))
        || ScanAhead(s.waiters)
        || (s.holder.Some? && s.holder.value.job.LoopScan?))
  }

  /** Something the supervisor already knows of can still start a connect. */
  predicate Armed(s: Sup) {
    || WantsQueued(s.waiters)
    || (!s.loop.NotStarted? && (s.box.desired || Unread(s) || Parked(s) || MidIteration(s)))
  }

  // ----- a disarmed supervisor stays disarmed

  lemma {:induction false} JobsInQueue(waiters: seq<Job>, job: Job)
    ensures WantsQueued(waiters + [job]) == (WantsQueued(waiters) || job.ApiConnect? || job.ApiRetry?)
    ensures !job.LoopScan? ==> ScanAhead(waiters + [job]) == ScanAhead(waiters)
  {
    if |waiters| == 0 {
      assert waiters + [job] == [job];
    } else {
      JobsInQueue(waiters[1..], job);
      assert (waiters + [job])[1..] == waiters[1..] + [job];
    }
  }

  lemma {:induction false} NoLoopNoScan(waiters: seq<Job>)
    requires LoopJobs(waiters) == 0
    ensures !ScanAhead(waiters)
  {
    if |waiters| > 0 { NoLoopNoScan(waiters[1..]); }
  }

  predicate StaysOff(s: Sup, s': Sup) { !Armed(s') && Starts(s'.log) == Starts(s.log) }

  /** What the loop's task finds while it runs in a disarmed supervisor. */
  predicate Off(s: Sup) {
    && !WantsQueued(s.waiters) && !s.box.desired && !Unread(s)
    && LoopJobs(s.waiters) == 0 && ConnectJobs(s.waiters) == 0
    && (s.holder.Some? ==> !s.holder.value.job.OfLoop() && s.holder.value.phase != Resolving)
  }

  lemma SleepStaysOff(cfg: Config, s: Sup, why: Why, seconds: real)
    requires Off(s)
    ensures StaysOff(s, Sleep(s, why, seconds))
  {
    NoLoopNoScan(s.waiters);
    NotedFacts(s.log, Slept(why, seconds));
  }

  lemma DecideStaysOff(cfg: Config, s: Sup)
    requires Off(s) && (!s.desired || s.adapter.Some?)
    ensures StaysOff(s, Decide(cfg, s))
  {
    SleepStaysOff(cfg, s, Unwanted, 0.25);
    NoLoopNoScan(s.waiters);
  }

  lemma TopStaysOff(cfg: Config, s: Sup)
    requires Off(s)
    ensures StaysOff(s, Top(cfg, s))
  {
    var command := Delivered(s.box, s.lastSerial);
    var s' := s.(loop := Running, desired := s.box.desired,
                 lastSerial := if s.box.serial <= s.lastSerial then s.lastSerial else s.box.serial);
    match command
    case None => DecideStaysOff(cfg, s');
    case Some(ToDisconnect) =>
      var off := s'.(desired := false, manual := true);
      if off.adapter.None? { DecideStaysOff(cfg, off.(status := ManuallyDisconnected)); }
    case Some(ToScan) =>
      if !Free(s') {
        JobsSnoc(s'.waiters, LoopScan);
        JobsInQueue(s'.waiters, LoopScan);
      } else if Busy(s'.status) {
        DecideStaysOff(cfg, s');
      }
    case Some(ToConnect) =>
    case Some(ToRetry) =>
  }

  lemma FailureStaysOff(cfg: Config, s: Sup, status: LinkState)
    requires Off(s)
    ensures Off(OneFailure(s, status)) && Starts(OneFailure(s, status).log) == Starts(s.log)
  {
  }

  lemma ConnectFailedStaysOff(cfg: Config, s: Sup)
    requires Off(s)
    ensures StaysOff(s, ConnectFailed(cfg, s))
  {
    FailureStaysOff(cfg, s, LinkError);
    var failed := OneFailure(s, LinkError);
    if !s.desired {
      TopStaysOff(cfg, failed);
    } else {
      SleepStaysOff(cfg, failed.(status := Reconnecting), BackingOff, NextDelay(cfg, failed.attempts));
    }
  }

  lemma ConnectDoneStaysOff(cfg: Config, s: Sup, id: nat, reset: bool, now: int)
    requires Off(s)
    ensures StaysOff(s, ConnectDone(cfg, s, id, reset, now))
  {
    NotedFacts(s.log, Opened(id, reset));
    TopStaysOff(cfg, Noted(s, Opened(id, reset)).(
      adapter := Some(id), connectedOnce := true, status := LinkReady, attempts := 0, lastRx := Some(now)));
  }

  lemma AfterDropStaysOff(cfg: Config, s: Sup)
    requires Off(s)
    ensures StaysOff(s, AfterDrop(cfg, s))
  {
    if !s.desired {
      TopStaysOff(cfg, s.(status := Disconnected));
    } else {
      FailureStaysOff(cfg, s, Reconnecting);
      var failed := OneFailure(s, Reconnecting);
      SleepStaysOff(cfg, failed, BackingOff, NextDelay(cfg, failed.attempts));
    }
  }

  lemma AfterStaleStaysOff(cfg: Config, s: Sup)
    requires Off(s)
    ensures StaysOff(s, AfterStale(cfg, s))
  {
    FailureStaysOff(cfg, s, Reconnecting);
    TopStaysOff(cfg, OneFailure(s, Reconnecting));
  }

  lemma MaybeStaleStaysOff(cfg: Config, s: Sup, now: int)
    requires Off(s)
    ensures StaysOff(s, MaybeStale(cfg, s, now))
  {
    NoLoopNoScan(s.waiters);
    var stale := s.(status := Stale);
    if !TooOld(cfg, s, now) {
      TopStaysOff(cfg, s);
    } else if !(cfg.reconnectOnStale && s.desired) {
      TopStaysOff(cfg, stale);
    } else if s.adapter.None? {
      AfterStaleStaysOff(cfg, stale);
    }
  }

  lemma HeardStaysOff(cfg: Config, s: Sup, heard: Heard)
    requires Off(s)
    ensures Off(HeardBy(s, heard)) && Starts(HeardBy(s, heard).log) == Starts(s.log)
  {
  }

  lemma StreamEndedStaysOff(cfg: Config, s: Sup)
    requires Off(s)
    ensures StaysOff(s, StreamEnded(cfg, s))
  {
    NoLoopNoScan(s.waiters);
    if s.manual && !s.desired {
      TopStaysOff(cfg, s);
    } else if s.adapter.None? {
      AfterDropStaysOff(cfg, s);
    }
  }

  lemma PumpedStaysOff(cfg: Config, s: Sup, o: Outcome)
    requires Off(s)
    ensures StaysOff(s, Pumped(cfg, s, o))
  {
    match o
    case Silence(now) => MaybeStaleStaysOff(cfg, s, now);
    case Got(heard, now) =>
      HeardStaysOff(cfg, s, heard);
      MaybeStaleStaysOff(cfg, HeardBy(s, heard), now);
    case Ended => StreamEndedStaysOff(cfg, s);
    case Crashed =>
      FailureStaysOff(cfg, s, LinkError);
      SleepStaysOff(cfg, OneFailure(s, LinkError), Erroring, 1.0);
  }

  lemma ClosingStaysOff(cfg: Config, s: Sup, cause: Cause)
    requires Off(s) && (cause.UiDisconnect? || cause.UiRetry? ==> !s.desired || s.adapter.Some?)
    ensures StaysOff(s, AfterClosing(cfg, s, cause))
  {
    match cause
    case UiDisconnect => DecideStaysOff(cfg, s.(status := ManuallyDisconnected));
    case UiRetry => DecideStaysOff(cfg, s.(status := Reconnecting));
    case WentStale => AfterStaleStaysOff(cfg, s);
    case Dropped => AfterDropStaysOff(cfg, s);
  }

  lemma LoopStaysOff(cfg: Config, s: Sup, o: Outcome)
    requires Placed(s) && !Armed(s)
    ensures StaysOff(s, LoopResumed(cfg, s, o))
  {
    JobsSnoc(s.waiters, ApiScan);
    match s.loop
    case Waiting => TopStaysOff(cfg, s);
    case Pumping => PumpedStaysOff(cfg, s.(loop := Running), o);
    case Closing(id, cause) => ClosedStaysOff(cfg, s, id, cause);
    case _ =>
  }

  lemma ClosedStaysOff(cfg: Config, s: Sup, id: nat, cause: Cause)
    requires Off(s) && (cause.UiDisconnect? || cause.UiRetry? ==> !s.desired || s.adapter.Some?)
    ensures StaysOff(s, AfterClosing(cfg, Noted(s, Closed(id)).(loop := Running), cause))
  {
    NotedFacts(s.log, Closed(id));
    ClosingStaysOff(cfg, Noted(s, Closed(id)).(loop := Running), cause);
  }

  lemma ReleaseStaysOff(s: Sup, status: LinkState)
    requires Placed(s) && !Armed(s) && s.holder.Some? && !s.holder.value.job.OfLoop()
    ensures StaysOff(s, s.(holder := None, status := status))
  {
  }

  lemma NoteStaysOff(s: Sup, n: Note)
    requires !Armed(s) && !n.Started?
    ensures StaysOff(s, Noted(s, n))
  {
    NotedFacts(s.log, n);
  }

  lemma ApiHolderStaysOff(cfg: Config, s: Sup, ok: bool, now: int)
    requires Placed(s) && !Armed(s) && s.holder.Some? && !s.holder.value.job.OfLoop()
    ensures StaysOff(s, HolderResumed(cfg, s, s.holder.value, ok, now))
  {
    if s.holder.value.phase.ClosingFor? {
      ApiClosingStaysOff(cfg, s, ok, now);
    } else {
      ReleaseStaysOff(s, HolderResumed(cfg, s, s.holder.value, ok, now).status);
    }
  }

  lemma ApiClosingStaysOff(cfg: Config, s: Sup, ok: bool, now: int)
    requires Placed(s) && !Armed(s) && s.holder.Some? && !s.holder.value.job.OfLoop() && s.holder.value.phase.ClosingFor?
    ensures StaysOff(s, HolderResumed(cfg, s, s.holder.value, ok, now))
  {
    var status := HolderResumed(cfg, s, s.holder.value, ok, now).status;
    var closed := Noted(s.(holder := None, status := status), Closed(s.holder.value.phase.id));
    ReleaseStaysOff(s, status);
    NoteStaysOff(s.(holder := None, status := status), Closed(s.holder.value.phase.id));
    NoteStaysOff(closed, DisconnectDone);
  }

  /** The loop's own hold on the lock ends, and its task goes on. */
  lemma LoopReleasesOff(s: Sup)
    requires Placed(s) && !Armed(s) && s.holder.Some? && s.holder.value.job.OfLoop()
    ensures Off(s.(holder := None, loop := Running))
  {
    JobsSnoc(s.waiters, ApiScan);
  }

  lemma LoopHolderStaysOff(cfg: Config, s: Sup, ok: bool, now: int)
    requires Placed(s) && !Armed(s) && s.holder.Some? && s.holder.value.job.OfLoop()
    ensures StaysOff(s, HolderResumed(cfg, s, s.holder.value, ok, now))
  {
    LoopReleasesOff(s);
    var r := s.(holder := None, loop := Running);
    match s.holder.value.phase
    case ScanRuns =>
      if ok {
        DecideStaysOff(cfg, ScanEnds(r));
      } else {
        FailureStaysOff(cfg, r, LinkError);
        SleepStaysOff(cfg, OneFailure(r, LinkError), Erroring, 1.0);
      }
    case Opening(id, reset) => if ok { ConnectDoneStaysOff(cfg, r, id, reset, now); } else { ConnectFailedStaysOff(cfg, r); }
    case _ =>
  }

  /** A disconnect call also withdraws what this iteration of the loop had read. */
  lemma ApiDisconnectStaysOff(cfg: Config, s: Sup, manual: bool)
    requires s.holder.None? && !WantsQueued(s.waiters) && (!s.loop.NotStarted? ==> !Unread(s) && !Parked(s))
    ensures StaysOff(s, ApiDisconnects(s, manual))
  {
    NotedFacts(s.log, DisconnectDone);
  }

  lemma ApiStaysOff(cfg: Config, s: Sup, job: Job)
    requires !Armed(s) && s.holder.None? && (job.ApiScan? || job.ApiDisconnect?)
    ensures StaysOff(s, Granted(cfg, s, job))
  {
    match job
    case ApiDisconnect(manual) => ApiDisconnectStaysOff(cfg, s, manual);
    case ApiScan =>
  }

  lemma LoopScanStaysOff(cfg: Config, s: Sup)
    requires Off(s) && (!s.desired || s.adapter.Some?) && s.holder.None?
    ensures StaysOff(s, LoopScans(cfg, s))
  {
    NoLoopNoScan(s.waiters);
    if Busy(s.status) { DecideStaysOff(cfg, s); }
  }

  lemma AskedStaysOff(cfg: Config, s: Sup, job: Job)
    requires Placed(s) && !Armed(s) && (job.ApiScan? || job.ApiDisconnect?)
    ensures StaysOff(s, Asked(cfg, s, job))
  {
    if Free(s) {
      ApiStaysOff(cfg, s, job);
    } else {
      JobsSnoc(s.waiters, job);
      JobsInQueue(s.waiters, job);
    }
  }

  lemma GrantStaysOff(cfg: Config, s: Sup)
    requires Placed(s) && !Armed(s) && s.holder.None? && s.waiters != []
    ensures StaysOff(s, Granted(cfg, s.(waiters := s.waiters[1..]), s.waiters[0]))
  {
    var rest := s.(waiters := s.waiters[1..]);
    JobsSnoc(rest.waiters, ApiScan);
    if s.waiters[0].LoopScan? {
      LoopScanStaysOff(cfg, rest.(loop := Running));
    } else if s.waiters[0].ApiDisconnect? {
      ApiDisconnectStaysOff(cfg, rest, s.waiters[0].manual);
    } else {
      ApiStaysOff(cfg, rest, s.waiters[0]);
    }
  }

  /** No step of a disarmed supervisor starts a connect or arms it, except a new request. */
  lemma DisarmedStep(cfg: Config, s: Sup, a: Action)
    requires Placed(s) && !Armed(s) && !Requests(a)
    ensures StaysOff(s, Step(cfg, s, a))
  {
    match a
    case Ipc(c) =>
    case SetDesired(value) =>
    case CallDisconnect(manual) => if !manual || cfg.allowDisconnect { AskedStaysOff(cfg, s, ApiDisconnect(manual)); }
    case CallScan => AskedStaysOff(cfg, s, ApiScan);
    case Grant =>
      if s.holder.None? && s.waiters != [] {
        GrantStaysOff(cfg, s);
      }
    case HolderResumes(ok, now) =>
      if s.holder.Some? {
        if s.holder.value.job.OfLoop() { LoopHolderStaysOff(cfg, s, ok, now); } else { ApiHolderStaysOff(cfg, s, ok, now); }
      }
    case LoopResumes(o) => LoopStaysOff(cfg, s, o);
    case CallConnect =>
    case CallRetry =>
  }

  /** ... and so no interleaving of any length does. */
  lemma {:induction false} DisarmedRun(cfg: Config, s: Sup, actions: seq<Action>)
    requires Inv(cfg, false, s) && !Armed(s) && RequestFree(actions)
    ensures Inv(cfg, false, Run(cfg, s, actions)) && StaysOff(s, Run(cfg, s, actions))
  {
    if |actions| > 0 {
      var before, a := actions[..|actions| - 1], actions[|actions| - 1];
      DisarmedRun(cfg, s, before);
      DisarmedStep(cfg, Run(cfg, s, before), a);
      StepKeeps(cfg, false, Run(cfg, s, before), a);
    }
  }

  // ----- an armed supervisor can still start a connect

  /** Some interleaving without a new request starts a connect. */
  ghost predicate CanStart(cfg: Config, s: Sup) { exists actions :: StartsBy(cfg, s, actions) }

  predicate StartsBy(cfg: Config, s: Sup, actions: seq<Action>) {
    RequestFree(actions) && Starts(Run(cfg, s, actions).log) > Starts(s.log)
  }

  lemma {:induction false} RunFirst(cfg: Config, s: Sup, a: Action, rest: seq<Action>)
    ensures Run(cfg, s, [a] + rest) == Run(cfg, Step(cfg, s, a), rest)
  {
    var all := [a] + rest;
    if |rest| == 0 {
      assert all[..|all| - 1] == [] && rest == [];
    } else {
      assert all[..|all| - 1] == [a] + rest[..|rest| - 1];
      RunFirst(cfg, s, a, rest[..|rest| - 1]);
    }
  }

  lemma StartsNow(cfg: Config, s: Sup, a: Action)
    requires !Requests(a) && Starts(Step(cfg, s, a).log) > Starts(s.log)
    ensures CanStart(cfg, s)
  {
    RunFirst(cfg, s, a, []);
    assert [a] + [] == [a];
    assert StartsBy(cfg, s, [a]);
  }

  lemma StartsAfter(cfg: Config, s: Sup, a: Action)
    requires !Requests(a) && Starts(Step(cfg, s, a).log) >= Starts(s.log) && CanStart(cfg, Step(cfg, s, a))
    ensures CanStart(cfg, s)
  {
    var rest :| StartsBy(cfg, Step(cfg, s, a), rest);
    RunFirst(cfg, s, a, rest);
    assert StartsBy(cfg, s, [a] + rest);
  }

  /** `s'`, reached from `s`, started a connect or can still start one. */
  ghost predicate LeadsOn(cfg: Config, s: Sup, s': Sup) {
    Starts(s'.log) > Starts(s.log) || (Starts(s'.log) == Starts(s.log) && CanStart(cfg, s'))
  }

  lemma StartsEither(cfg: Config, s: Sup, a: Action)
    requires !Requests(a) && LeadsOn(cfg, s, Step(cfg, s, a))
    ensures CanStart(cfg, s)
  {
    if Starts(Step(cfg, s, a).log) > Starts(s.log) { StartsNow(cfg, s, a); } else { StartsAfter(cfg, s, a); }
  }

  /** Device resolution can succeed, and then the connect begins. */
  lemma ResolvingStarts(cfg: Config, s: Sup)
    requires s.holder.Some? && s.holder.value.phase.Resolving?
    ensures CanStart(cfg, s)
  {
    NotedFacts(s.log, Started(s.nextId, !s.connectedOnce));
    StartsNow(cfg, s, HolderResumes(true, 0));
  }

  lemma ApiHolderLeaves(cfg: Config, s: Sup)
    requires Placed(s) && s.holder.Some? && !s.holder.value.job.OfLoop()
    ensures var s' := HolderResumed(cfg, s, s.holder.value, true, 0);
            && s'.holder.None? && Starts(s'.log) == Starts(s.log)
            && s'.waiters == s.waiters && s'.adapter == s.adapter && s'.box == s.box && s'.lastSerial == s.lastSerial
            && s'.desired == s.desired && s'.loop == s.loop
  {
    var h := s.holder.value;
    if h.phase.ClosingFor? {
      NotedFacts(s.log, Closed(h.phase.id));
      NotedFacts(s.log + [Closed(h.phase.id)], DisconnectDone);
    }
  }

  /** The call that holds the lock comes to its end. */
  lemma ApiHolderEnds(cfg: Config, s: Sup)
    requires Inv(cfg, false, s) && s.holder.Some? && !s.holder.value.job.OfLoop()
    ensures var s' := Step(cfg, s, HolderResumes(true, 0));
            && Inv(cfg, false, s') && s'.holder.None? && Starts(s'.log) == Starts(s.log)
            && s'.waiters == s.waiters && s'.adapter == s.adapter && s'.box == s.box && s'.lastSerial == s.lastSerial
            && s'.desired == s.desired && s'.loop == s.loop
  {
    StepKeeps(cfg, false, s, HolderResumes(true, 0));
    ApiHolderLeaves(cfg, s);
  }

  /** A call that is granted the lock finishes, or suspends in its scan or in closing a session. */
  lemma ApiJobRuns(cfg: Config, s: Sup, job: Job)
    requires s.holder.None? && !job.OfLoop()
    ensures var g := Granted(cfg, s, job);
            && g.waiters == s.waiters && Starts(g.log) == Starts(s.log) && g.lastSerial == s.lastSerial
            && (s.adapter.None? ==> g.adapter.None?)
            && (!s.loop.NotStarted? ==> g.loop == s.loop)
            && (g.holder.Some? ==> !g.holder.value.job.OfLoop())
            && (job.ApiScan? ==> g.box == s.box && g.desired == s.desired && g.adapter == s.adapter)
            && (job.ApiDisconnect? ==> g.box == s.box.(desired := false))
  {
    NotedFacts(s.log, DisconnectDone);
  }

  /** The head of the queue is granted the lock. */
  lemma GrantServes(cfg: Config, s: Sup)
    requires Inv(cfg, false, s) && s.holder.None? && s.waiters != []
    ensures Inv(cfg, false, Step(cfg, s, Grant))
    ensures Step(cfg, s, Grant) == Granted(cfg, s.(waiters := s.waiters[1..]), s.waiters[0])
  {
    StepKeeps(cfg, false, s, Grant);
  }

  /** A loop parked on the free lock connects as soon as everyone before it is served. */
  lemma {:induction false} ParkedStarts(cfg: Config, s: Sup)
    requires Inv(cfg, false, s) && s.holder.None? && ConnectJobs(s.waiters) > 0
    ensures CanStart(cfg, s)
    decreases |s.waiters|
  {
    var g, rest := Step(cfg, s, Grant), s.(waiters := s.waiters[1..]);
    GrantServes(cfg, s);
    JobsSnoc(rest.waiters, ApiScan);
    if s.waiters[0].LoopConnect? {
      NotedFacts(s.log, Started(s.nextId, !s.connectedOnce));
      if cfg.scanFirst { ResolvingStarts(cfg, g); }
      StartsEither(cfg, s, Grant);
    } else {
      ApiJobRuns(cfg, rest, s.waiters[0]);
      if g.holder.None? {
        ParkedStarts(cfg, g);
      } else {
        ApiHolderEnds(cfg, g);
        ParkedStarts(cfg, Step(cfg, g, HolderResumes(true, 0)));
        StartsAfter(cfg, g, HolderResumes(true, 0));
      }
      StartsAfter(cfg, s, Grant);
    }
  }

  /** ... whoever holds the lock now. */
  lemma ParkedCanStart(cfg: Config, s: Sup)
    requires Inv(cfg, false, s) && Parked(s)
    ensures CanStart(cfg, s)
  {
    JobsSnoc(s.waiters, ApiScan);
    if s.holder.None? {
      ParkedStarts(cfg, s);
    } else if s.holder.value.phase.Resolving? {
      ResolvingStarts(cfg, s);
    } else {
      ApiHolderEnds(cfg, s);
      ParkedStarts(cfg, Step(cfg, s, HolderResumes(true, 0)));
      StartsAfter(cfg, s, HolderResumes(true, 0));
    }
  }

  /** Deciding to connect leads to a connect, whoever holds the lock or waits for it. */
  lemma DecidedStarts(cfg: Config, s: Sup)
    requires Active(cfg, false, s) && s.desired && s.adapter.None?
    ensures LeadsOn(cfg, s, Decide(cfg, s))
  {
    DecideKeeps(cfg, false, s);
    if !Free(s) {
      JobsSnoc(s.waiters, LoopConnect);
      ParkedCanStart(cfg, Decide(cfg, s));
    } else if cfg.scanFirst {
      ResolvingStarts(cfg, Decide(cfg, s));
    } else {
      NotedFacts(s.log, Started(s.nextId, !s.connectedOnce));
    }
  }

  /** A scan the loop has come to is followed by its decision, at once or when it ends. */
  lemma ScanStarts(cfg: Config, s: Sup)
    requires Active(cfg, false, s) && s.desired && s.adapter.None? && s.holder.None?
    ensures LeadsOn(cfg, s, LoopScans(cfg, s))
  {
    LoopScansKeeps(cfg, false, s);
    if Busy(s.status) { DecidedStarts(cfg, s); } else { HeldScanStarts(cfg, LoopScans(cfg, s)); }
  }

  lemma HeldScanStarts(cfg: Config, s: Sup)
    requires Inv(cfg, false, s) && s.desired && s.adapter.None? && s.holder.Some? && s.holder.value.job.LoopScan?
    ensures CanStart(cfg, s)
  {
    LoopReleases(cfg, false, s);
    DecidedStarts(cfg, s.(holder := None, loop := Running));
    StartsEither(cfg, s, HolderResumes(true, 0));
  }

  lemma ClosingStarts(cfg: Config, s: Sup)
    requires Inv(cfg, false, s) && s.desired && s.loop.Closing? && (s.loop.cause.UiDisconnect? || s.loop.cause.UiRetry?)
    ensures CanStart(cfg, s)
  {
    var status := if s.loop.cause.UiDisconnect? then ManuallyDisconnected else Reconnecting;
    var r := Noted(s, Closed(s.loop.id)).(loop := Running, status := status);
    ClosedKeeps(cfg, false, s, status);
    NotedFacts(s.log, Closed(s.loop.id));
    DecidedStarts(cfg, r);
    StartsEither(cfg, s, LoopResumes(Ended));
  }

  /** What the loop read as wanted in this iteration, and nobody withdraws, leads to a connect. */
  lemma {:induction false} MidIterationStarts(cfg: Config, s: Sup)
    requires Inv(cfg, false, s) && MidIteration(s) && !WantsQueued(s.waiters)
    ensures CanStart(cfg, s)
    decreases |s.waiters|, if s.holder.Some? then 1 else 0
  {
    if s.loop.Closing? && (s.loop.cause.UiDisconnect? || s.loop.cause.UiRetry?) {
      ClosingStarts(cfg, s);
    } else if s.holder.Some? {
      if s.holder.value.job.LoopScan? {
        HeldScanStarts(cfg, s);
      } else {
        ScanIsQueued(s.waiters);
        ApiHolderEnds(cfg, s);
        MidIterationStarts(cfg, Step(cfg, s, HolderResumes(true, 0)));
        StartsAfter(cfg, s, HolderResumes(true, 0));
      }
    } else {
      var rest := s.(waiters := s.waiters[1..]);
      GrantServes(cfg, s);
      JobsSnoc(rest.waiters, ApiScan);
      if s.waiters[0].LoopScan? {
        ScanStarts(cfg, rest.(loop := Running));
      } else if s.waiters[0].LoopConnect? {
        ParkedCanStart(cfg, s);
        return;
      } else {
        ApiJobRuns(cfg, rest, s.waiters[0]);
        MidIterationStarts(cfg, Step(cfg, s, Grant));
      }
      StartsEither(cfg, s, Grant);
    }
  }

  lemma ScanIsQueued(waiters: seq<Job>)
    requires ScanAhead(waiters)
    ensures LoopJobs(waiters) > 0
  {
    if LoopJobs(waiters) == 0 { NoLoopNoScan(waiters); }
  }

  /** An iteration that finds an unread connect or retry command leads to a connect. */
  lemma UnreadTopStarts(cfg: Config, s: Sup)
    requires Sound(cfg, false, s) && (s.loop.Running? || s.loop.Waiting?) && Unread(s) && s.adapter.None?
    ensures LeadsOn(cfg, s, Top(cfg, s))
  {
    var on := s.(loop := Running, desired := true, manual := false, lastSerial := s.box.serial);
    DecidedStarts(cfg, on);
    DecidedStarts(cfg, on.(status := Reconnecting));
  }

  /** Nothing is connected and nothing in memory or on disk wants it to be: what a disconnect call leaves. */
  predicate Carried(s: Sup) {
    s.adapter.None? && !s.desired && !s.box.desired && (s.status.ManuallyDisconnected? || s.status.Disconnected?)
  }

  lemma WaitingUnreadStarts(cfg: Config, s: Sup)
    requires Inv(cfg, false, s) && s.loop.Waiting? && Unread(s) && s.adapter.None?
    ensures CanStart(cfg, s)
  {
    UnreadTopStarts(cfg, s);
    StartsEither(cfg, s, LoopResumes(Ended));
  }

  lemma ClosingUnreadStarts(cfg: Config, s: Sup)
    requires Inv(cfg, false, s) && s.loop.Closing? && Unread(s) && Carried(s)
    ensures CanStart(cfg, s)
  {
    var r := Noted(s, Closed(s.loop.id)).(loop := Running);
    NotedFacts(s.log, Closed(s.loop.id));
    NotedFacts(r.log, Slept(Unwanted, 0.25));
    ClosedKeeps(cfg, false, s, Disconnected);
    StepKeeps(cfg, false, s, LoopResumes(Ended));
    match s.loop.cause
    case WentStale =>
      UnreadTopStarts(cfg, OneFailure(r, Reconnecting));
      StartsEither(cfg, s, LoopResumes(Ended));
    case Dropped =>
      UnreadTopStarts(cfg, r.(status := Disconnected));
      StartsEither(cfg, s, LoopResumes(Ended));
    case _ =>
      WaitingUnreadStarts(cfg, Step(cfg, s, LoopResumes(Ended)));
      StartsAfter(cfg, s, LoopResumes(Ended));
  }

  lemma PumpingUnreadStarts(cfg: Config, s: Sup)
    requires Inv(cfg, false, s) && s.loop.Pumping? && Unread(s) && Carried(s)
    ensures CanStart(cfg, s)
  {
    var r := s.(loop := Running);
    assert !TooOld(cfg, r, 0);
    UnreadTopStarts(cfg, r);
    StartsEither(cfg, s, LoopResumes(Silence(0)));
  }

  lemma CarriedUnreadStarts(cfg: Config, s: Sup)
    requires Inv(cfg, false, s) && Carried(s) && Free(s) && Unread(s) && !s.loop.NotStarted?
    ensures CanStart(cfg, s)
  {
    match s.loop
    case Waiting => WaitingUnreadStarts(cfg, s);
    case Pumping => PumpingUnreadStarts(cfg, s);
    case Closing(_, _) => ClosingUnreadStarts(cfg, s);
    case _ =>
  }

  /** On a free lock another disconnect call does no harm to an unread command, and leaves nothing connected. */
  lemma FreeUnreadStarts(cfg: Config, s: Sup)
    requires Inv(cfg, false, s) && Free(s) && Unread(s) && !s.loop.NotStarted? && !s.box.desired
    ensures CanStart(cfg, s)
  {
    var a := CallDisconnect(false);
    var off := Step(cfg, s, a);
    StepKeeps(cfg, false, s, a);
    ApiJobRuns(cfg, s, ApiDisconnect(false));
    if off.holder.None? {
      CarriedUnreadStarts(cfg, off);
    } else {
      ApiHolderEnds(cfg, off);
      CarriedUnreadStarts(cfg, Step(cfg, off, HolderResumes(true, 0)));
      StartsAfter(cfg, off, HolderResumes(true, 0));
    }
    StartsAfter(cfg, s, a);
  }

  /** The loop's scan is over: it decides, and what is unread stays unread unless it connects. */
  lemma DecidedOrRests(cfg: Config, s: Sup)
    requires Active(cfg, false, s) && Unread(s)
    ensures var d := Decide(cfg, s);
            || LeadsOn(cfg, s, d)
            || (Inv(cfg, false, d) && Unread(d) && !d.loop.NotStarted? && Starts(d.log) == Starts(s.log)
                && d.holder == s.holder && d.waiters == s.waiters && d.box == s.box)
  {
    DecideKeeps(cfg, false, s);
    if s.desired && s.adapter.None? { DecidedStarts(cfg, s); }
    NotedFacts(s.log, Slept(Unwanted, 0.25));
  }

  /** A connect in progress fails: the loop starts over, or waits. */
  lemma FailureOrRests(cfg: Config, s: Sup)
    requires Active(cfg, false, s) && Unread(s) && s.adapter.None?
    ensures var d := ConnectFailed(cfg, s);
            || LeadsOn(cfg, s, d)
            || (Inv(cfg, false, d) && Unread(d) && !d.loop.NotStarted? && Starts(d.log) == Starts(s.log)
                && d.holder == s.holder && d.waiters == s.waiters && d.box == s.box)
  {
    FailureKeeps(cfg, false, s, LinkError);
    if s.desired {
      ConnectFailedKeeps(cfg, false, s);
      NotedFacts(s.log, Slept(BackingOff, NextDelay(cfg, s.attempts + 1)));
    } else {
      UnreadTopStarts(cfg, OneFailure(s, LinkError));
    }
  }

  /** The loop's own hold on the lock ends the same way. */
  lemma LoopHolderOrRests(cfg: Config, s: Sup)
    requires Inv(cfg, false, s) && Unread(s) && s.holder.Some? && s.holder.value.job.OfLoop() && !s.holder.value.phase.Resolving?
    ensures var a := HolderResumes(s.holder.value.job.LoopScan?, 0);
            var d := Step(cfg, s, a);
            || LeadsOn(cfg, s, d)
            || (Inv(cfg, false, d) && Unread(d) && !d.loop.NotStarted? && Starts(d.log) == Starts(s.log)
                && d.holder.None? && d.waiters == s.waiters && d.box == s.box)
  {
    LoopReleases(cfg, false, s);
    var r := s.(holder := None, loop := Running);
    var d := Step(cfg, s, HolderResumes(s.holder.value.job.LoopScan?, 0));
    if s.holder.value.job.LoopScan? {
      assert d == Decide(cfg, ScanEnds(r));
      DecidedOrRests(cfg, ScanEnds(r));
    } else {
      assert d == ConnectFailed(cfg, r);
      FailureOrRests(cfg, r);
    }
  }

  /** The loop's turn to scan comes. */
  lemma LoopScanOrRests(cfg: Config, s: Sup)
    requires Active(cfg, false, s) && Unread(s) && s.holder.None?
    ensures var d := LoopScans(cfg, s);
            || LeadsOn(cfg, s, d)
            || (Inv(cfg, false, d) && Unread(d) && !d.loop.NotStarted? && Starts(d.log) == Starts(s.log)
                && d.waiters == s.waiters && d.box == s.box)
  {
    LoopScansKeeps(cfg, false, s);
    if Busy(s.status) { DecidedOrRests(cfg, s); }
  }

  /** An unread connect or retry command leads to a connect, whoever holds the lock or waits for it. */
  lemma {:induction false} UnreadStarts(cfg: Config, s: Sup)
    requires Inv(cfg, false, s) && Unread(s) && !s.loop.NotStarted? && !s.box.desired && !WantsQueued(s.waiters)
    ensures CanStart(cfg, s)
    decreases |s.waiters|, if s.holder.Some? then 1 else 0
  {
    if Parked(s) {
      ParkedCanStart(cfg, s);
    } else if s.holder.Some? {
      if s.holder.value.job.OfLoop() {
        var a := HolderResumes(s.holder.value.job.LoopScan?, 0);
        LoopHolderOrRests(cfg, s);
        if !LeadsOn(cfg, s, Step(cfg, s, a)) { UnreadStarts(cfg, Step(cfg, s, a)); }
        StartsEither(cfg, s, a);
      } else {
        ApiHolderEnds(cfg, s);
        UnreadStarts(cfg, Step(cfg, s, HolderResumes(true, 0)));
        StartsAfter(cfg, s, HolderResumes(true, 0));
      }
    } else if s.waiters == [] {
      FreeUnreadStarts(cfg, s);
    } else {
      var rest := s.(waiters := s.waiters[1..]);
      GrantServes(cfg, s);
      JobsSnoc(rest.waiters, ApiScan);
      if s.waiters[0].LoopScan? {
        LoopScanOrRests(cfg, rest.(loop := Running));
      } else {
        ApiJobRuns(cfg, rest, s.waiters[0]);
      }
      if !LeadsOn(cfg, s, Step(cfg, s, Grant)) { UnreadStarts(cfg, Step(cfg, s, Grant)); }
      StartsEither(cfg, s, Grant);
    }
  }

  // ----- exactly when a disconnect in force can still be followed by a connect

  /**
   * While the stored wish is "disconnected" and no connect or retry call is waiting, a connect can still
   * start before a new request if and only if the loop is running and parked on the operation lock with
   * its decision made, or past reading its settings in this iteration, or has an old connect or retry
   * command unread. Whoever holds the lock or waits for it makes no difference.
   */
  lemma DisconnectWinsIff(cfg: Config, s: Sup)
    requires Inv(cfg, false, s) && !s.box.desired && !WantsQueued(s.waiters)
    ensures CanStart(cfg, s) <==> !s.loop.NotStarted? && (Parked(s) || MidIteration(s) || Unread(s))
  {
    if Armed(s) {
      if Parked(s) { ParkedCanStart(cfg, s); } else if MidIteration(s) { MidIterationStarts(cfg, s); } else { UnreadStarts(cfg, s); }
    } else if CanStart(cfg, s) {
      var actions :| StartsBy(cfg, s, actions);
      DisarmedRun(cfg, s, actions);
      assert false;
    }
  }

  /** The same for every reachable state, from any stored settings. */
  lemma DisconnectWinsOnRuns(cfg: Config, box: Mailbox, before: seq<Action>, s: Sup)
    requires s == Run(cfg, Fresh(box), before) && !s.box.desired && !WantsQueued(s.waiters)
    ensures CanStart(cfg, s) <==> !s.loop.NotStarted? && (Parked(s) || MidIteration(s) || Unread(s))
  {
    EveryInterleaving(cfg, box, before);
    DisconnectWinsIff(cfg, s);
  }

  /**
   * The command form, from any state and whatever overwrites the command before it is read: a connect can
   * still start if and only if the loop is already parked, or past reading its settings.
   */
  lemma CommandWinsIff(cfg: Config, s: Sup)
    requires Inv(cfg, false, s) && !WantsQueued(s.waiters)
    ensures CanStart(cfg, Step(cfg, s, Ipc(ToDisconnect))) <==> !s.loop.NotStarted? && (Parked(s) || MidIteration(s))
  {
    StepKeeps(cfg, false, s, Ipc(ToDisconnect));
    DisconnectWinsIff(cfg, Step(cfg, s, Ipc(ToDisconnect)));
  }

  /** With the lock free and nothing to close, the call carries the disconnect out at once. */
  lemma CallCarriesOut(cfg: Config, s: Sup, manual: bool)
    requires Free(s) && s.adapter.None? && (manual ==> cfg.allowDisconnect)
    ensures Carried(Step(cfg, s, CallDisconnect(manual))) && Free(Step(cfg, s, CallDisconnect(manual)))
  {
  }

  /** A call that had to close a session carries it out unless a connection was asked for meanwhile. */
  lemma ClosingCallCarriesOut(cfg: Config, s: Sup, ok: bool, now: int)
    requires Inv(cfg, false, s) && s.holder.Some? && s.holder.value.job.ApiDisconnect?
    ensures Carried(Step(cfg, s, HolderResumes(ok, now))) <==> !s.desired && !s.box.desired
  {
  }

  /** The call form: once it carried the disconnect out, only a parked loop or an old unread command can undo it. */
  lemma CallWinsIff(cfg: Config, s: Sup, manual: bool)
    requires Inv(cfg, false, s) && Free(s) && s.adapter.None? && (manual ==> cfg.allowDisconnect)
    ensures CanStart(cfg, Step(cfg, s, CallDisconnect(manual))) <==> !s.loop.NotStarted? && Unread(s)
  {
    CallCarriesOut(cfg, s, manual);
    StepKeeps(cfg, false, s, CallDisconnect(manual));
    DisconnectWinsIff(cfg, Step(cfg, s, CallDisconnect(manual)));
  }

  // ----- how disconnects lose

  /** Overwritten before it was read, the command keeps the loop from connecting but leaves the open session open. */
  lemma OverwrittenCommandLeavesSession(cfg: Config, s: Sup, o: Outcome)
    requires s.loop.Waiting? && Free(s) && s.adapter.Some? && Busy(s.status) && s.lastSerial <= s.box.serial
    ensures var s' := Step(cfg, Step(cfg, Step(cfg, s, Ipc(ToDisconnect)), Ipc(ToScan)), LoopResumes(o));
            s'.adapter == s.adapter && !s'.desired && s'.loop.Waiting? && Delivered(s'.box, s'.lastSerial).None?
  {
  }

  lemma RunSnoc(cfg: Config, s: Sup, actions: seq<Action>, a: Action)
    ensures Run(cfg, s, actions + [a]) == Step(cfg, Run(cfg, s, actions), a)
  {
    assert (actions + [a])[..|actions|] == actions;
  }

  const BOX: Mailbox := Mailbox(false, 0, None)

  /** A retry call right before the disconnect call leaves its command in the slot; the loop then obeys it. */
  lemma RetryOutlivesDisconnect(cfg: Config)
    requires cfg.allowConnect && cfg.allowDisconnect && !cfg.scanFirst
    ensures Run(cfg, Fresh(BOX), [CallConnect, CallRetry, CallDisconnect(true), LoopResumes(Ended)]).log
            == [DisconnectDone, Started(0, true)]
  {
    var s0 := Fresh(BOX);
    RunSnoc(cfg, s0, [], CallConnect);
    RunSnoc(cfg, s0, [CallConnect], CallRetry);
    RunSnoc(cfg, s0, [CallConnect, CallRetry], CallDisconnect(true));
    RunSnoc(cfg, s0, [CallConnect, CallRetry, CallDisconnect(true)], LoopResumes(Ended));
    assert [] + [CallConnect] == [CallConnect] && [CallConnect] + [CallRetry] == [CallConnect, CallRetry];
    assert [CallConnect, CallRetry] + [CallDisconnect(true)] == [CallConnect, CallRetry, CallDisconnect(true)];
    assert [CallConnect, CallRetry, CallDisconnect(true)] + [LoopResumes(Ended)]
        == [CallConnect, CallRetry, CallDisconnect(true), LoopResumes(Ended)];
    var s2 := Run(cfg, s0, [CallConnect, CallRetry]);
    assert s2.box == Mailbox(true, 1, Some(ToRetry)) && s2.loop.Waiting? && Free(s2) && s2.log == [];
    var s3 := Step(cfg, s2, CallDisconnect(true));
    assert s3.log == [DisconnectDone];
  }

  /** A scan holds the lock, a disconnect waits for it, and the loop comes to the top of its iteration. */
  lemma LoopParksBehindDisconnect(cfg: Config, s: Sup, o: Outcome)
    requires s.holder == Some(Hold(ApiScan, ScanRuns)) && s.waiters == [ApiDisconnect(true)] && s.loop.Waiting?
    requires s.box.desired && s.box.serial <= s.lastSerial && s.adapter.None?
    ensures Step(cfg, s, LoopResumes(o)) == s.(desired := true, loop := Queued, waiters := [ApiDisconnect(true), LoopConnect])
  {
  }

  /** A connect decided while a scan holds the lock goes ahead after the disconnect that was queued before it. */
  lemma ParkedConnectOutlivesDisconnect(cfg: Config)
    requires cfg.allowConnect && cfg.allowDisconnect && !cfg.scanFirst
    ensures var queued := Run(cfg, Fresh(BOX), [CallConnect, CallScan, CallDisconnect(true)]);
            var parked := Step(cfg, queued, LoopResumes(Ended));
            Step(cfg, Step(cfg, Step(cfg, parked, HolderResumes(true, 0)), Grant), Grant).log == [DisconnectDone, Started(0, true)]
  {
    var s0 := Fresh(BOX);
    RunSnoc(cfg, s0, [], CallConnect);
    RunSnoc(cfg, s0, [CallConnect], CallScan);
    RunSnoc(cfg, s0, [CallConnect, CallScan], CallDisconnect(true));
    assert [] + [CallConnect] == [CallConnect] && [CallConnect] + [CallScan] == [CallConnect, CallScan];
    assert [CallConnect, CallScan] + [CallDisconnect(true)] == [CallConnect, CallScan, CallDisconnect(true)];
    var queued := Run(cfg, s0, [CallConnect, CallScan, CallDisconnect(true)]);
    assert queued.holder == Some(Hold(ApiScan, ScanRuns)) && queued.waiters == [ApiDisconnect(true)] && queued.log == [];
    LoopParksBehindDisconnect(cfg, queued, Ended);
    ParkedRunsOut(cfg, Step(cfg, queued, LoopResumes(Ended)));
  }

  lemma ParkedRunsOut(cfg: Config, s: Sup)
    requires s.holder == Some(Hold(ApiScan, ScanRuns)) && s.waiters == [ApiDisconnect(true), LoopConnect]
    requires s.adapter.None? && s.log == [] && s.nextId == 0 && !s.connectedOnce && !cfg.scanFirst
    ensures Step(cfg, Step(cfg, Step(cfg, s, HolderResumes(true, 0)), Grant), Grant).log == [DisconnectDone, Started(0, true)]
  {
    var idle := Step(cfg, s, HolderResumes(true, 0));
    assert idle.waiters == [ApiDisconnect(true), LoopConnect] && idle.holder.None? && idle.log == [];
    var off := Step(cfg, idle, Grant);
    assert off.waiters == [LoopConnect] && off.holder.None? && off.log == [DisconnectDone] && off.nextId == 0;
  }
}
