/** What every interleaving of the supervisor's steps keeps, and when a disconnect does not win. */
module SupervisorRuns {
  import opened Base
  import opened Telemetry
  import opened SupervisorRules

  // ----- reading the history

  function LiveIds(log: seq<Note>): set<nat> {
    if |log| == 0 then {}
    else
      var before := LiveIds(log[..|log| - 1]);
      match log[|log| - 1]
      case Opened(id, _) => before + {id}
      case Closed(id) => before - {id}
      case _ => before
  }

  function ResetOpens(log: seq<Note>): nat {
    if |log| == 0 then 0
    else (
      var last := log[|log| - 1];
      ResetOpens(log[..|log| - 1]) + (if last.Opened? && last.reset then 1 else 0))
  }

  function Opens(log: seq<Note>): nat {
    if |log| == 0 then 0 else Opens(log[..|log| - 1]) + (if log[|log| - 1].Opened? then 1 else 0)
  }

  /** A connect may reset the clock exactly while no session was opened before; the loop's other waits have their fixed lengths. */
  predicate HistoryTells(log: seq<Note>) {
    |log| > 0 ==>
      var init, last := log[..|log| - 1], log[|log| - 1];
      && HistoryTells(init)
      && (last.Started? ==> (last.reset <==> Opens(init) == 0))
      && (last.Slept? && last.why.Unwanted? ==> last.seconds == 0.25)
      && (last.Slept? && last.why.Erroring? ==> last.seconds == 1.0)
  }

  function Starts(log: seq<Note>): nat {
    if |log| == 0 then 0 else Starts(log[..|log| - 1]) + (if log[|log| - 1].Started? then 1 else 0)
  }

  predicate NoteTells(n: Note, first: bool) {
    && (n.Started? ==> (n.reset <==> first))
    && (n.Slept? && n.why.Unwanted? ==> n.seconds == 0.25)
    && (n.Slept? && n.why.Erroring? ==> n.seconds == 1.0)
  }

  lemma NotedFacts(log: seq<Note>, n: Note)
    ensures var more := log + [n];
            && LiveIds(more) == (if n.Opened? then LiveIds(log) + {n.id} else if n.Closed? then LiveIds(log) - {n.id} else LiveIds(log))
            && ResetOpens(more) == ResetOpens(log) + (if n.Opened? && n.reset then 1 else 0)
            && Starts(more) == Starts(log) + (if n.Started? then 1 else 0)
            && Opens(more) == Opens(log) + (if n.Opened? then 1 else 0)
            && (HistoryTells(more) <==> HistoryTells(log) && NoteTells(n, Opens(log) == 0))
  {
    assert (log + [n])[..|log|] == log;
  }

  // ----- the invariant

  function LoopJobs(waiters: seq<Job>): nat {
    if |waiters| == 0 then 0 else (if waiters[0].OfLoop() then 1 else 0) + LoopJobs(waiters[1..])
  }

  function ConnectJobs(waiters: seq<Job>): nat {
    if |waiters| == 0 then 0 else (if waiters[0].LoopConnect? then 1 else 0) + ConnectJobs(waiters[1..])
  }

  lemma {:induction false} JobsSnoc(waiters: seq<Job>, job: Job)
    ensures LoopJobs(waiters + [job]) == LoopJobs(waiters) + (if job.OfLoop() then 1 else 0)
    ensures ConnectJobs(waiters + [job]) == ConnectJobs(waiters) + (if job.LoopConnect? then 1 else 0)
    ensures ConnectJobs(waiters) <= LoopJobs(waiters)
  {
    if |waiters| == 0 {
      assert waiters + [job] == [job];
    } else {
      JobsSnoc(waiters[1..], job);
      assert (waiters + [job])[1..] == waiters[1..] + [job];
    }
  }

  predicate HoldFits(h: Hold) {
    match h.job
    case ApiConnect => false
    case ApiDisconnect(_) => h.phase.ClosingFor?
    case ApiRetry => h.phase.ClosingFor?
    case ApiScan => h.phase.ScanRuns?
    case LoopScan => h.phase.ScanRuns?
    case LoopConnect => h.phase.Resolving? || h.phase.Opening?
  }

  predicate HolderCloses(s: Sup) { s.holder.Some? && s.holder.value.phase.ClosingFor? }

  predicate LoopConnects(s: Sup) { ConnectJobs(s.waiters) > 0 || (s.holder.Some? && s.holder.value.job.LoopConnect?) }

  /** The loop is in one place at a time. */
  predicate Placed(s: Sup) {
    && LoopJobs(s.waiters) == (if s.loop.Queued? then 1 else 0)
    && (s.holder.Some? ==> HoldFits(s.holder.value))
    && (s.loop.Holding? <==> s.holder.Some? && s.holder.value.job.OfLoop())
    && (s.loop.NotStarted? ==> s.adapter.None? && !HolderCloses(s))
  }

  /** The session that is open: the adapter's, or the one being closed. */
  function Current(s: Sup): set<nat> {
    if s.adapter.Some? then {s.adapter.value}
    else if s.loop.Closing? then {s.loop.id}
    else if HolderCloses(s) then {s.holder.value.phase.id}
    else {}
  }

  predicate OneSession(s: Sup) {
    && LiveIds(s.log) == Current(s)
    && (s.adapter.Some? ==> !s.loop.Closing? && !HolderCloses(s) && !LoopConnects(s))
    && (s.loop.Closing? ==> !HolderCloses(s))
  }

  predicate Linked(status: LinkState) { status.Connected? || status.Subscribing? || status.LinkReady? || status.Stale? }

  predicate StatusTrue(s: Sup) { Linked(s.status) ==> s.adapter.Some? || s.loop.Closing? || HolderCloses(s) }

  predicate ResetOnce(s: Sup) {
    && ResetOpens(s.log) <= (if s.connectedOnce then 1 else 0)
    && HistoryTells(s.log) && (s.connectedOnce <==> Opens(s.log) > 0)
    && (s.holder.Some? && s.holder.value.phase.Opening? && s.holder.value.phase.reset ==> !s.connectedOnce)
  }

  /** `honest`: adapters are honest, so the status can be trusted too. */
  predicate Sound(cfg: Config, honest: bool, s: Sup) {
    Placed(s) && OneSession(s) && ResetOnce(s) && (honest ==> StatusTrue(s))
  }

  /** Between steps the loop is suspended somewhere. */
  predicate Inv(cfg: Config, honest: bool, s: Sup) { Sound(cfg, honest, s) && !s.loop.Running? }

  /** The loop's task is the one running. */
  predicate Active(cfg: Config, honest: bool, s: Sup) { Sound(cfg, honest, s) && s.loop.Running? }

  lemma NoteKeeps(cfg: Config, honest: bool, s: Sup, n: Note)
    requires Sound(cfg, honest, s)
    requires (n.Started? || n.DisconnectDone? || n.Slept?) && NoteTells(n, !s.connectedOnce)
    ensures Sound(cfg, honest, Noted(s, n))
  {
    NotedFacts(s.log, n);
  }

  lemma FailureKeeps(cfg: Config, honest: bool, s: Sup, status: LinkState)
    requires Sound(cfg, honest, s) && !Linked(status)
    ensures Sound(cfg, honest, OneFailure(s, status))
  {
  }

  lemma SleepKeeps(cfg: Config, honest: bool, s: Sup, why: Why, seconds: real)
    requires Active(cfg, honest, s) && NoteTells(Slept(why, seconds), false)
    ensures Inv(cfg, honest, Sleep(s, why, seconds))
  {
    NoteKeeps(cfg, honest, s, Slept(why, seconds));
  }

  lemma OpenKeeps(cfg: Config, honest: bool, s: Sup)
    requires Active(cfg, honest, s) && s.holder.None? && s.adapter.None?
    ensures Inv(cfg, honest, Open(s))
  {
    NoteKeeps(cfg, honest, s, Started(s.nextId, !s.connectedOnce));
  }

  lemma EnqueueKeeps(cfg: Config, honest: bool, s: Sup, job: Job)
    requires Active(cfg, honest, s) && job.OfLoop() && (job.LoopConnect? ==> s.adapter.None?)
    ensures Inv(cfg, honest, Enqueued(s, job))
  {
    JobsSnoc(s.waiters, job);
  }

  lemma DecideKeeps(cfg: Config, honest: bool, s: Sup)
    requires Active(cfg, honest, s)
    ensures Inv(cfg, honest, Decide(cfg, s))
  {
    if !s.desired {
      SleepKeeps(cfg, honest, s, Unwanted, 0.25);
    } else if s.adapter.None? {
      if !Free(s) {
        EnqueueKeeps(cfg, honest, s, LoopConnect);
      } else if !cfg.scanFirst {
        OpenKeeps(cfg, honest, s);
      }
    }
  }

  lemma DetachKeeps(cfg: Config, honest: bool, s: Sup, cause: Cause)
    requires Active(cfg, honest, s) && s.adapter.Some?
    ensures Inv(cfg, honest, Detached(s, cause))
  {
  }

  lemma TopKeeps(cfg: Config, honest: bool, s: Sup)
    requires Sound(cfg, honest, s) && (s.loop.Running? || s.loop.Waiting?)
    ensures Inv(cfg, honest, Top(cfg, s))
  {
    var command := Delivered(s.box, s.lastSerial);
    var s' := s.(loop := Running, desired := s.box.desired,
                 lastSerial := if s.box.serial <= s.lastSerial then s.lastSerial else s.box.serial);
    if command.None? { DecideKeeps(cfg, honest, s'); } else { ObeyedKeeps(cfg, honest, s', command.value); }
  }

  lemma ObeyedKeeps(cfg: Config, honest: bool, s: Sup, command: Command)
    requires Active(cfg, honest, s)
    ensures Inv(cfg, honest, Obeyed(cfg, s, command))
  {
    match command
    case ToConnect => DecideKeeps(cfg, honest, s.(desired := true, manual := false));
    case ToDisconnect =>
      var off := s.(desired := false, manual := true);
      if off.adapter.Some? { DetachKeeps(cfg, honest, off, UiDisconnect); } else { DecideKeeps(cfg, honest, off.(status := ManuallyDisconnected)); }
    case ToRetry =>
      var on := s.(desired := true, manual := false);
      if on.adapter.Some? { DetachKeeps(cfg, honest, on, UiRetry); } else { DecideKeeps(cfg, honest, on.(status := Reconnecting)); }
    case ToScan =>
      if !Free(s) { EnqueueKeeps(cfg, honest, s, LoopScan); } else { LoopScansKeeps(cfg, honest, s); }
  }

  lemma LoopScansKeeps(cfg: Config, honest: bool, s: Sup)
    requires Active(cfg, honest, s) && s.holder.None?
    ensures Inv(cfg, honest, LoopScans(cfg, s))
  {
    if Busy(s.status) { DecideKeeps(cfg, honest, s); }
  }

  lemma BackOffKeeps(cfg: Config, honest: bool, s: Sup)
    requires Active(cfg, honest, s)
    ensures Inv(cfg, honest, BackOff(cfg, s))
  {
    SleepKeeps(cfg, honest, s, BackingOff, NextDelay(cfg, s.attempts));
  }

  lemma ConnectFailedKeeps(cfg: Config, honest: bool, s: Sup)
    requires Active(cfg, honest, s)
    ensures Inv(cfg, honest, ConnectFailed(cfg, s))
  {
    FailureKeeps(cfg, honest, s, LinkError);
    var failed := OneFailure(s, LinkError);
    if !s.desired { TopKeeps(cfg, honest, failed); } else { BackOffKeeps(cfg, honest, failed.(status := Reconnecting)); }
  }

  lemma ConnectDoneKeeps(cfg: Config, honest: bool, s: Sup, id: nat, reset: bool, now: int)
    requires Active(cfg, honest, s) && Current(s) == {} && !LoopConnects(s) && (reset ==> !s.connectedOnce)
    ensures Inv(cfg, honest, ConnectDone(cfg, s, id, reset, now))
  {
    NotedFacts(s.log, Opened(id, reset));
    var done := Noted(s, Opened(id, reset)).(
      adapter := Some(id), connectedOnce := true, status := LinkReady, attempts := 0, lastRx := Some(now));
    TopKeeps(cfg, honest, done);
  }

  lemma AfterDropKeeps(cfg: Config, honest: bool, s: Sup)
    requires Active(cfg, honest, s)
    ensures Inv(cfg, honest, AfterDrop(cfg, s))
  {
    if !s.desired {
      TopKeeps(cfg, honest, s.(status := Disconnected));
    } else {
      FailureKeeps(cfg, honest, s, Reconnecting);
      BackOffKeeps(cfg, honest, OneFailure(s, Reconnecting));
    }
  }

  lemma AfterStaleKeeps(cfg: Config, honest: bool, s: Sup)
    requires Active(cfg, honest, s)
    ensures Inv(cfg, honest, AfterStale(cfg, s))
  {
    FailureKeeps(cfg, honest, s, Reconnecting);
    TopKeeps(cfg, honest, OneFailure(s, Reconnecting));
  }

  lemma MaybeStaleKeeps(cfg: Config, honest: bool, s: Sup, now: int)
    requires Active(cfg, honest, s)
    ensures Inv(cfg, honest, MaybeStale(cfg, s, now))
  {
    if !TooOld(cfg, s, now) {
      TopKeeps(cfg, honest, s);
    } else {
      var stale := s.(status := Stale);
      if !(cfg.reconnectOnStale && s.desired) {
        TopKeeps(cfg, honest, stale);
      } else if s.adapter.Some? {
        DetachKeeps(cfg, honest, stale, WentStale);
      } else {
        AfterStaleKeeps(cfg, honest, stale);
      }
    }
  }

  /** The one event that lies about the link: an adapter reporting "stale" after its session was taken away. */
  predicate StaleReport(s: Sup, o: Outcome) {
    o.Got? && o.heard == Link(Stale) && s.adapter.None? && !HolderCloses(s)
  }

  lemma PumpedKeeps(cfg: Config, honest: bool, s: Sup, o: Outcome)
    requires Active(cfg, honest, s) && (honest ==> !StaleReport(s, o))
    ensures Inv(cfg, honest, Pumped(cfg, s, o))
  {
    match o
    case Silence(now) => MaybeStaleKeeps(cfg, honest, s, now);
    case Got(heard, now) =>
      HeardKeeps(cfg, honest, s, o);
      MaybeStaleKeeps(cfg, honest, HeardBy(s, heard), now);
    case Ended => StreamEndedKeeps(cfg, honest, s);
    case Crashed => CrashKeeps(cfg, honest, s);
  }

  lemma HeardKeeps(cfg: Config, honest: bool, s: Sup, o: Outcome)
    requires Active(cfg, honest, s) && o.Got? && (honest ==> !StaleReport(s, o))
    ensures Active(cfg, honest, HeardBy(s, o.heard))
  {
    match o.heard
    case Own(ms) =>
      if s.status.Stale? || s.status.Connected? || s.status.Subscribing? { ReadyKeeps(cfg, honest, s.(lastRx := Some(ms))); }
    case Link(l) =>
    case Other =>
  }

  lemma ReadyKeeps(cfg: Config, honest: bool, s: Sup)
    requires Sound(cfg, honest, s) && (honest ==> Linked(s.status))
    ensures Sound(cfg, honest, s.(status := LinkReady, attempts := 0))
  {
  }

  lemma StreamEndedKeeps(cfg: Config, honest: bool, s: Sup)
    requires Active(cfg, honest, s)
    ensures Inv(cfg, honest, StreamEnded(cfg, s))
  {
    if s.manual && !s.desired {
      TopKeeps(cfg, honest, s);
    } else if s.adapter.Some? {
      DetachKeeps(cfg, honest, s, Dropped);
    } else {
      AfterDropKeeps(cfg, honest, s);
    }
  }

  lemma CrashKeeps(cfg: Config, honest: bool, s: Sup)
    requires Active(cfg, honest, s)
    ensures Inv(cfg, honest, LoopCrashed(s))
  {
    FailureKeeps(cfg, honest, s, LinkError);
    SleepKeeps(cfg, honest, OneFailure(s, LinkError), Erroring, 1.0);
  }

  lemma LoopResumedKeeps(cfg: Config, honest: bool, s: Sup, o: Outcome)
    requires Inv(cfg, honest, s) && (honest && s.loop.Pumping? ==> !StaleReport(s, o))
    ensures Inv(cfg, honest, LoopResumed(cfg, s, o))
  {
    match s.loop
    case Waiting => TopKeeps(cfg, honest, s);
    case Pumping => PumpedKeeps(cfg, honest, s.(loop := Running), o);
    case Closing(id, cause) => ClosingKeeps(cfg, honest, s);
    case _ =>
  }

  lemma ClosingKeeps(cfg: Config, honest: bool, s: Sup)
    requires Inv(cfg, honest, s) && s.loop.Closing?
    ensures Inv(cfg, honest, AfterClosing(cfg, Noted(s, Closed(s.loop.id)).(loop := Running), s.loop.cause))
  {
    var r := Noted(s, Closed(s.loop.id)).(loop := Running);
    match s.loop.cause
    case UiDisconnect =>
      ClosedKeeps(cfg, honest, s, ManuallyDisconnected);
      DecideKeeps(cfg, honest, r.(status := ManuallyDisconnected));
    case UiRetry =>
      ClosedKeeps(cfg, honest, s, Reconnecting);
      DecideKeeps(cfg, honest, r.(status := Reconnecting));
    case WentStale =>
      ClosedKeeps(cfg, honest, s, Disconnected);
      AfterStaleKeeps(cfg, honest, r.(status := Disconnected));
      StatusForgotten(cfg, r);
    case Dropped =>
      ClosedKeeps(cfg, honest, s, Disconnected);
      AfterDropKeeps(cfg, honest, r.(status := Disconnected));
      StatusForgotten(cfg, r);
  }

  /** Until it is overwritten the status may still name the session just closed. */
  lemma ClosedKeeps(cfg: Config, honest: bool, s: Sup, l: LinkState)
    requires Inv(cfg, honest, s) && s.loop.Closing? && !Linked(l)
    ensures Active(cfg, honest, Noted(s, Closed(s.loop.id)).(loop := Running, status := l))
  {
    NotedFacts(s.log, Closed(s.loop.id));
  }

  lemma StatusForgotten(cfg: Config, s: Sup)
    ensures AfterStale(cfg, s.(status := Disconnected)) == AfterStale(cfg, s)
    ensures AfterDrop(cfg, s.(status := Disconnected)) == AfterDrop(cfg, s)
  {
    assert OneFailure(s.(status := Disconnected), Reconnecting) == OneFailure(s, Reconnecting);
  }

  lemma ApiClosesKeeps(cfg: Config, honest: bool, s: Sup, manual: bool)
    requires Inv(cfg, honest, s) && s.holder.None?
    ensures Inv(cfg, honest, ApiDisconnects(s, manual)) && Inv(cfg, honest, ApiRetries(s))
  {
    if s.adapter.None? { NoteKeeps(cfg, honest, s, DisconnectDone); }
  }

  lemma GrantedKeeps(cfg: Config, honest: bool, s: Sup, job: Job)
    requires Sound(cfg, honest, s.(loop := if job.OfLoop() then Running else s.loop)) && s.holder.None?
    requires !job.OfLoop() ==> !s.loop.Running?
    requires job.LoopConnect? ==> s.adapter.None?
    ensures Inv(cfg, honest, Granted(cfg, s, job))
  {
    match job
    case ApiConnect =>
    case ApiDisconnect(manual) => ApiClosesKeeps(cfg, honest, s, manual);
    case ApiRetry => ApiClosesKeeps(cfg, honest, s, false);
    case ApiScan =>
    case LoopConnect => if !cfg.scanFirst { OpenKeeps(cfg, honest, s.(loop := Running)); }
    case LoopScan => LoopScansKeeps(cfg, honest, s.(loop := Running));
  }

  lemma AskedKeeps(cfg: Config, honest: bool, s: Sup, job: Job)
    requires Inv(cfg, honest, s) && !job.OfLoop()
    ensures Inv(cfg, honest, Asked(cfg, s, job))
  {
    if Free(s) { GrantedKeeps(cfg, honest, s, job); } else { JobsSnoc(s.waiters, job); }
  }

  lemma HolderClosedKeeps(cfg: Config, honest: bool, s: Sup)
    requires Inv(cfg, honest, s) && HolderCloses(s)
    ensures var r := Noted(s.(holder := None), Closed(s.holder.value.phase.id)).(status := Disconnected);
            Inv(cfg, honest, r) && Inv(cfg, honest, r.(status := ManuallyDisconnected)) && Inv(cfg, honest, r.(loop := StartedLoop(r)))
  {
    NotedFacts(s.log, Closed(s.holder.value.phase.id));
  }

  lemma ApiHolderKeeps(cfg: Config, honest: bool, s: Sup, ok: bool, now: int)
    requires Inv(cfg, honest, s) && s.holder.Some? && !s.holder.value.job.OfLoop()
    ensures Inv(cfg, honest, HolderResumed(cfg, s, s.holder.value, ok, now))
  {
    var h := s.holder.value;
    if h.phase.ClosingFor? {
      HolderClosedKeeps(cfg, honest, s);
      if h.job.ApiDisconnect? {
        var closed := Noted(s.(holder := None), Closed(h.phase.id));
        NoteKeeps(cfg, honest, closed.(status := if h.job.manual then ManuallyDisconnected else Disconnected), DisconnectDone);
      }
    }
  }

  /** The lock is released by the loop, whose task goes on running. */
  lemma LoopReleases(cfg: Config, honest: bool, s: Sup)
    requires Inv(cfg, honest, s) && s.holder.Some? && s.holder.value.job.OfLoop()
    ensures Active(cfg, honest, s.(holder := None, loop := Running))
    ensures s.holder.value.job.LoopConnect? ==>
              Current(s.(holder := None, loop := Running)) == {} && !LoopConnects(s.(holder := None, loop := Running))
  {
    JobsSnoc(s.waiters, s.holder.value.job);
  }

  lemma ScanDoneKeeps(cfg: Config, honest: bool, s: Sup, ok: bool)
    requires Active(cfg, honest, s)
    ensures Inv(cfg, honest, if ok then Decide(cfg, ScanEnds(s)) else LoopCrashed(s))
  {
    if ok { DecideKeeps(cfg, honest, ScanEnds(s)); } else { CrashKeeps(cfg, honest, s); }
  }

  lemma ResolvedKeeps(cfg: Config, honest: bool, s: Sup, ok: bool)
    requires Active(cfg, honest, s) && s.holder.None? && s.adapter.None?
    ensures Inv(cfg, honest, if ok then Open(s) else ConnectFailed(cfg, s))
  {
    if ok { OpenKeeps(cfg, honest, s); } else { ConnectFailedKeeps(cfg, honest, s); }
  }

  lemma OpenedKeeps(cfg: Config, honest: bool, s: Sup, id: nat, reset: bool, ok: bool, now: int)
    requires Active(cfg, honest, s) && Current(s) == {} && !LoopConnects(s) && (reset ==> !s.connectedOnce)
    ensures Inv(cfg, honest, if ok then ConnectDone(cfg, s, id, reset, now) else ConnectFailed(cfg, s))
  {
    if ok { ConnectDoneKeeps(cfg, honest, s, id, reset, now); } else { ConnectFailedKeeps(cfg, honest, s); }
  }

  lemma LoopHolderKeeps(cfg: Config, honest: bool, s: Sup, ok: bool, now: int)
    requires Inv(cfg, honest, s) && s.holder.Some? && s.holder.value.job.OfLoop()
    ensures Inv(cfg, honest, HolderResumed(cfg, s, s.holder.value, ok, now))
  {
    LoopReleases(cfg, honest, s);
    var r := s.(holder := None, loop := Running);
    match s.holder.value.phase
    case ScanRuns => ScanDoneKeeps(cfg, honest, r, ok);
    case Resolving =>
      ResolvedKeeps(cfg, honest, r, ok);
      OpenForgetsLoop(s.(holder := None));
    case Opening(id, reset) => OpenedKeeps(cfg, honest, r, id, reset, ok, now);
    case ClosingFor(_) =>
  }

  lemma OpenForgetsLoop(s: Sup)
    ensures Open(s.(loop := Running)) == Open(s)
  {
  }

  lemma StepKeeps(cfg: Config, honest: bool, s: Sup, a: Action)
    requires Inv(cfg, honest, s)
    requires honest && a.LoopResumes? && s.loop.Pumping? ==> !StaleReport(s, a.outcome)
    ensures Inv(cfg, honest, Step(cfg, s, a))
  {
    match a
    case Ipc(c) =>
    case SetDesired(value) =>
    case CallConnect => if cfg.allowConnect { AskedKeeps(cfg, honest, s, ApiConnect); }
    case CallDisconnect(manual) => if !manual || cfg.allowDisconnect { AskedKeeps(cfg, honest, s, ApiDisconnect(manual)); }
    case CallRetry => AskedKeeps(cfg, honest, s, ApiRetry);
    case CallScan => AskedKeeps(cfg, honest, s, ApiScan);
    case Grant => 
      if s.holder.None? && s.waiters != [] {
        JobsSnoc(s.waiters[1..], ApiScan);
        GrantedKeeps(cfg, honest, s.(waiters := s.waiters[1..]), s.waiters[0]);
      }
    case HolderResumes(ok, now) => 
      if s.holder.Some? {
        if s.holder.value.job.OfLoop() { LoopHolderKeeps(cfg, honest, s, ok, now); } else { ApiHolderKeeps(cfg, honest, s, ok, now); }
      }
    case LoopResumes(o) => LoopResumedKeeps(cfg, honest, s, o);
  }

  // ----- every run

  /** Adapters never report the supervisor's own state "stale". */
  predicate HonestAdapters(actions: seq<Action>) {
    forall a <- actions :: a.LoopResumes? && a.outcome.Got? ==> a.outcome.heard != Link(Stale)
  }

  lemma {:induction false} EveryInterleaving(cfg: Config, box: Mailbox, actions: seq<Action>)
    ensures Inv(cfg, HonestAdapters(actions), Run(cfg, Fresh(box), actions))
  {
    if |actions| > 0 {
      var before, a := actions[..|actions| - 1], actions[|actions| - 1];
      EveryInterleaving(cfg, box, before);
      var s := Run(cfg, Fresh(box), before);
      assert HonestAdapters(actions) ==> HonestAdapters(before) && a in actions;
      StepKeeps(cfg, HonestAdapters(actions), s, a);
    }
  }

  /**
   * In every reachable state at most one session is connected and not yet disconnected: the adapter's
   * if there is one, otherwise one whose disconnect is in flight, otherwise none. While an adapter is
   * being opened there is none. At most one session ever reset the clock.
   */
  lemma SingleSession(cfg: Config, box: Mailbox, actions: seq<Action>, s: Sup)
    requires s == Run(cfg, Fresh(box), actions)
    ensures |LiveIds(s.log)| <= 1
    ensures s.adapter.Some? ==> LiveIds(s.log) == {s.adapter.value}
    ensures s.adapter.None? && !s.loop.Closing? && !HolderCloses(s) ==> LiveIds(s.log) == {}
    ensures s.holder.Some? && s.holder.value.phase.Opening? ==> LiveIds(s.log) == {}
    ensures ResetOpens(s.log) <= 1
  {
    EveryInterleaving(cfg, box, actions);
  }

  lemma {:induction false} HistoryAt(log: seq<Note>, i: nat)
    requires HistoryTells(log) && i < |log|
    ensures NoteTells(log[i], Opens(log[..i]) == 0)
  {
    if i < |log| - 1 {
      HistoryAt(log[..|log| - 1], i);
      assert log[..|log| - 1][..i] == log[..i];
    }
  }

  /** In every run a connect asks for a clock reset exactly if no session was ever opened before it. */
  lemma ResetUntilFirstSession(cfg: Config, box: Mailbox, actions: seq<Action>, i: nat)
    requires var log := Run(cfg, Fresh(box), actions).log; i < |log| && log[i].Started?
    ensures var log := Run(cfg, Fresh(box), actions).log; log[i].reset <==> forall j :: 0 <= j < i ==> !log[j].Opened?
  {
    var log := Run(cfg, Fresh(box), actions).log;
    EveryInterleaving(cfg, box, actions);
    HistoryAt(log, i);
    NoOpens(log[..i]);
    assert forall j :: 0 <= j < i ==> log[..i][j] == log[j];
  }

  lemma {:induction false} NoOpens(log: seq<Note>)
    ensures Opens(log) == 0 <==> forall j :: 0 <= j < |log| ==> !log[j].Opened?
  {
    if |log| > 0 {
      var init := log[..|log| - 1];
      NoOpens(init);
      assert forall j :: 0 <= j < |init| ==> init[j] == log[j];
    }
  }

  /** A status that names a session is backed by one, unless that session is just being closed. */
  lemma StatusIsBacked(cfg: Config, box: Mailbox, actions: seq<Action>, s: Sup)
    requires s == Run(cfg, Fresh(box), actions) && HonestAdapters(actions)
    ensures Linked(s.status) && s.adapter.None? ==> LiveIds(s.log) != {} && (s.loop.Closing? || HolderCloses(s))
  {
    EveryInterleaving(cfg, box, actions);
  }
}
