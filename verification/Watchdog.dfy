/** The idle watchdog of the live read loop: which link events a sequence of polls produces, and when it gives up. */
module Watchdog {
  datatype Poll = Timeout | Frame | Failure

  datatype Health = Healthy | Degraded | Stalled

  /** A connection event; `streak` is the number of consecutive timeouts it reports. */
  datatype LinkEvent = LinkDegraded(streak: nat) | LinkStalled(streak: nat) | LinkRecovered

  datatype Ending = StillOpen | Idle | Broken

  function AtLeast(floor: int, x: int): int { if x < floor then floor else x }

  datatype RawLimits = Limits(warning: int, hard: int)

  type Limits = l: RawLimits | l.warning >= 1 && l.hard >= 1 witness Limits(1, 3)

  /** The adapter's settings are raised to their floors. */
  function Configured(idleWarning: int, idleTimeout: int): (limits: Limits)
    ensures if idleWarning > 1 then limits.warning == idleWarning else limits.warning == 1
    ensures if idleTimeout > 3 then limits.hard == idleTimeout else limits.hard == 3
  {
    Limits(AtLeast(1, idleWarning), AtLeast(3, idleTimeout))
  }

  // ----- the loop

  class LinkHealthTracker {
    const limits: Limits
    var streak: nat
    var health: Health

    constructor (limits: Limits)
      ensures this.limits == limits && streak == 0 && health == Healthy
    {
      this.limits := limits;
      streak, health := 0, Healthy;
    }

    method OnTimeout()
      modifies this
      ensures Tracker(streak, health) == Tracked(limits, Tracker(old(streak), old(health)), Timeout)
    {
      streak := streak + 1;
      if streak >= limits.hard {
        health := Stalled;
      } else if streak >= limits.warning {
        health := Degraded;
      }
    }

    method OnFrame()
      modifies this
      ensures Tracker(streak, health) == Tracked(limits, Tracker(old(streak), old(health)), Frame)
    {
      streak, health := 0, Healthy;
    }
  }

  datatype Tracker = Tracker(streak: nat, health: Health)

  function Tracked(limits: Limits, t: Tracker, poll: Poll): Tracker {
    match poll
    case Timeout =>
      var n := t.streak + 1;
      Tracker(n, if n >= limits.hard then Stalled else if n >= limits.warning then Degraded else t.health)
    case Frame => Tracker(0, Healthy)
    case Failure => t
  }

  function TrackedAll(limits: Limits, polls: seq<Poll>): Tracker {
    if |polls| == 0 then Tracker(0, Healthy) else Tracked(limits, TrackedAll(limits, polls[..|polls| - 1]), polls[|polls| - 1])
  }

  /** Polls until the link breaks, is declared idle, or the polls given are used up. */
  method ReadLoop(tracker: LinkHealthTracker, polls: seq<Poll>) returns (events: seq<LinkEvent>, used: nat, ending: Ending)
    requires tracker.streak == 0 && tracker.health == Healthy
    modifies tracker
    ensures used <= |polls| && events == Emitted(tracker.limits, polls[..used])
    ensures tracker.streak == Trailing(polls[..used]) && tracker.health == HealthOf(tracker.limits, tracker.streak)
    ensures forall k :: 0 <= k < used - 1 ==> !GivesUp(tracker.limits, polls, k)
    ensures ending.StillOpen? ==> used == |polls| && (used > 0 ==> !GivesUp(tracker.limits, polls, used - 1))
    ensures ending.Idle? ==> used > 0 && polls[used - 1].Timeout? && Trailing(polls[..used]) == tracker.limits.hard
    ensures ending.Broken? ==> used > 0 && polls[used - 1].Failure?
  {
    events, used, ending := [], 0, StillOpen;
    var streak := 0;
    while used < |polls|
      invariant used <= |polls| && events == Emitted(tracker.limits, polls[..used])
      invariant streak == tracker.streak == Trailing(polls[..used]) < tracker.limits.hard
      invariant Tracker(tracker.streak, tracker.health) == TrackedAll(tracker.limits, polls[..used])
      invariant forall k :: 0 <= k < used ==> !GivesUp(tracker.limits, polls, k)
    {
      var poll := polls[used];
      assert polls[..used + 1][..used] == polls[..used];
      TrackerFollowsStreak(tracker.limits, polls[..used]);
      TrackerFollowsStreak(tracker.limits, polls[..used + 1]);
      used := used + 1;
      match poll
      case Timeout =>
        streak := streak + 1;
        tracker.OnTimeout();
        if tracker.health.Degraded? { events := events + [LinkDegraded(tracker.streak)]; }
        if streak >= tracker.limits.hard {
          events := events + [LinkStalled(streak)];
          return events, used, Idle;
        }
      case Failure =>
        return events, used, Broken;
      case Frame =>
        if streak > 0 {
          events := events + [LinkRecovered];
          streak := 0;
        }
        tracker.OnFrame();
    }
    TrackerFollowsStreak(tracker.limits, polls[..used]);
  }

  // ----- what the trace should be, read off the polls alone

  /** Length of the run of timeouts the polls end with. */
  function Trailing(polls: seq<Poll>): nat {
    if |polls| == 0 || polls[|polls| - 1].Frame? then 0
    else Trailing(polls[..|polls| - 1]) + (if polls[|polls| - 1].Timeout? then 1 else 0)
  }

  function HealthOf(limits: Limits, streak: nat): Health {
    if streak >= limits.hard then Stalled else if streak >= limits.warning then Degraded else Healthy
  }

  predicate GivesUp(limits: Limits, polls: seq<Poll>, k: nat)
    requires k < |polls|
  {
    polls[k].Failure? || Trailing(polls[..k + 1]) >= limits.hard
  }

  function EmittedBy(limits: Limits, before: nat, poll: Poll): seq<LinkEvent> {
    match poll
    case Timeout =>
      if before + 1 >= limits.hard then [LinkStalled(before + 1)]
      else if before + 1 >= limits.warning then [LinkDegraded(before + 1)]
      else []
    case Frame => if before > 0 then [LinkRecovered] else []
    case Failure => []
  }

  function Emitted(limits: Limits, polls: seq<Poll>): seq<LinkEvent> {
    if |polls| == 0 then []
    else
      var before := polls[..|polls| - 1];
      Emitted(limits, before) + EmittedBy(limits, Trailing(before), polls[|polls| - 1])
  }

  /** The tracker, updated call by call, always holds the loop's own streak and the health that goes with it. */
  lemma {:induction false} TrackerFollowsStreak(limits: Limits, polls: seq<Poll>)
    ensures var t := TrackedAll(limits, polls); t.streak == Trailing(polls) && t.health == HealthOf(limits, t.streak)
  {
    if |polls| > 0 { TrackerFollowsStreak(limits, polls[..|polls| - 1]); }
  }

  // ----- whole runs of timeouts

  function Timeouts(n: nat): seq<Poll> { if n == 0 then [] else Timeouts(n - 1) + [Timeout] }

  /** One warning for each streak from the threshold to n. */
  function Warnings(limits: Limits, n: nat): seq<LinkEvent> {
    if n < limits.warning || n == 0 then [] else Warnings(limits, n - 1) + [LinkDegraded(n)]
  }

  lemma EmittedSnoc(limits: Limits, polls: seq<Poll>, poll: Poll)
    ensures Emitted(limits, polls + [poll]) == Emitted(limits, polls) + EmittedBy(limits, Trailing(polls), poll)
    ensures Trailing(polls + [poll]) == if poll.Frame? then 0 else Trailing(polls) + (if poll.Timeout? then 1 else 0)
  {
    assert (polls + [poll])[..|polls|] == polls;
  }

  lemma OneMoreTimeout(a: seq<Poll>, n: nat)
    ensures a + Timeouts(n + 1) == (a + Timeouts(n)) + [Timeout]
  {
  }

  lemma RunExtends(limits: Limits, events: seq<LinkEvent>, run: seq<Poll>, longer: seq<Poll>, n: nat)
    requires longer == run + [Timeout] && 0 < n < limits.hard
    requires Trailing(run) == n - 1 && Emitted(limits, run) == events + Warnings(limits, n - 1)
    ensures Trailing(longer) == n && Emitted(limits, longer) == events + Warnings(limits, n)
  {
    EmittedSnoc(limits, run, Timeout);
    WarningsGrow(limits, n, events);
  }

  lemma {:induction false} RunOfTimeouts(limits: Limits, a: seq<Poll>, n: nat)
    requires Trailing(a) == 0 && n < limits.hard
    ensures Trailing(a + Timeouts(n)) == n
    ensures Emitted(limits, a + Timeouts(n)) == Emitted(limits, a) + Warnings(limits, n)
  {
    if n == 0 {
      assert a + Timeouts(0) == a;
    } else {
      RunOfTimeouts(limits, a, n - 1);
      OneMoreTimeout(a, n - 1);
      RunExtends(limits, Emitted(limits, a), a + Timeouts(n - 1), a + Timeouts(n), n);
    }
  }

  lemma WarningsGrow(limits: Limits, n: nat, events: seq<LinkEvent>)
    requires 0 < n < limits.hard
    ensures events + Warnings(limits, n) == events + Warnings(limits, n - 1) + EmittedBy(limits, n - 1, Timeout)
  {
  }

  /**
   * A run of n timeouts that a frame ends before the hard limit: a warning for each streak value from the
   * threshold on, then exactly one recovery, and the link is as good as new.
   */
  lemma RecoveredRun(limits: Limits, a: seq<Poll>, n: nat)
    requires Trailing(a) == 0 && 0 < n < limits.hard
    ensures var polls := a + Timeouts(n) + [Frame];
            Emitted(limits, polls) == Emitted(limits, a) + Warnings(limits, n) + [LinkRecovered] && Trailing(polls) == 0
  {
    RunOfTimeouts(limits, a, n);
    EmittedSnoc(limits, a + Timeouts(n), Frame);
  }

  /** A run that reaches the hard limit: the same warnings, then one stall, no recovery. */
  lemma StalledRun(limits: Limits, a: seq<Poll>)
    requires Trailing(a) == 0
    ensures Emitted(limits, a + Timeouts(limits.hard))
            == Emitted(limits, a) + Warnings(limits, limits.hard - 1) + [LinkStalled(limits.hard)]
  {
    var n := limits.hard - 1;
    RunOfTimeouts(limits, a, n);
    var run := a + Timeouts(n);
    EmittedSnoc(limits, run, Timeout);
    assert a + Timeouts(limits.hard) == run + [Timeout] by { OneMoreTimeout(a, n); }
    assert Trailing(run) == n && EmittedBy(limits, n, Timeout) == [LinkStalled(limits.hard)];
  }

  /** Positions where a frame ends a run of timeouts. */
  function EndedRuns(polls: seq<Poll>): nat {
    if |polls| == 0 then 0
    else
      var k := |polls| - 1;
      EndedRuns(polls[..k]) + (if polls[k].Frame? && k > 0 && polls[k - 1].Timeout? then 1 else 0)
  }

  function Recoveries(events: seq<LinkEvent>): nat { multiset(events)[LinkRecovered] }

  function Stalls(events: seq<LinkEvent>): nat {
    if |events| == 0 then 0 else Stalls(events[..|events| - 1]) + (if events[|events| - 1].LinkStalled? then 1 else 0)
  }

  predicate NeverFails(polls: seq<Poll>) { forall i :: 0 <= i < |polls| ==> !polls[i].Failure? }

  predicate NeverIdle(limits: Limits, polls: seq<Poll>) { forall i :: 0 <= i <= |polls| ==> Trailing(polls[..i]) < limits.hard }

  lemma EventsAppend(events: seq<LinkEvent>, more: seq<LinkEvent>)
    requires |more| <= 1
    ensures Recoveries(events + more) == Recoveries(events) + (if more == [LinkRecovered] then 1 else 0)
    ensures Stalls(events + more) == Stalls(events) + (if more != [] && more[0].LinkStalled? then 1 else 0)
  {
    if more == [] { assert events + more == events; } else { assert (events + more)[..|events|] == events; }
  }

  lemma {:induction false} TrailingMeans(polls: seq<Poll>)
    requires NeverFails(polls)
    ensures Trailing(polls) > 0 <==> polls != [] && polls[|polls| - 1].Timeout?
  {
  }

  function EndsRun(polls: seq<Poll>, poll: Poll): nat {
    if poll.Frame? && polls != [] && polls[|polls| - 1].Timeout? then 1 else 0
  }

  lemma EndedRunsSnoc(polls: seq<Poll>, poll: Poll)
    ensures EndedRuns(polls + [poll]) == EndedRuns(polls) + EndsRun(polls, poll)
  {
    assert (polls + [poll])[..|polls|] == polls;
  }

  /** One more poll on an open link: a recovery exactly if it ends a run, and no stall. */
  lemma OneMorePoll(limits: Limits, polls: seq<Poll>, poll: Poll)
    requires NeverFails(polls) && !poll.Failure? && Trailing(polls + [poll]) < limits.hard
    ensures Recoveries(Emitted(limits, polls + [poll])) == Recoveries(Emitted(limits, polls)) + EndsRun(polls, poll)
    ensures Stalls(Emitted(limits, polls + [poll])) == Stalls(Emitted(limits, polls))
  {
    EmittedSnoc(limits, polls, poll);
    TrailingMeans(polls);
    EventsAppend(Emitted(limits, polls), EmittedBy(limits, Trailing(polls), poll));
  }

  /** While the link is open there are exactly as many recoveries as ended runs, and no stall. */
  lemma {:induction false} OneRecoveryPerRun(limits: Limits, polls: seq<Poll>)
    requires NeverFails(polls) && NeverIdle(limits, polls)
    ensures Recoveries(Emitted(limits, polls)) == EndedRuns(polls)
    ensures Stalls(Emitted(limits, polls)) == 0
  {
    if |polls| > 0 {
      var before, last := polls[..|polls| - 1], polls[|polls| - 1];
      assert polls == before + [last];
      forall i | 0 <= i <= |before| ensures Trailing(before[..i]) < limits.hard { assert before[..i] == polls[..i]; }
      assert polls[..|polls|] == polls;
      OneRecoveryPerRun(limits, before);
      OneMorePoll(limits, before, last);
      EndedRunsSnoc(before, last);
    }
  }
}
