/** The self-healing runner around the live adapter: retries, back-off, forced reconnects. */
module ReconnectRunner {
  import opened Base
  import opened Telemetry

  datatype Settings = Settings(first: int, most: int, periodS: int, sparesRunning: bool)

  function AtLeast(floor: int, x: int): int { if x < floor then floor else x }

  function AtMost(ceiling: int, x: int): int { if x > ceiling then ceiling else x }

  /** What the constructor makes of its arguments. */
  function Configured(reconnectS: int, maxReconnectS: int, periodS: int, sparesRunning: bool): (s: Settings)
    ensures Sane(s) && s.periodS >= 0 && s.sparesRunning == sparesRunning
    ensures if reconnectS >= 0 then s.first == reconnectS else s.first == 0
    ensures if maxReconnectS >= s.first then s.most == maxReconnectS else s.most == s.first
    ensures if periodS >= 0 then s.periodS == periodS else s.periodS == 0
  {
    var first := AtLeast(0, reconnectS);
    Settings(first, AtLeast(first, maxReconnectS), AtLeast(0, periodS), sparesRunning)
  }

  predicate Sane(s: Settings) { 0 <= s.first <= s.most }

  /** An event the adapter yields: a reported race state if it has one, the clock after it, whether stop was set. */
  datatype Yielded = Yielded(race: Option<RaceState>, now: int, stop: bool)

  datatype Halt = KeepsGoing | StopDuringAttempt | StopDuringSleep

  /** What happens to one attempt: connecting fails, or a session yields events until it ends by itself. */
  datatype Attempt =
    | Fails(halt: Halt)
    | Connects(since: int, stream: seq<Yielded>, halt: Halt)

  // ----- forced reconnects

  function Latest(known: Option<RaceState>, y: Yielded): Option<RaceState> { if y.race.Some? then y.race else known }

  predicate Due(s: Settings, known: Option<RaceState>, since: int, now: int) {
    && s.periodS > 0
    && now - since >= 1000 * s.periodS
    && !(s.sparesRunning && known == Some(RaceRunning))
  }

  function LatestAfter(known: Option<RaceState>, stream: seq<Yielded>): Option<RaceState> {
    if |stream| == 0 then known else Latest(LatestAfter(known, stream[..|stream| - 1]), stream[|stream| - 1])
  }

  /** Relaying ends with event k: stop was set, or a forced reconnect is due. */
  predicate Cuts(s: Settings, known: Option<RaceState>, since: int, stream: seq<Yielded>, k: nat)
    requires k < |stream|
  {
    stream[k].stop || Due(s, LatestAfter(known, stream[..k + 1]), since, stream[k].now)
  }

  /** How many events of a session starting at event k are relayed. */
  function Relayed(s: Settings, known: Option<RaceState>, since: int, stream: seq<Yielded>, k: nat := 0): (n: nat)
    requires k <= |stream|
    ensures k <= n <= |stream|
    decreases |stream| - k
  {
    if k == |stream| then k
    else if Cuts(s, known, since, stream, k) then k + 1
    else Relayed(s, known, since, stream, k + 1)
  }

  /** Relaying stops at the first event that cuts, and only there. */
  lemma {:induction false} RelayedToFirstCut(s: Settings, known: Option<RaceState>, since: int, stream: seq<Yielded>, k: nat)
    requires k <= |stream|
    ensures var n := Relayed(s, known, since, stream, k);
            && (forall j :: k <= j < n - 1 ==> !Cuts(s, known, since, stream, j))
            && (n < |stream| ==> n > k && Cuts(s, known, since, stream, n - 1))
    decreases |stream| - k
  {
    if k < |stream| && !Cuts(s, known, since, stream, k) { RelayedToFirstCut(s, known, since, stream, k + 1); }
  }

  /** A forced reconnect is due from the configured period on, if there is one, but not while a race to be spared runs. */
  lemma DueMeans(s: Settings, known: Option<RaceState>, since: int, now: int)
    ensures s.sparesRunning && known == Some(RaceRunning) ==> !Due(s, known, since, now)
    ensures s.periodS <= 0 || now - since < 1000 * s.periodS ==> !Due(s, known, since, now)
    ensures s.periodS > 0 && now - since >= 1000 * s.periodS && !(s.sparesRunning && known == Some(RaceRunning)) ==> Due(s, known, since, now)
  {
  }

  /** The known race state is the one last reported in the session ... */
  lemma {:induction false} LatestIsLastReported(known: Option<RaceState>, stream: seq<Yielded>, i: nat)
    requires i < |stream| && stream[i].race.Some? && (forall j :: i < j < |stream| ==> stream[j].race.None?)
    ensures LatestAfter(known, stream) == stream[i].race
  {
    var init := stream[..|stream| - 1];
    if i < |init| { LatestIsLastReported(known, init, i); }
  }

  /** ... or, if it reported none, the one known before. */
  lemma {:induction false} KnownWithoutReport(known: Option<RaceState>, stream: seq<Yielded>)
    requires forall i :: 0 <= i < |stream| ==> stream[i].race.None?
    ensures LatestAfter(known, stream) == known
  {
    if |stream| > 0 { KnownWithoutReport(known, stream[..|stream| - 1]); }
  }

  // ----- back-off

  function Pow2(n: nat): nat { if n == 0 then 1 else 2 * Pow2(n - 1) }

  /** The j-th consecutive sleep. */
  function Delay(s: Settings, j: nat): int
    requires j >= 1
  {
    if s.first >= 1 then AtMost(s.most, s.first * Pow2(j - 1))
    else if j == 1 then 0
    else AtMost(s.most, Pow2(j - 2))
  }

  /** The same, as the runner computes it: doubled with a floor of one second and a ceiling. */
  function Backoff(s: Settings, j: nat): int
    requires j >= 1
  {
    if j == 1 then s.first else AtMost(s.most, AtLeast(1, Backoff(s, j - 1) * 2))
  }

  lemma {:induction false} BackoffIsCappedPower(s: Settings, j: nat)
    requires Sane(s) && j >= 1
    ensures Backoff(s, j) == Delay(s, j)
  {
    if j > 1 {
      BackoffIsCappedPower(s, j - 1);
      DelayDoubles(s, j - 1);
    } else {
      assert Pow2(0) == 1;
    }
  }

  lemma DelayDoubles(s: Settings, j: nat)
    requires Sane(s) && j >= 1
    ensures AtMost(s.most, AtLeast(1, 2 * Delay(s, j))) == Delay(s, j + 1)
  {
    PositivePowers(j - 1);
    if s.first >= 1 {
      assert s.first * Pow2(j) == 2 * (s.first * Pow2(j - 1));
      assert s.first * Pow2(j - 1) >= 1;
    } else if j >= 2 {
      PositivePowers(j - 2);
    }
  }

  lemma {:induction false} PositivePowers(n: nat)
    ensures Pow2(n) >= 1
  {
    if n > 0 { PositivePowers(n - 1); }
  }

  /** Sleeps never shrink while nothing connects, and never pass the ceiling. */
  lemma DelayIsMonotone(s: Settings, j: nat)
    requires Sane(s) && j >= 1
    ensures 0 <= Delay(s, j) <= Delay(s, j + 1) <= s.most
  {
    DelayDoubles(s, j);
    PositivePowers(j - 1);
    if s.first >= 1 {
      assert s.first * Pow2(j - 1) >= 0;
    } else if j >= 2 {
      PositivePowers(j - 2);
    }
  }

  /** Attempts since the last one that connected, that one included. */
  function Consecutive(attempts: seq<Attempt>, k: nat): (j: nat)
    requires k < |attempts|
    ensures j >= 1
  {
    if k == 0 || attempts[k].Connects? then 1 else Consecutive(attempts, k - 1) + 1
  }

  /** Consecutive counts back to the latest success, or to the first attempt if there was none. */
  lemma {:induction false} ConsecutiveCountsBack(attempts: seq<Attempt>, k: nat)
    requires k < |attempts|
    ensures var j := Consecutive(attempts, k);
            && j <= k + 1
            && (j <= k ==> attempts[k + 1 - j].Connects?)
            && (forall i :: k + 1 - j < i <= k ==> attempts[i].Fails?)
  {
    if k > 0 && attempts[k].Fails? { ConsecutiveCountsBack(attempts, k - 1); }
  }

  // ----- a whole life of the runner

  /** The events relayed by one attempt, given the race state known before it. */
  function RelayedBy(s: Settings, known: Option<RaceState>, a: Attempt): seq<Yielded> {
    match a
    case Fails(_) => []
    case Connects(since, stream, _) => stream[..Relayed(s, known, since, stream)]
  }

  /** Stop is found set before the sleep that would follow the attempt. */
  predicate StopsBy(s: Settings, known: Option<RaceState>, a: Attempt) {
    var relayed := RelayedBy(s, known, a);
    a.halt.StopDuringAttempt? || (relayed != [] && relayed[|relayed| - 1].stop)
  }

  /** What the runner holds between attempts: the race state last reported, and everything relayed so far. */
  datatype Held = Held(known: Option<RaceState>, queue: seq<Yielded>)

  function After(s: Settings, h: Held, a: Attempt): Held {
    var relayed := RelayedBy(s, h.known, a);
    Held(LatestAfter(h.known, relayed), h.queue + relayed)
  }

  function AfterAll(s: Settings, h: Held, attempts: seq<Attempt>, n: nat): Held
    requires n <= |attempts|
  {
    if n == 0 then h else After(s, AfterAll(s, h, attempts, n - 1), attempts[n - 1])
  }

  predicate StopsAt(s: Settings, h: Held, attempts: seq<Attempt>, k: nat)
    requires k < |attempts|
  {
    StopsBy(s, AfterAll(s, h, attempts, k).known, attempts[k])
  }

  /** None of the first n attempts, nor the sleep after it, found stop set. */
  predicate GoesOn(s: Settings, h: Held, attempts: seq<Attempt>, n: nat)
    requires n <= |attempts|
  {
    n > 0 ==> GoesOn(s, h, attempts, n - 1) && !StopsAt(s, h, attempts, n - 1) && !attempts[n - 1].halt.StopDuringSleep?
  }

  function Delays(s: Settings, attempts: seq<Attempt>, n: nat): seq<int>
    requires n <= |attempts|
  {
    if n == 0 then [] else Delays(s, attempts, n - 1) + [Backoff(s, Consecutive(attempts, n - 1))]
  }

  /** The k-th sleep is the capped power of two for its place since the last success. */
  lemma {:induction false} SleepLaw(s: Settings, attempts: seq<Attempt>, n: nat, k: nat)
    requires Sane(s) && k < n <= |attempts|
    ensures |Delays(s, attempts, n)| == n && Delays(s, attempts, n)[k] == Delay(s, Consecutive(attempts, k))
  {
    DelaysLength(s, attempts, n - 1);
    if k == n - 1 { BackoffIsCappedPower(s, Consecutive(attempts, k)); } else { SleepLaw(s, attempts, n - 1, k); }
  }

  lemma {:induction false} DelaysLength(s: Settings, attempts: seq<Attempt>, n: nat)
    requires n <= |attempts|
    ensures |Delays(s, attempts, n)| == n
  {
    if n > 0 { DelaysLength(s, attempts, n - 1); }
  }

  lemma {:induction false} OnlyFirstResets(first: bool, n: nat, k: nat)
    requires k < n
    ensures |Resets(first, n)| == n && Resets(first, n)[k] == (k == 0 && first)
  {
    if n > 1 { OnlyFirstResets(first, n - 1, if k < n - 1 then k else 0); }
  }

  /** Only the first attempt may reset the Control Unit clock. */
  function Resets(first: bool, n: nat): seq<bool> { if n == 0 then [] else Resets(first, n - 1) + [n == 1 && first] }

  /** The runner stops after an attempt exactly when stop was set during it, at the latest by an event it relayed. */
  lemma StopsExactlyWhenSet(s: Settings, known: Option<RaceState>, a: Attempt)
    ensures StopsBy(s, known, a)
       <==> a.halt.StopDuringAttempt? || exists i :: 0 <= i < |RelayedBy(s, known, a)| && RelayedBy(s, known, a)[i].stop
  {
    var relayed := RelayedBy(s, known, a);
    if a.Connects? {
      RelayedToFirstCut(s, known, a.since, a.stream, 0);
      forall i | 0 <= i < |relayed| - 1 ensures !relayed[i].stop { assert !Cuts(s, known, a.since, a.stream, i); }
    }
  }

  lemma {:induction false} LatestOverTwo(known: Option<RaceState>, a: seq<Yielded>, b: seq<Yielded>)
    ensures LatestAfter(known, a + b) == LatestAfter(LatestAfter(known, a), b)
  {
    if |b| == 0 {
      assert a + b == a;
    } else {
      assert (a + b)[..|a + b| - 1] == a + b[..|b| - 1];
      LatestOverTwo(known, a, b[..|b| - 1]);
    }
  }

  /** Between attempts the runner knows the last race state of everything it relayed, whichever session that was in. */
  lemma {:induction false} KnownAcrossSessions(s: Settings, h: Held, attempts: seq<Attempt>, n: nat)
    requires n <= |attempts| && h.known == LatestAfter(None, h.queue)
    ensures var after := AfterAll(s, h, attempts, n); after.known == LatestAfter(None, after.queue)
  {
    if n > 0 {
      KnownAcrossSessions(s, h, attempts, n - 1);
      var before := AfterAll(s, h, attempts, n - 1);
      LatestOverTwo(None, before.queue, RelayedBy(s, before.known, attempts[n - 1]));
    }
  }

  class CarreraClientRunner {
    const settings: Settings
    /** Whether a new adapter resets the Control Unit clock when it connects. */
    const adapterResets: bool
    var latestRaceState: Option<RaceState>
    var queue: seq<Yielded>

    constructor (settings: Settings, adapterResets: bool)
      ensures this.settings == settings && this.adapterResets == adapterResets
      ensures latestRaceState == None && queue == []
    {
      this.settings, this.adapterResets := settings, adapterResets;
      latestRaceState, queue := None, [];
    }

    ghost function State(): Held
      reads this
    {
      Held(latestRaceState, queue)
    }

    method PeriodicReconnectDue(since: int, now: int) returns (due: bool)
      ensures due == Due(settings, latestRaceState, since, now)
    {
      if settings.periodS <= 0 { return false; }
      var elapsedMs := AtLeast(0, now - since);
      if elapsedMs < 1000 * settings.periodS { return false; }
      due := !(settings.sparesRunning && latestRaceState == Some(RaceRunning));
    }

    /** Relays one session; `stopped` when the last relayed event found stop set. */
    method Pump(since: int, stream: seq<Yielded>) returns (stopped: bool, forced: bool)
      modifies this
      ensures var n := Relayed(settings, old(latestRaceState), since, stream);
              && queue == old(queue) + stream[..n]
              && latestRaceState == LatestAfter(old(latestRaceState), stream[..n])
              && stopped == (n > 0 && stream[n - 1].stop)
              && forced == (n > 0 && !stopped && Due(settings, latestRaceState, since, stream[n - 1].now))
    {
      ghost var known := latestRaceState;
      stopped, forced := false, false;
      for k := 0 to |stream|
        invariant queue == old(queue) + stream[..k] && latestRaceState == LatestAfter(known, stream[..k])
        invariant Relayed(settings, known, since, stream) == Relayed(settings, known, since, stream, k)
        invariant !stopped && !forced && (k > 0 ==> !Cuts(settings, known, since, stream, k - 1))
      {
        var y := stream[k];
        assert stream[..k + 1][..k] == stream[..k];
        if y.race.Some? { latestRaceState := y.race; }
        queue := queue + [y];
        if y.stop {
          stopped := true;
          return;
        }
        forced := PeriodicReconnectDue(since, y.now);
        if forced { return; }
      }
      assert stream[..|stream|] == stream;
    }

    /** One connect and, if it succeeds, its session. */
    method TryOnce(a: Attempt) returns (stop: bool)
      modifies this
      ensures State() == After(settings, old(State()), a)
      ensures stop == StopsBy(settings, old(latestRaceState), a)
    {
      match a
      case Fails(halt) =>
        assert queue + [] == queue;
        stop := halt.StopDuringAttempt?;
      case Connects(since, stream, halt) =>
        var stopped, forced := Pump(since, stream);
        stop := stopped || halt.StopDuringAttempt?;
    }

    /** One turn of the loop: an attempt and, unless stopped, the sleep after it. */
    method Turn(a: Attempt, backoff: int) returns (slept: Option<int>, next: int)
      modifies this
      ensures State() == After(settings, old(State()), a)
      ensures slept == if StopsBy(settings, old(latestRaceState), a) then None
                       else Some(if a.Connects? then settings.first else backoff)
      ensures slept.Some? ==> next == AtMost(settings.most, AtLeast(1, slept.value * 2))
    {
      next := if a.Connects? then settings.first else backoff;
      var stop := TryOnce(a);
      if stop { return None, next; }
      slept := Some(next);
      next := AtMost(settings.most, AtLeast(1, next * 2));
    }

    /**
     * Makes attempts until stopped (or until the given outcomes are used up). Sleeps follow the back-off
     * counted from the last success, and only the first attempt may reset the clock.
     */
    method Run(attempts: seq<Attempt>) returns (sleeps: seq<int>, resets: seq<bool>)
      requires Sane(settings)
      modifies this
      ensures |sleeps| <= |resets| <= |attempts|
      ensures sleeps == Delays(settings, attempts, |sleeps|) && resets == Resets(adapterResets, |resets|)
      ensures State() == AfterAll(settings, old(State()), attempts, |resets|)
      ensures |resets| > 0 ==> GoesOn(settings, old(State()), attempts, |resets| - 1)
      ensures |sleeps| < |resets| ==> |resets| == |sleeps| + 1 && StopsAt(settings, old(State()), attempts, |sleeps|)
      ensures |sleeps| == |resets| < |attempts| ==> |resets| > 0 && attempts[|resets| - 1].halt.StopDuringSleep?
    {
      ghost var start := State();
      var backoff := settings.first;
      var attempt, stop := 0, false;
      sleeps, resets := [], [];
      while attempt < |attempts| && !stop
        invariant attempt == |sleeps| == |resets| <= |attempts|
        invariant sleeps == Delays(settings, attempts, attempt) && resets == Resets(adapterResets, attempt)
        invariant backoff == if attempt == 0 then settings.first else Backoff(settings, Consecutive(attempts, attempt - 1) + 1)
        invariant stop ==> attempt > 0 && attempts[attempt - 1].halt.StopDuringSleep?
        invariant GoesOn(settings, start, attempts, if stop then attempt - 1 else attempt)
        invariant State() == AfterAll(settings, start, attempts, attempt)
        decreases |attempts| - attempt
      {
        resets := resets + [attempt == 0 && adapterResets];
        var a := attempts[attempt];
        var slept;
        slept, backoff := Turn(a, backoff);
        assert State() == AfterAll(settings, start, attempts, attempt + 1);
        if slept.None? { return; }
        assert slept.value == Backoff(settings, Consecutive(attempts, attempt));
        sleeps := sleeps + [slept.value];
        stop := a.halt.StopDuringSleep?;
        attempt := attempt + 1;
      }
    }
  }
}
