/**
 What a delivery asks of its host, action by action: which route each launch names, which delay each timer
 carries and which attempts the last word reports, in every run.
 */
module DeliveryLog {
  import opened Delivery

  /** Which route is next after `n` launches. */
  function Position(c: Config, n: nat): nat
    requires c.routes != []
  {
    n % |c.routes|
  }

  /** The first `n` attempts go through the routes in order, again and again. */
  ghost predicate InTurn(c: Config, attempted: seq<string>, n: nat)
    requires c.routes != []
  {
    |attempted| == n && forall i :: 0 <= i < n ==> attempted[i] == c.routes[Position(c, i)]
  }

  /** What an action must say after the actions in `log`. */
  ghost predicate Speaks(c: Config, log: seq<Entry>, a: Action)
    requires c.routes != []
  {
    var launched, retried := Count(log, IsLaunch), Count(log, IsArmRetry);
    match a
    case LaunchRoute(_, route) => route == Position(c, launched) % WORD
    case ArmFallback(_, delay) => delay == c.fallbackDelay
    case ArmRetry(_, delay) => retried < |c.retryDelays| && delay == c.retryDelays[retried]
    case Completed(_, _, attempted) => InTurn(c, attempted, launched)
    case Exhausted(attempted, _) =>
      launched == (|c.retryDelays| + 1) * |c.routes| && retried == |c.retryDelays| && InTurn(c, attempted, launched)
    case _ => true
  }

  ghost predicate SpeaksAt(c: Config, log: seq<Entry>, k: nat)
    requires c.routes != [] && k < |log|
  {
    Speaks(c, log[..k], log[k].action)
  }

  ghost predicate Faithful(c: Config, log: seq<Entry>)
    requires c.routes != []
  {
    forall k :: 0 <= k < |log| ==> SpeaksAt(c, log, k)
  }

  lemma FaithfulSnoc(c: Config, log: seq<Entry>, e: Entry)
    requires c.routes != [] && Faithful(c, log) && Speaks(c, log, e.action)
    ensures Faithful(c, log + [e])
  {
    forall k | 0 <= k < |log + [e]| ensures SpeaksAt(c, log + [e], k) {
      if k < |log| {
        assert SpeaksAt(c, log, k) && (log + [e])[..k] == log[..k];
      } else {
        assert (log + [e])[..k] == log;
      }
    }
  }

  lemma FaithfulOne(c: Config, log: seq<Entry>, retries: nat, a: Action)
    requires c.routes != [] && Faithful(c, log) && Speaks(c, log, a)
    ensures Faithful(c, log + Tag(retries, [a]))
  {
    FaithfulSnoc(c, log, Entry(retries, a));
    assert Tag(retries, [a]) == [Entry(retries, a)];
  }

  /** The second of two actions says something that does not depend on the first. */
  lemma FaithfulTwo(c: Config, log: seq<Entry>, retries: nat, a: Action, b: Action)
    requires c.routes != [] && Faithful(c, log) && Speaks(c, log, a)
    requires Speaks(c, log + [Entry(retries, a)], b)
    ensures Faithful(c, log + Tag(retries, [a, b]))
  {
    FaithfulSnoc(c, log, Entry(retries, a));
    FaithfulSnoc(c, log + [Entry(retries, a)], Entry(retries, b));
    assert log + Tag(retries, [a, b]) == log + [Entry(retries, a)] + [Entry(retries, b)];
  }

  lemma LaunchFaithful(c: Config, s: State, log: seq<Entry>, retries: nat)
    requires s.nextRoute < |c.routes| && Faithful(c, log) && Position(c, Count(log, IsLaunch)) == s.nextRoute
    ensures Faithful(c, log + Tag(retries, LaunchNext(c, s).1))
  {
    var launch := LaunchRoute(s.round, s.nextRoute % WORD);
    if s.nextRoute + 1 < |c.routes| && !s.fallbackArmed {
      FaithfulTwo(c, log, retries, launch, ArmFallback(s.round, c.fallbackDelay));
    } else {
      FaithfulOne(c, log, retries, launch);
    }
  }

  lemma FinishFaithful(c: Config, s: State, log: seq<Entry>, retries: nat)
    requires c.routes != [] && s.pending == {} && Faithful(c, log) && Count(log, IsArmRetry) == s.retryIndex
    requires InTurn(c, s.attempted, Count(log, IsLaunch)) && s.retryIndex <= |c.retryDelays|
    requires Count(log, IsLaunch) == (s.retryIndex + 1) * |c.routes|
    ensures Faithful(c, log + Tag(retries, FinishRound(c, s).1))
  {
    FaithfulOne(c, log, retries, FinishRound(c, s).1[0]);
  }

  lemma OneQuotient(a: nat, b: nat, k: nat, x: nat, y: nat)
    requires a * k + x == b * k + y && x < k && y < k
    ensures x == y
  {
    if a < b {
      StagesDominate(b, a, k, y, x);
    } else if b < a {
      StagesDominate(a, b, k, x, y);
    }
  }

  lemma PositionIs(c: Config, n: nat, r: nat)
    requires r < |c.routes|
    ensures Position(c, n * |c.routes| + r) == r
  {
    var k := |c.routes|;
    var x := n * k + r;
    OneQuotient(x / k, n, k, x % k, r);
  }

  lemma {:induction false} LapsInTurn(c: Config, n: nat, rest: nat)
    requires c.routes != [] && rest <= |c.routes|
    ensures InTurn(c, Laps(c.routes, n) + c.routes[..rest], n * |c.routes| + rest)
    decreases n
  {
    var k, laps := |c.routes|, Laps(c.routes, n);
    LapsLength(c.routes, n);
    if n > 0 {
      LapsInTurn(c, n - 1, k);
      assert c.routes[..k] == c.routes && (n - 1) * k + k == n * k;
    }
    assert InTurn(c, laps, n * k);
    forall i | 0 <= i < n * k + rest ensures (laps + c.routes[..rest])[i] == c.routes[Position(c, i)] {
      if i >= n * k { PositionIs(c, n, i - n * k); }
    }
  }

  lemma NextPosition(c: Config, n: nat, next: nat)
    requires next <= |c.routes| && c.routes != []
    ensures Position(c, n * |c.routes| + next) == if next < |c.routes| then next else 0
  {
    if next < |c.routes| {
      PositionIs(c, n, next);
    } else {
      PositionIs(c, n + 1, 0);
      assert (n + 1) * |c.routes| + 0 == n * |c.routes| + next;
    }
  }

  /** The counts of the log, as the state has them. */
  lemma Counts(c: Config, t: Trace)
    requires ValidConfig(c) && Inv(c, t) && Logged(t)
    ensures Count(t.log, IsLaunch) == t.retries * |c.routes| + t.state.nextRoute
    ensures InTurn(c, t.state.attempted, Count(t.log, IsLaunch)) && Count(t.log, IsArmRetry) == t.state.retryIndex
    ensures Position(c, Count(t.log, IsLaunch)) == if t.state.nextRoute < |c.routes| then t.state.nextRoute else 0
  {
    LapsInTurn(c, t.retries, t.state.nextRoute);
    NextPosition(c, t.retries, t.state.nextRoute);
  }

  lemma FullRounds(c: Config, t: Trace)
    requires ValidConfig(c) && Inv(c, t) && Logged(t) && t.state.phase.Running? && t.state.nextRoute == |c.routes|
    ensures Count(t.log, IsLaunch) == (t.state.retryIndex + 1) * |c.routes|
  {
    Counts(c, t);
    Distribute(t.retries, |c.routes|);
  }

  lemma Distribute(n: nat, k: nat)
    ensures n * k + k == (n + 1) * k
  {
  }

  lemma FailureFaithful(c: Config, t: Trace, route: nat, failure: string)
    requires ValidConfig(c) && Inv(c, t) && Logged(t) && Faithful(c, t.log) && t.state.phase.Running?
    ensures Faithful(c, t.log + Tag(t.retries, RouteFailed(c, t.state, route, failure).1))
  {
    var launched := Count(t.log, IsLaunch);
    var s1 := t.state.(pending := t.state.pending - {route}, failures := RouteFailures(c, t.state, route, failure));
    assert InTurn(c, s1.attempted, launched) && Count(t.log, IsArmRetry) == s1.retryIndex
           && Position(c, launched) == (if s1.nextRoute < |c.routes| then s1.nextRoute else 0) by { Counts(c, t); }
    if s1.nextRoute < |c.routes| {
      LaunchFaithful(c, s1, t.log, t.retries);
    } else if s1.pending == {} {
      FullRounds(c, t);
      FinishFaithful(c, s1, t.log, t.retries);
    } else {
      assert t.log + Tag(t.retries, []) == t.log;
    }
  }

  lemma AnswerFaithful(c: Config, t: Trace, e: Event)
    requires ValidConfig(c) && Inv(c, t) && Logged(t) && Faithful(c, t.log) && e.RouteResult?
    requires t.state.phase.Running? && e.round == t.state.round && e.route in t.state.pending
    ensures Faithful(c, t.log + Tag(t.retries, Step(c, t.state, e).1))
  {
    if e.accepted {
      Counts(c, t);
      var a, b := CancelOtherRoutes(e.round, e.route), Completed(e.round, e.route, t.state.attempted);
      FaithfulTwo(c, t.log, t.retries, a, b);
    } else {
      FailureFaithful(c, t, e.route, e.failure);
    }
  }

  lemma RetryFaithful(c: Config, t: Trace, e: Event)
    requires ValidConfig(c) && Inv(c, t) && Logged(t) && Faithful(c, t.log) && e.RetryElapsed?
    requires t.state.phase.WaitingRetry? && e.round == t.state.round
    ensures Faithful(c, Advance(c, t, e).log)
  {
    Counts(c, t);
    RetryKeeps(c, t, e);
    LaunchFaithful(c, Retried(t.state), t.log, t.retries + 1);
  }

  lemma StepFaithful(c: Config, t: Trace, e: Event)
    requires ValidConfig(c) && Inv(c, t) && Logged(t) && Faithful(c, t.log)
    ensures Faithful(c, Advance(c, t, e).log)
  {
    var s, log := t.state, t.log;
    Counts(c, t);
    if Step(c, s, e).1 == [] {
      assert log + Tag(Advance(c, t, e).retries, []) == log;
    } else {
      match e
      case RouteResult(_, _, _, _) => AnswerFaithful(c, t, e);
      case Start => LaunchFaithful(c, s.(phase := Running), log, t.retries);
      case FallbackElapsed(_) => LaunchFaithful(c, s.(fallbackArmed := false), log, t.retries);
      case RetryElapsed(_) => RetryFaithful(c, t, e);
      case Abort => FaithfulTwo(c, log, t.retries, CancelAllRoutes(s.round), AbortedDelivery);
    }
  }

  /**
   In every run the k-th launch names route k modulo their number, the k-th retry timer carries the k-th
   retry delay, every fallback timer the fallback delay, and the last word reports every launch so far.
   */
  lemma {:induction false} RunFaithful(c: Config, events: seq<Event>)
    requires ValidConfig(c)
    ensures Faithful(c, Run(c, events).log)
  {
    if events != [] {
      var before := events[..|events| - 1];
      RunFaithful(c, before);
      RunKeeps(c, before);
      RunLogs(c, before);
      StepFaithful(c, Run(c, before), events[|events| - 1]);
    }
  }

  /** The routes in flight after an event that is heard: who is answered, who is launched. */
  ghost predicate Flies(c: Config, s: State, e: Event, s': State) {
    var next := if s.nextRoute < |c.routes| then {s.nextRoute} else {};
    match e
    case Start => s'.pending == {0}
    case RetryElapsed(_) => s'.pending == {0}
    case FallbackElapsed(_) => s'.pending == s.pending + next
    case RouteResult(_, route, accepted, _) =>
      s'.pending == (s.pending - {route}) + if accepted then {} else next
    case Abort => s'.pending == s.pending
  }

  /** How an event that is heard ends the delivery, and what it then tells the host. */
  ghost predicate Ends(s: State, e: Event, s': State, actions: seq<Action>) {
    && (s'.phase.Complete? <==> e.RouteResult? && e.accepted)
    && (s'.phase.Complete? ==>
        actions == [CancelOtherRoutes(s.round, e.route), Completed(s.round, e.route, s.attempted)])
    && (s'.phase.Aborted? <==> e.Abort?)
    && (s'.phase.Aborted? ==> actions == [CancelAllRoutes(s.round), AbortedDelivery])
    && (s'.phase.Failed? || s'.phase.WaitingRetry? ==> e.RouteResult? && !e.accepted && s.pending == {e.route})
  }

  /** A failed answer is kept with its route, and when it is the last one the report joins all that were kept. */
  ghost predicate Reports(c: Config, s: State, e: Event, s': State, actions: seq<Action>) {
    if e.RouteResult? && !e.accepted then
      && e.route < |c.routes| && s'.failures == s.failures + [c.routes[e.route] + ": " + e.failure]
      && (s'.phase.Failed? ==>
          actions == [Exhausted(s.attempted, "Delivery retries exhausted for device " + c.target + ": "
                                             + Join(s'.failures))])
    else s'.failures == s.failures && !s'.phase.Failed?
  }

  /** Joined texts are separated by a semicolon and a space. */
  lemma {:induction false} JoinSnoc(parts: seq<string>, last: string)
    ensures Join(parts + [last]) == if parts == [] then last else Join(parts) + "; " + last
  {
    if |parts| > 1 {
      JoinSnoc(parts[1..], last);
      assert (parts + [last])[1..] == parts[1..] + [last];
    } else if |parts| == 1 {
      assert (parts + [last])[1..] == [last];
    }
  }

  lemma FailureReports(c: Config, t: Trace, e: Event)
    requires ValidConfig(c) && Inv(c, t) && Effective(c, t.state, e)
    ensures var (s', actions) := Step(c, t.state, e); Reports(c, t.state, e, s', actions)
  {
    if e.RouteResult? && !e.accepted {
      assert e.route in t.state.pending;
    }
  }

  lemma LaunchFlies(c: Config, s: State)
    requires s.nextRoute < |c.routes|
    ensures var (s', actions) := LaunchNext(c, s);
            s'.pending == s.pending + {s.nextRoute} && s'.phase == s.phase
  {
  }

  lemma AnswerHeard(c: Config, t: Trace, e: Event)
    requires ValidConfig(c) && Inv(c, t) && e.RouteResult? && Effective(c, t.state, e)
    ensures var (s', actions) := Step(c, t.state, e); Flies(c, t.state, e, s') && Ends(t.state, e, s', actions)
  {
    var s := t.state;
    if !e.accepted {
      var s1 := s.(pending := s.pending - {e.route}, failures := RouteFailures(c, s, e.route, e.failure));
      if s1.nextRoute < |c.routes| {
        LaunchFlies(c, s1);
      } else if s1.pending == {} {
        assert s.pending == {e.route};
      }
    }
  }

  lemma StartHeard(c: Config, t: Trace)
    requires ValidConfig(c) && Inv(c, t) && t.state.phase.Ready?
    ensures var (s', actions) := Step(c, t.state, Start); s'.pending == {0} && s'.phase.Running?
  {
    LaunchFlies(c, t.state.(phase := Running));
  }

  lemma RetryHeard(c: Config, t: Trace)
    requires ValidConfig(c) && Inv(c, t) && t.state.phase.WaitingRetry?
    ensures var (s', actions) := Step(c, t.state, RetryElapsed(t.state.round)); s'.pending == {0} && s'.phase.Running?
  {
    LaunchFlies(c, Retried(t.state));
  }

  lemma FallbackHeard(c: Config, t: Trace, e: Event)
    requires ValidConfig(c) && Inv(c, t) && e.FallbackElapsed? && Effective(c, t.state, e)
    ensures var (s', actions) := Step(c, t.state, e); Flies(c, t.state, e, s') && s'.phase.Running?
  {
    if t.state.nextRoute < |c.routes| { LaunchFlies(c, t.state.(fallbackArmed := false)); }
  }

  lemma ClockHeard(c: Config, t: Trace, e: Event)
    requires ValidConfig(c) && Inv(c, t) && !e.RouteResult? && Effective(c, t.state, e)
    ensures var (s', actions) := Step(c, t.state, e); Flies(c, t.state, e, s') && Ends(t.state, e, s', actions)
  {
    match e
    case Start => StartHeard(c, t);
    case RetryElapsed(_) => RetryHeard(c, t);
    case FallbackElapsed(_) => FallbackHeard(c, t, e);
    case Abort =>
  }

  /**
   In every run, a heard failure or fallback launches the next route at once if there is one, a retry starts
   over, and the delivery ends on the first accepted answer, on an abort, or when the last route in flight fails.
   */
  lemma HeardExactly(c: Config, events: seq<Event>, e: Event)
    requires ValidConfig(c) && Effective(c, Run(c, events).state, e)
    ensures var s := Run(c, events).state;
            var (s', actions) := Step(c, s, e);
            Flies(c, s, e, s') && Ends(s, e, s', actions) && Reports(c, s, e, s', actions)
  {
    RunKeeps(c, events);
    FailureReports(c, Run(c, events), e);
    if e.RouteResult? { AnswerHeard(c, Run(c, events), e); } else { ClockHeard(c, Run(c, events), e); }
  }
}
