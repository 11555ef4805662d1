/**
 How often one report is heard. Runs are built round by round up to and past the last number that the
 round counter can tell, and the reports of timers that are heard more than once are characterized.
 */
module DeliveryRounds {
  import opened Finite
  import opened Delivery

  // ----- Continued runs -----

  function RunFrom(c: Config, t: Trace, events: seq<Event>): Trace {
    if events == [] then t else Advance(c, RunFrom(c, t, events[..|events| - 1]), events[|events| - 1])
  }

  lemma {:induction false} RunConcat(c: Config, p: seq<Event>, s: seq<Event>)
    ensures Run(c, p + s) == RunFrom(c, Run(c, p), s)
  {
    if s == [] {
      assert p + s == p;
    } else {
      RunConcat(c, p, s[..|s| - 1]);
      assert (p + s)[..|p + s| - 1] == p + s[..|s| - 1];
    }
  }

  /** Some events lead from one trace to the other. */
  ghost predicate Leads(c: Config, t: Trace, t': Trace) {
    exists events :: RunFrom(c, t, events) == t'
  }

  ghost predicate Reached(c: Config, t: Trace) {
    exists events :: Run(c, events) == t
  }

  lemma LeadsSelf(c: Config, t: Trace)
    ensures Leads(c, t, t)
  {
    assert RunFrom(c, t, []) == t;
  }

  lemma LeadsOn(c: Config, t: Trace, t': Trace, e: Event)
    requires Leads(c, t, t')
    ensures Leads(c, t, Advance(c, t', e))
  {
    var events :| RunFrom(c, t, events) == t';
    assert (events + [e])[..|events|] == events;
    assert RunFrom(c, t, events + [e]) == Advance(c, t', e);
  }

  lemma {:induction false} LeadsKeeps(c: Config, t: Trace, events: seq<Event>)
    requires ValidConfig(c) && Inv(c, t)
    ensures Inv(c, RunFrom(c, t, events))
  {
    if events != [] {
      LeadsKeeps(c, t, events[..|events| - 1]);
      StepKeeps(c, RunFrom(c, t, events[..|events| - 1]), events[|events| - 1]);
    }
  }

  // ----- Rounds in which every route fails -----

  /** From `t` the run has come to `t'`, in the same or a later round, and has forgotten nothing. */
  ghost predicate Comes(c: Config, t: Trace, t': Trace) {
    Leads(c, t, t') && Inv(c, t') && t.log <= t'.log
  }

  /** In its `n`-th round, with the route `j` alone in flight and the routes before it failed. */
  predicate AtRoute(c: Config, t: Trace, n: nat, j: nat) {
    t.state.phase.Running? && t.retries == n && j < |c.routes| && t.state.pending == {j} && t.state.nextRoute == j + 1
  }

  predicate Waits(t: Trace, n: nat) {
    t.state.phase.WaitingRetry? && t.retries == n
  }

  /** At the start of its `n`-th round. */
  predicate InRound(c: Config, t: Trace, n: nat) {
    && AtRoute(c, t, n, 0) && (t.state.fallbackArmed <==> |c.routes| > 1)
    && Entry(n, LaunchRoute(Capped(n), 0)) in t.log
  }

  lemma RouteFails(c: Config, t: Trace, n: nat, j: nat)
    requires ValidConfig(c) && Inv(c, t) && AtRoute(c, t, n, j) && n < |c.retryDelays|
    ensures var t' := Advance(c, t, RouteResult(Capped(n), j, false, ""));
            && Inv(c, t') && t.log <= t'.log
            && if j + 1 < |c.routes| then AtRoute(c, t', n, j + 1) else Waits(t', n)
  {
    ResultKeeps(c, t, RouteResult(Capped(n), j, false, ""));
    assert t.state.pending - {j} == {};
  }

  lemma {:induction false} RoutesFail(c: Config, t: Trace, now: Trace, n: nat, j: nat) returns (t': Trace)
    requires ValidConfig(c) && Comes(c, t, now) && AtRoute(c, now, n, j) && n < |c.retryDelays|
    ensures Comes(c, t, t') && Waits(t', n)
    decreases |c.routes| - j
  {
    var e := RouteResult(Capped(n), j, false, "");
    RouteFails(c, now, n, j);
    LeadsOn(c, t, now, e);
    t' := Advance(c, now, e);
    if j + 1 < |c.routes| {
      t' := RoutesFail(c, t, t', n, j + 1);
    }
  }

  lemma RetryStarts(c: Config, t: Trace, now: Trace, n: nat) returns (t': Trace)
    requires ValidConfig(c) && Comes(c, t, now) && Waits(now, n)
    ensures Comes(c, t, t') && InRound(c, t', n + 1) && t' == Advance(c, now, RetryElapsed(Capped(n)))
  {
    var e := RetryElapsed(Capped(n));
    RetryBegins(c, now, n);
    LeadsOn(c, t, now, e);
    t' := Advance(c, now, e);
  }

  lemma RetryBegins(c: Config, t: Trace, n: nat)
    requires ValidConfig(c) && Inv(c, t) && Waits(t, n)
    ensures var t' := Advance(c, t, RetryElapsed(Capped(n)));
            Inv(c, t') && InRound(c, t', n + 1) && t.log <= t'.log
  {
    var t' := Advance(c, t, RetryElapsed(Capped(n)));
    RetryKeeps(c, t, RetryElapsed(Capped(n)));
    assert t'.log[|t.log|] == Entry(n + 1, LaunchRoute(Capped(n + 1), 0));
  }

  lemma FirstRound(c: Config) returns (t: Trace)
    requires ValidConfig(c)
    ensures Reached(c, t) && Inv(c, t) && InRound(c, t, 0)
  {
    assert [Start][..0] == [];
    t := Run(c, [Start]);
    RunKeeps(c, [Start]);
    assert t == Advance(c, Run(c, []), Start);
    assert t.log[0] == Entry(0, LaunchRoute(0, 0));
  }

  lemma LeadsReached(c: Config, t: Trace, t': Trace)
    requires Reached(c, t) && Leads(c, t, t')
    ensures Reached(c, t')
  {
    var p :| Run(c, p) == t;
    var s :| RunFrom(c, t, s) == t';
    RunConcat(c, p, s);
  }

  ghost predicate RoundReached(c: Config, n: nat) {
    exists t :: Reached(c, t) && Inv(c, t) && InRound(c, t, n)
  }

  lemma RoundAfter(c: Config, n: nat)
    requires ValidConfig(c) && n < |c.retryDelays| && RoundReached(c, n)
    ensures RoundReached(c, n + 1)
  {
    var t :| Reached(c, t) && Inv(c, t) && InRound(c, t, n);
    LeadsSelf(c, t);
    var waiting := RoutesFail(c, t, t, n, 0);
    var t' := RetryStarts(c, t, waiting, n);
    LeadsReached(c, t, t');
  }

  /** Every round that the retries allow is reached, whatever the number of routes. */
  lemma RoundsReach(c: Config, n: nat) returns (t: Trace)
    requires ValidConfig(c) && n <= |c.retryDelays|
    ensures Reached(c, t) && Inv(c, t) && InRound(c, t, n)
  {
    var holds := (i: nat) => RoundReached(c, i);
    var first := FirstRound(c);
    assert holds(0);
    forall i: nat | i < n && holds(i) ensures holds(i + 1) { RoundAfter(c, i); }
    Climb(holds, n);
    assert RoundReached(c, n);
    t :| Reached(c, t) && Inv(c, t) && InRound(c, t, n);
  }

  /** A run long enough to saturate the counter hears the answer to a launch of the round before. */
  lemma SaturatedAnswerHeard(c: Config) returns (events: seq<Event>, k: nat)
    requires ValidConfig(c) && |c.retryDelays| > MAX_ROUND
    ensures var t := Run(c, events);
            && t.retries == MAX_ROUND + 1 && k < |t.log| && t.log[k] == Entry(MAX_ROUND, LaunchRoute(MAX_ROUND, 0))
            && Effective(c, t.state, RouteResult(MAX_ROUND, 0, true, ""))
  {
    var t := RoundsReach(c, MAX_ROUND);
    LeadsSelf(c, t);
    var waiting := RoutesFail(c, t, t, MAX_ROUND, 0);
    var t' := RetryStarts(c, t, waiting, MAX_ROUND);
    LeadsReached(c, t, t');
    events :| Run(c, events) == t';
    k :| k < |t.log| && t.log[k] == Entry(MAX_ROUND, LaunchRoute(MAX_ROUND, 0));
    ResultKeeps(c, t', RouteResult(MAX_ROUND, 0, true, ""));
  }

  // ----- A report that is heard once -----

  /** No run hears this report a second time. */
  ghost predicate HeardOnce(c: Config, e: Event) {
    forall p, s :: Effective(c, Run(c, p).state, e) ==> !Effective(c, Run(c, p + [e] + s).state, e)
  }

  /** The round `x` is over, or all its routes are launched and its fallback timer is heard. */
  ghost predicate FallbackSpent(c: Config, t: Trace, x: nat) {
    t.retries > x || (t.retries == x && t.state.nextRoute == |c.routes| && !t.state.fallbackArmed)
  }

  lemma HeardSpends(c: Config, t: Trace, e: Event)
    requires ValidConfig(c) && Inv(c, t) && |c.routes| <= 2 && e.FallbackElapsed? && Effective(c, t.state, e)
    ensures FallbackSpent(c, Advance(c, t, e), t.retries)
  {
  }

  lemma SpentStays(c: Config, t: Trace, x: nat, e: Event)
    requires ValidConfig(c) && Inv(c, t) && FallbackSpent(c, t, x)
    ensures FallbackSpent(c, Advance(c, t, e), x)
  {
  }

  lemma {:induction false} SpentForever(c: Config, t: Trace, x: nat, events: seq<Event>)
    requires ValidConfig(c) && Inv(c, t) && FallbackSpent(c, t, x)
    ensures FallbackSpent(c, RunFrom(c, t, events), x)
  {
    if events != [] {
      var before := events[..|events| - 1];
      SpentForever(c, t, x, before);
      LeadsKeeps(c, t, before);
      SpentStays(c, RunFrom(c, t, before), x, events[|events| - 1]);
    }
  }

  lemma SpentIgnored(c: Config, t: Trace, x: nat, e: Event)
    requires ValidConfig(c) && Inv(c, t) && FallbackSpent(c, t, x) && |c.retryDelays| <= MAX_ROUND
    requires e.FallbackElapsed? && e.round == Capped(x)
    ensures !Effective(c, t.state, e)
  {
  }

  /** With at most two routes and rounds that the counter can tell apart, no fallback report is heard twice. */
  lemma FallbackHeardOnce(c: Config, e: Event)
    requires ValidConfig(c) && |c.routes| <= 2 && |c.retryDelays| <= MAX_ROUND && e.FallbackElapsed?
    ensures HeardOnce(c, e)
  {
    forall p, s | Effective(c, Run(c, p).state, e) ensures !Effective(c, Run(c, p + [e] + s).state, e) {
      var t := Run(c, p);
      RunKeeps(c, p);
      HeardSpends(c, t, e);
      StepKeeps(c, t, e);
      RunSnoc(c, p, e);
      SpentForever(c, Advance(c, t, e), t.retries, s);
      LeadsKeeps(c, Advance(c, t, e), s);
      RunConcat(c, p + [e], s);
      SpentIgnored(c, Run(c, p + [e] + s), t.retries, e);
    }
  }

  lemma HeardTwice(c: Config, e: Event, t: Trace, t': Trace)
    requires Reached(c, t) && Effective(c, t.state, e) && Leads(c, Advance(c, t, e), t') && Effective(c, t'.state, e)
    ensures !HeardOnce(c, e)
  {
    var p :| Run(c, p) == t;
    var s :| RunFrom(c, Advance(c, t, e), s) == t';
    RunSnoc(c, p, e);
    RunConcat(c, p + [e], s);
  }

  /** A run past the last round that the counter can tell, with two routes, hears one fallback report twice. */
  lemma SaturatedFallbackHeard(c: Config)
    requires ValidConfig(c) && |c.routes| == 2 && |c.retryDelays| > MAX_ROUND
    ensures !HeardOnce(c, FallbackElapsed(MAX_ROUND))
  {
    var e, fail := FallbackElapsed(MAX_ROUND), RouteResult(MAX_ROUND, 0, false, "");
    var t := RoundsReach(c, MAX_ROUND);
    var t1 := Advance(c, t, e);
    BothInFlight(c, t);
    LeadsSelf(c, t1);
    LeadsOn(c, t1, t1, fail);
    var waiting := RoutesFail(c, t1, Advance(c, t1, fail), MAX_ROUND, 1);
    var t2 := RetryStarts(c, t1, waiting, MAX_ROUND);
    HeardTwice(c, e, t, t2);
  }

  /** The fallback launches the second of two routes; when the first fails, the second is alone in flight. */
  lemma BothInFlight(c: Config, t: Trace)
    requires ValidConfig(c) && |c.routes| == 2 && Inv(c, t) && InRound(c, t, MAX_ROUND) && |c.retryDelays| > MAX_ROUND
    ensures Effective(c, t.state, FallbackElapsed(MAX_ROUND))
    ensures var t1 := Advance(c, t, FallbackElapsed(MAX_ROUND));
            var t2 := Advance(c, t1, RouteResult(MAX_ROUND, 0, false, ""));
            Inv(c, t2) && AtRoute(c, t2, MAX_ROUND, 1) && t1.log <= t2.log
  {
    var t1 := Advance(c, t, FallbackElapsed(MAX_ROUND));
    StepKeeps(c, t, FallbackElapsed(MAX_ROUND));
    assert t1.state.pending == {0, 1} && t1.state.nextRoute == 2;
    ResultKeeps(c, t1, RouteResult(MAX_ROUND, 0, false, ""));
    assert {0, 1} - {0} == {1};
  }

  /** With a third route the first fallback report is heard twice at once. */
  lemma ThirdRouteHeard(c: Config)
    requires ValidConfig(c) && |c.routes| >= 3
    ensures !HeardOnce(c, FallbackElapsed(0))
  {
    var e := FallbackElapsed(0);
    var t := FirstRound(c);
    LeadsSelf(c, Advance(c, t, e));
    HeardTwice(c, e, t, Advance(c, t, e));
  }

  /**
   Every fallback report is heard at most once, in all runs, if and only if there is one route, or there are two
   and the counter can tell all rounds apart.
   */
  lemma FallbackHeardOnceExactly(c: Config)
    requires ValidConfig(c)
    ensures (forall e: Event :: e.FallbackElapsed? ==> HeardOnce(c, e)) <==>
            |c.routes| == 1 || (|c.routes| == 2 && |c.retryDelays| <= MAX_ROUND)
  {
    if |c.routes| >= 3 {
      ThirdRouteHeard(c);
    } else if |c.routes| == 2 && |c.retryDelays| > MAX_ROUND {
      SaturatedFallbackHeard(c);
    } else {
      forall e: Event | e.FallbackElapsed? ensures HeardOnce(c, e) {
        if |c.routes| == 1 { OneRouteHeard(c, e); } else { FallbackHeardOnce(c, e); }
      }
    }
  }

  /** With one route no fallback timer is ever armed. */
  lemma OneRouteHeard(c: Config, e: Event)
    requires ValidConfig(c) && |c.routes| == 1 && e.FallbackElapsed?
    ensures HeardOnce(c, e)
  {
    forall p ensures !Effective(c, Run(c, p).state, e) { NeverArmed(c, p); }
  }

  lemma {:induction false} NeverArmed(c: Config, events: seq<Event>)
    requires ValidConfig(c) && |c.routes| == 1
    ensures !Run(c, events).state.fallbackArmed
  {
    if events != [] {
      NeverArmed(c, events[..|events| - 1]);
    }
  }

  // ----- The retry timer -----

  lemma {:induction false} RetriesGrow(c: Config, t: Trace, events: seq<Event>)
    ensures RunFrom(c, t, events).retries >= t.retries
  {
    if events != [] {
      RetriesGrow(c, t, events[..|events| - 1]);
    }
  }

  lemma RetryIgnored(c: Config, t: Trace, x: nat, e: Event)
    requires ValidConfig(c) && Inv(c, t) && t.retries > x && |c.retryDelays| <= MAX_ROUND + 1
    requires e.RetryElapsed? && e.round == Capped(x)
    ensures !Effective(c, t.state, e)
  {
  }

  lemma RetryHeardOnce(c: Config, e: Event)
    requires ValidConfig(c) && |c.retryDelays| <= MAX_ROUND + 1 && e.RetryElapsed?
    ensures HeardOnce(c, e)
  {
    forall p, s | Effective(c, Run(c, p).state, e) ensures !Effective(c, Run(c, p + [e] + s).state, e) {
      var t := Run(c, p);
      RunKeeps(c, p);
      StepKeeps(c, t, e);
      RunSnoc(c, p, e);
      RetriesGrow(c, Advance(c, t, e), s);
      LeadsKeeps(c, Advance(c, t, e), s);
      RunConcat(c, p + [e], s);
      RetryIgnored(c, Run(c, p + [e] + s), t.retries, e);
    }
  }

  lemma SaturatedRetryHeard(c: Config)
    requires ValidConfig(c) && |c.retryDelays| > MAX_ROUND + 1
    ensures !HeardOnce(c, RetryElapsed(MAX_ROUND))
  {
    var e := RetryElapsed(MAX_ROUND);
    var t0 := RoundsReach(c, MAX_ROUND);
    LeadsSelf(c, t0);
    var t := RoutesFail(c, t0, t0, MAX_ROUND, 0);
    LeadsReached(c, t0, t);
    RetryKeeps(c, t, e);
    LeadsSelf(c, t);
    var t1 := RetryStarts(c, t, t, MAX_ROUND);
    LeadsSelf(c, t1);
    var t2 := RoutesFail(c, t1, t1, MAX_ROUND + 1, 0);
    RetryKeeps(c, t2, e);
    HeardTwice(c, e, t, t2);
  }

  /** Every retry report is heard at most once if and only if the counter can tell apart the rounds that await one. */
  lemma RetryHeardOnceExactly(c: Config)
    requires ValidConfig(c)
    ensures (forall e: Event :: e.RetryElapsed? ==> HeardOnce(c, e)) <==> |c.retryDelays| <= MAX_ROUND + 1
  {
    if |c.retryDelays| > MAX_ROUND + 1 {
      SaturatedRetryHeard(c);
    } else {
      forall e: Event | e.RetryElapsed? ensures HeardOnce(c, e) { RetryHeardOnce(c, e); }
    }
  }

  // ----- Answers -----

  /** The round `x` is over, or its launch of the route is answered. */
  ghost predicate AnswerSpent(t: Trace, x: nat, route: nat) {
    t.retries > x || (t.retries == x && route < t.state.nextRoute && route !in t.state.pending)
  }

  lemma AnswerSpends(c: Config, t: Trace, e: Event)
    requires ValidConfig(c) && Inv(c, t) && e.RouteResult? && Effective(c, t.state, e)
    ensures AnswerSpent(Advance(c, t, e), t.retries, e.route)
  {
  }

  /** A step other than a retry launches only routes that were not launched in this round. */
  lemma NotLaunchedAgain(c: Config, s: State, route: nat, e: Event)
    requires route < s.nextRoute && route !in s.pending && !s.phase.Ready? && !e.RetryElapsed?
    ensures var s' := Step(c, s, e).0; route < s'.nextRoute && route !in s'.pending
  {
  }

  lemma AnswerStays(c: Config, t: Trace, x: nat, route: nat, e: Event)
    requires ValidConfig(c) && Inv(c, t) && AnswerSpent(t, x, route)
    ensures AnswerSpent(Advance(c, t, e), x, route)
  {
    if t.retries == x && !e.RetryElapsed? { NotLaunchedAgain(c, t.state, route, e); }
  }

  lemma {:induction false} AnswerForever(c: Config, t: Trace, x: nat, route: nat, events: seq<Event>)
    requires ValidConfig(c) && Inv(c, t) && AnswerSpent(t, x, route)
    ensures AnswerSpent(RunFrom(c, t, events), x, route)
  {
    if events != [] {
      var before := events[..|events| - 1];
      AnswerForever(c, t, x, route, before);
      LeadsKeeps(c, t, before);
      AnswerStays(c, RunFrom(c, t, before), x, route, events[|events| - 1]);
    }
  }

  lemma AnswerIgnored(c: Config, t: Trace, x: nat, e: Event)
    requires ValidConfig(c) && Inv(c, t) && e.RouteResult? && e.round == Capped(x) && AnswerSpent(t, x, e.route)
    requires |c.retryDelays| <= MAX_ROUND
    ensures !Effective(c, t.state, e)
  {
  }

  lemma AnswerHeardOnce(c: Config, e: Event)
    requires ValidConfig(c) && |c.retryDelays| <= MAX_ROUND && e.RouteResult?
    ensures HeardOnce(c, e)
  {
    forall p, s | Effective(c, Run(c, p).state, e) ensures !Effective(c, Run(c, p + [e] + s).state, e) {
      var t := Run(c, p);
      RunKeeps(c, p);
      AnswerSpends(c, t, e);
      StepKeeps(c, t, e);
      RunSnoc(c, p, e);
      AnswerForever(c, Advance(c, t, e), t.retries, e.route, s);
      LeadsKeeps(c, Advance(c, t, e), s);
      RunConcat(c, p + [e], s);
      AnswerIgnored(c, Run(c, p + [e] + s), t.retries, e);
    }
  }

  lemma SaturatedAnswerRepeats(c: Config)
    requires ValidConfig(c) && |c.retryDelays| > MAX_ROUND
    ensures !HeardOnce(c, RouteResult(MAX_ROUND, 0, false, ""))
  {
    var e := RouteResult(MAX_ROUND, 0, false, "");
    var t := RoundsReach(c, MAX_ROUND);
    RouteFails(c, t, MAX_ROUND, 0);
    ResultKeeps(c, t, e);
    var t1 := Advance(c, t, e);
    LeadsSelf(c, t1);
    var waiting := t1;
    if |c.routes| > 1 { waiting := RoutesFail(c, t1, t1, MAX_ROUND, 1); }
    var t2 := RetryStarts(c, t1, waiting, MAX_ROUND);
    ResultKeeps(c, t2, e);
    HeardTwice(c, e, t, t2);
  }

  /** Every answer is heard at most once, in all runs, if and only if the counter can tell all rounds apart. */
  lemma AnswerHeardOnceExactly(c: Config)
    requires ValidConfig(c)
    ensures (forall e: Event :: e.RouteResult? ==> HeardOnce(c, e)) <==> |c.retryDelays| <= MAX_ROUND
  {
    if |c.retryDelays| > MAX_ROUND {
      SaturatedAnswerRepeats(c);
    } else {
      forall e: Event | e.RouteResult? ensures HeardOnce(c, e) { AnswerHeardOnce(c, e); }
    }
  }
}
