/**
 Durable delivery of one batch over several routes, with a fallback timer and retry rounds. Hosts
 report timers and results, possibly late or twice. The flow object is proved against a step
 function, and the step function against invariants of every run.
 */
module Delivery {
  import opened Wrappers

  const MAX_ROUND: nat := 0xFFFF_FFFF
  const WORD: nat := 0x1_0000_0000

  datatype Delay = Millis(value: real) | NotFinite

  datatype Config = Config(target: string, routes: seq<string>, fallbackDelay: Delay, retryDelays: seq<Delay>)

  datatype Phase = Ready | Running | WaitingRetry | Complete | Failed | Aborted

  datatype State = State(phase: Phase, round: nat, retryIndex: nat, nextRoute: nat, pending: set<nat>,
                         fallbackArmed: bool, attempted: seq<string>, failures: seq<string>)

  datatype Action =
    | LaunchRoute(round: nat, route: nat)
    | ArmFallback(round: nat, delay: Delay)
    | ArmRetry(round: nat, delay: Delay)
    | CancelOtherRoutes(round: nat, route: nat)
    | CancelAllRoutes(round: nat)
    | Completed(round: nat, route: nat, attempted: seq<string>)
    | Exhausted(attempted: seq<string>, message: string)
    | AbortedDelivery

  datatype Event =
    | Start
    | RouteResult(round: nat, route: nat, accepted: bool, failure: string)
    | FallbackElapsed(round: nat)
    | RetryElapsed(round: nat)
    | Abort

  datatype DeliveryError = InvalidRoutes | InvalidDelay | AlreadyStarted

  predicate ValidDelay(d: Delay) {
    d.Millis? && d.value >= 0.0
  }

  predicate ValidConfig(c: Config) {
    && c.target != "" && c.routes != [] && (forall r :: r in c.routes ==> r != "")
    && ValidDelay(c.fallbackDelay) && (forall d :: d in c.retryDelays ==> ValidDelay(d))
  }

  predicate Terminal(p: Phase) {
    p.Complete? || p.Failed? || p.Aborted?
  }

  function Join(parts: seq<string>): string {
    if parts == [] then "" else if |parts| == 1 then parts[0] else parts[0] + "; " + Join(parts[1..])
  }

  // ----- The step function -----

  const INITIAL := State(Ready, 0, 0, 0, {}, false, [], [])

  function FinishRound(c: Config, s: State): (State, seq<Action>) {
    if s.pending != {} then (s, [])
    else if s.retryIndex < |c.retryDelays| then
      (s.(retryIndex := s.retryIndex + 1, phase := WaitingRetry), [ArmRetry(s.round, c.retryDelays[s.retryIndex])])
    else
      var details := if s.failures == [] then "all routes failed" else Join(s.failures);
      (s.(phase := Failed),
       [Exhausted(s.attempted, "Delivery retries exhausted for device " + c.target + ": " + details)])
  }

  function LaunchNext(c: Config, s: State): (State, seq<Action>) {
    if s.nextRoute >= |c.routes| then FinishRound(c, s)
    else
      var i := s.nextRoute;
      var launch := LaunchRoute(s.round, i % WORD);
      var s' := s.(nextRoute := i + 1, pending := s.pending + {i}, attempted := s.attempted + [c.routes[i]]);
      if i + 1 < |c.routes| && !s.fallbackArmed then
        (s'.(fallbackArmed := true), [launch, ArmFallback(s.round, c.fallbackDelay)])
      else (s', [launch])
  }

  function RouteFailures(c: Config, s: State, route: nat, failure: string): seq<string> {
    s.failures + [(if route < |c.routes| then c.routes[route] else "unknown route") + ": " + failure]
  }

  function RouteFailed(c: Config, s: State, route: nat, failure: string): (State, seq<Action>) {
    var s' := s.(pending := s.pending - {route}, failures := RouteFailures(c, s, route, failure));
    if s'.nextRoute < |c.routes| then LaunchNext(c, s')
    else if s'.pending == {} then FinishRound(c, s')
    else (s', [])
  }

  function Retried(s: State): State {
    s.(round := if s.round < MAX_ROUND then s.round + 1 else MAX_ROUND, nextRoute := 0, pending := {},
       fallbackArmed := false, phase := Running)
  }

  function Step(c: Config, s: State, e: Event): (State, seq<Action>) {
    match e
    case Start => if s.phase.Ready? then LaunchNext(c, s.(phase := Running)) else (s, [])
    case RouteResult(round, route, accepted, failure) =>
      if !s.phase.Running? || round != s.round || route !in s.pending then (s, [])
      else if accepted then
        (s.(phase := Complete, pending := s.pending - {route}),
         [CancelOtherRoutes(round, route), Completed(round, route, s.attempted)])
      else RouteFailed(c, s, route, failure)
    case FallbackElapsed(round) =>
      if !s.phase.Running? || round != s.round || !s.fallbackArmed then (s, [])
      else
        var s' := s.(fallbackArmed := false);
        if s'.nextRoute < |c.routes| then LaunchNext(c, s') else (s', [])
    case RetryElapsed(round) =>
      if !s.phase.WaitingRetry? || round != s.round then (s, [])
      else LaunchNext(c, Retried(s))
    case Abort =>
      if Terminal(s.phase) then (s, []) else (s.(phase := Aborted), [CancelAllRoutes(s.round), AbortedDelivery])
  }

  // ----- The flow object -----

  class Flow {
    const config: Config
    var phase: Phase
    var round: nat
    var retryIndex: nat
    var nextRoute: nat
    var pending: set<nat>
    var fallbackArmed: bool
    var attempted: seq<string>
    var failures: seq<string>

    ghost function View(): State
      reads this
    {
      State(phase, round, retryIndex, nextRoute, pending, fallbackArmed, attempted, failures)
    }

    constructor (config: Config)
      requires ValidConfig(config)
      ensures this.config == config && View() == INITIAL
    {
      this.config := config;
      phase, round, retryIndex, nextRoute := Ready, 0, 0, 0;
      pending, fallbackArmed, attempted, failures := {}, false, [], [];
    }

    method Begin() returns (r: Result<seq<Action>, DeliveryError>)
      modifies this
      ensures r.Ok? <==> old(phase).Ready?
      ensures (View(), if r.Ok? then r.value else []) == Step(config, old(View()), Start)
    {
      if !phase.Ready? {
        return Err(AlreadyStarted);
      }
      phase := Running;
      var actions := LaunchRouteNext();
      r := Ok(actions);
    }

    method ReportResult(round: nat, route: nat, accepted: bool, failure: string) returns (actions: seq<Action>)
      modifies this
      ensures (View(), actions) == Step(config, old(View()), RouteResult(round, route, accepted, failure))
    {
      if !phase.Running? || round != this.round || route !in pending {
        return [];
      }
      pending := pending - {route};
      if accepted {
        phase := Complete;
        return [CancelOtherRoutes(round, route), Completed(round, route, attempted)];
      }
      var id := if route < |config.routes| then config.routes[route] else "unknown route";
      failures := failures + [id + ": " + failure];
      actions := [];
      if nextRoute < |config.routes| {
        actions := LaunchRouteNext();
      } else if pending == {} {
        actions := EndRound();
      }
    }

    method ReportFallback(round: nat) returns (actions: seq<Action>)
      modifies this
      ensures (View(), actions) == Step(config, old(View()), FallbackElapsed(round))
    {
      if !phase.Running? || round != this.round || !fallbackArmed {
        return [];
      }
      fallbackArmed := false;
      actions := [];
      if nextRoute < |config.routes| {
        actions := LaunchRouteNext();
      }
    }

    method ReportRetry(round: nat) returns (actions: seq<Action>)
      modifies this
      ensures (View(), actions) == Step(config, old(View()), RetryElapsed(round))
    {
      if !phase.WaitingRetry? || round != this.round {
        return [];
      }
      this.round := if this.round < MAX_ROUND then this.round + 1 else MAX_ROUND;
      nextRoute, pending, fallbackArmed, phase := 0, {}, false, Running;
      actions := LaunchRouteNext();
    }

    method Cancel() returns (actions: seq<Action>)
      modifies this
      ensures (View(), actions) == Step(config, old(View()), Abort)
    {
      if phase.Complete? || phase.Failed? || phase.Aborted? {
        return [];
      }
      phase := Aborted;
      actions := [CancelAllRoutes(round), AbortedDelivery];
    }

    method LaunchRouteNext() returns (actions: seq<Action>)
      modifies this
      ensures (View(), actions) == LaunchNext(config, old(View()))
    {
      if nextRoute >= |config.routes| {
        actions := EndRound();
        return;
      }
      var i := nextRoute;
      nextRoute := nextRoute + 1;
      pending := pending + {i};
      attempted := attempted + [config.routes[i]];
      actions := [LaunchRoute(round, i % WORD)];
      if nextRoute < |config.routes| && !fallbackArmed {
        fallbackArmed := true;
        actions := [actions[0], ArmFallback(round, config.fallbackDelay)];
      }
    }

    method EndRound() returns (actions: seq<Action>)
      modifies this
      ensures (View(), actions) == FinishRound(config, old(View()))
    {
      if pending != {} {
        return [];
      }
      if retryIndex < |config.retryDelays| {
        var delay := config.retryDelays[retryIndex];
        retryIndex := retryIndex + 1;
        phase := WaitingRetry;
        return [ArmRetry(round, delay)];
      }
      phase := Failed;
      var details := if failures == [] then "all routes failed" else Join(failures);
      actions := [Exhausted(attempted, "Delivery retries exhausted for device " + config.target + ": " + details)];
    }
  }

  /** Checks the configuration before a flow is made. */
  method New(config: Config) returns (r: Result<Flow, DeliveryError>)
    ensures r.Ok? <==> ValidConfig(config)
    ensures r.Ok? ==> fresh(r.value) && r.value.config == config && r.value.View() == INITIAL
  {
    if config.target == "" || config.routes == [] || exists id :: id in config.routes && id == "" {
      return Err(InvalidRoutes);
    }
    if !ValidDelay(config.fallbackDelay) || exists d :: d in config.retryDelays && !ValidDelay(d) {
      return Err(InvalidDelay);
    }
    var flow := new Flow(config);
    r := Ok(flow);
  }

  // ----- Runs -----

  datatype Entry = Entry(retries: nat, action: Action)

  /**
   A run so far: the state, every action with the number of retries made by then, the answered launches and
   heard timers.
   */
  datatype Trace = Trace(state: State, retries: nat, fallbacks: nat, log: seq<Entry>, answered: set<(nat, nat)>,
                         effects: nat)

  function Tag(retries: nat, actions: seq<Action>): seq<Entry> {
    seq(|actions|, i requires 0 <= i < |actions| => Entry(retries, actions[i]))
  }

  predicate Effective(c: Config, s: State, e: Event) {
    Step(c, s, e).0 != s
  }

  function HeardFallback(c: Config, s: State, e: Event): nat {
    if e.FallbackElapsed? && Effective(c, s, e) then 1 else 0
  }

  function Advance(c: Config, t: Trace, e: Event): Trace {
    var (s', actions) := Step(c, t.state, e);
    var retries := if e.RetryElapsed? && Effective(c, t.state, e) then t.retries + 1 else t.retries;
    var answered := if e.RouteResult? && Effective(c, t.state, e)
      then t.answered + {(t.retries, e.route)} else t.answered;
    Trace(s', retries, t.fallbacks + HeardFallback(c, t.state, e), t.log + Tag(retries, actions), answered,
          t.effects + if Effective(c, t.state, e) then 1 else 0)
  }

  function Run(c: Config, events: seq<Event>): Trace {
    if events == [] then Trace(INITIAL, 0, 0, [], {}, 0)
    else Advance(c, Run(c, events[..|events| - 1]), events[|events| - 1])
  }

  function Laps(routes: seq<string>, n: nat): seq<string> {
    if n == 0 then [] else Laps(routes, n - 1) + routes
  }

  function Capped(retries: nat): nat {
    if retries < MAX_ROUND then retries else MAX_ROUND
  }

  ghost predicate Accounted(c: Config, t: Trace) {
    var s := t.state;
    && s.round == Capped(t.retries)
    && s.nextRoute <= |c.routes|
    && s.attempted == Laps(c.routes, t.retries) + c.routes[..s.nextRoute]
    && |s.failures| + |s.pending| + (if s.phase.Complete? then 1 else 0) == |s.attempted|
    && (forall i :: i in s.pending ==> i < s.nextRoute) && |s.pending| <= s.nextRoute
    && (forall i :: i in s.pending ==> (t.retries, i) !in t.answered)
    && (forall a :: a in t.answered ==> a.0 < t.retries || (a.0 == t.retries && a.1 < s.nextRoute))
  }

  ghost predicate Phased(c: Config, t: Trace) {
    var s := t.state;
    && (s.phase.Ready? ==> s == INITIAL && t.retries == 0)
    && (s.phase.Running? ==>
        s.pending != {} && (s.nextRoute < |c.routes| ==> s.fallbackArmed) && s.retryIndex == t.retries)
    && (s.phase.WaitingRetry? || s.phase.Failed? ==> s.pending == {} && s.nextRoute == |c.routes|)
    && (s.phase.WaitingRetry? ==> s.retryIndex == t.retries + 1)
    && (s.phase.Failed? ==> t.retries == |c.retryDelays|)
    && t.retries <= s.retryIndex <= |c.retryDelays|
  }

  ghost predicate Inv(c: Config, t: Trace) {
    Accounted(c, t) && Phased(c, t)
  }

  // ----- Every step keeps the invariant -----

  lemma LaunchAccounted(c: Config, t: Trace, t': Trace)
    requires Accounted(c, t) && t.state.nextRoute < |c.routes| && !t.state.phase.Complete?
    requires t' == t.(state := LaunchNext(c, t.state).0)
    ensures Accounted(c, t') && t'.state.pending != {} && t'.state.retryIndex == t.state.retryIndex
    ensures t'.state.nextRoute < |c.routes| ==> t'.state.fallbackArmed
    ensures t'.state.phase == t.state.phase
  {
    var i := t.state.nextRoute;
    assert i !in t.state.pending;
    assert c.routes[..i + 1] == c.routes[..i] + [c.routes[i]];
    assert i in t'.state.pending;
  }

  lemma FinishAccounted(c: Config, t: Trace, t': Trace)
    requires Accounted(c, t) && t.state.phase.Running? && t.state.nextRoute == |c.routes| && t.state.pending == {}
    requires t.state.retryIndex == t.retries <= |c.retryDelays| && t' == t.(state := FinishRound(c, t.state).0)
    ensures Inv(c, t')
  {
  }

  /** The trace after an effective route result, before any launch or end of round that it causes. */
  ghost function Answer(c: Config, t: Trace, route: nat, failures: seq<string>, phase: Phase): Trace {
    t.(state := t.state.(pending := t.state.pending - {route}, failures := failures, phase := phase),
       answered := t.answered + {(t.retries, route)})
  }

  lemma AnswerAccounted(c: Config, t: Trace, route: nat, failures: seq<string>, phase: Phase)
    requires Accounted(c, t) && t.state.phase.Running? && route in t.state.pending
    requires (phase.Running? && |failures| == |t.state.failures| + 1)
             || (phase.Complete? && failures == t.state.failures)
    ensures Accounted(c, Answer(c, t, route, failures, phase))
  {
    assert |t.state.pending - {route}| == |t.state.pending| - 1;
    assert route < t.state.nextRoute;
  }

  lemma ResultKeeps(c: Config, t: Trace, e: Event)
    requires ValidConfig(c) && Inv(c, t) && e.RouteResult? && t.state.phase.Running? && e.round == t.state.round
             && e.route in t.state.pending
    ensures Effective(c, t.state, e) && Inv(c, Advance(c, t, e))
  {
    var s := t.state;
    if e.accepted {
      AnswerAccounted(c, t, e.route, s.failures, Complete);
    } else {
      var failures := RouteFailures(c, s, e.route, e.failure);
      AnswerAccounted(c, t, e.route, failures, Running);
      var t1 := Answer(c, t, e.route, failures, Running);
      if s.nextRoute < |c.routes| {
        var t2 := t1.(state := LaunchNext(c, t1.state).0);
        LaunchAccounted(c, t1, t2);
      } else if t1.state.pending == {} {
        var t2 := t1.(state := FinishRound(c, t1.state).0);
        FinishAccounted(c, t1, t2);
      }
    }
  }

  lemma RetryKeeps(c: Config, t: Trace, e: Event)
    requires ValidConfig(c) && Inv(c, t) && e.RetryElapsed? && t.state.phase.WaitingRetry? && e.round == t.state.round
    ensures Effective(c, t.state, e) && Inv(c, Advance(c, t, e))
  {
    var s := t.state;
    var t1 := t.(retries := t.retries + 1, state := Retried(s));
    assert c.routes[..|c.routes|] == c.routes && c.routes[..0] == [];
    assert Laps(c.routes, t.retries + 1) == Laps(c.routes, t.retries) + c.routes;
    assert t1.state.attempted == Laps(c.routes, t1.retries) + c.routes[..0];
    assert Accounted(c, t1);
    LaunchAccounted(c, t1, t1.(state := LaunchNext(c, t1.state).0));
  }

  lemma OtherKeeps(c: Config, t: Trace, e: Event)
    requires ValidConfig(c) && Inv(c, t) && (e.Start? || e.FallbackElapsed? || e.Abort?)
    ensures Inv(c, Advance(c, t, e))
  {
    var s := t.state;
    match e
    case Start =>
      if s.phase.Ready? {
        var t1 := t.(state := s.(phase := Running));
        LaunchAccounted(c, t1, t1.(state := LaunchNext(c, t1.state).0));
      }
    case FallbackElapsed(round) =>
      if s.phase.Running? && round == s.round && s.fallbackArmed && s.nextRoute < |c.routes| {
        var t1 := t.(state := s.(fallbackArmed := false));
        LaunchAccounted(c, t1, t1.(state := LaunchNext(c, t1.state).0));
      }
    case Abort =>
  }

  lemma StepKeeps(c: Config, t: Trace, e: Event)
    requires ValidConfig(c) && Inv(c, t)
    ensures Inv(c, Advance(c, t, e))
  {
    var s := t.state;
    if e.RouteResult? {
      if s.phase.Running? && e.round == s.round && e.route in s.pending { ResultKeeps(c, t, e); }
    } else if e.RetryElapsed? {
      if s.phase.WaitingRetry? && e.round == s.round { RetryKeeps(c, t, e); }
    } else {
      OtherKeeps(c, t, e);
    }
  }

  lemma RunSnoc(c: Config, events: seq<Event>, e: Event)
    ensures Run(c, events + [e]) == Advance(c, Run(c, events), e)
  {
    assert (events + [e])[..|events|] == events;
  }

  lemma {:induction false} RunKeeps(c: Config, events: seq<Event>)
    requires ValidConfig(c)
    ensures Inv(c, Run(c, events))
  {
    if events != [] {
      var before := events[..|events| - 1];
      RunKeeps(c, before);
      StepKeeps(c, Run(c, before), events[|events| - 1]);
    }
  }

  // ----- What is logged -----

  function Count(log: seq<Entry>, kind: Action -> bool): nat {
    if log == [] then 0 else Count(log[..|log| - 1], kind) + if kind(log[|log| - 1].action) then 1 else 0
  }

  predicate IsLaunch(a: Action) { a.LaunchRoute? }

  predicate IsArmFallback(a: Action) { a.ArmFallback? }

  predicate IsArmRetry(a: Action) { a.ArmRetry? }

  /** The last word to the host: delivered, given up or aborted. */
  predicate IsTerminal(a: Action) { a.Completed? || a.Exhausted? || a.AbortedDelivery? }

  predicate Stamped(a: Action, round: nat) {
    match a
    case LaunchRoute(r, _) => r == round
    case ArmFallback(r, _) => r == round
    case ArmRetry(r, _) => r == round
    case CancelOtherRoutes(r, _) => r == round
    case CancelAllRoutes(r) => r == round
    case Completed(r, _, _) => r == round
    case _ => true
  }

  lemma {:induction false} CountConcat(a: seq<Entry>, b: seq<Entry>, kind: Action -> bool)
    ensures Count(a + b, kind) == Count(a, kind) + Count(b, kind)
  {
    if b == [] {
      assert a + b == a;
    } else {
      CountConcat(a, b[..|b| - 1], kind);
      assert (a + b)[..|a + b| - 1] == a + b[..|b| - 1];
    }
  }

  function Tally(actions: seq<Action>, kind: Action -> bool): nat {
    (if |actions| > 0 && kind(actions[0]) then 1 else 0) + (if |actions| > 1 && kind(actions[1]) then 1 else 0)
  }

  lemma CountFew(retries: nat, actions: seq<Action>, kind: Action -> bool)
    requires |actions| <= 2
    ensures Count(Tag(retries, actions), kind) == Tally(actions, kind)
  {
    var log := Tag(retries, actions);
    if |actions| == 2 {
      var first := log[..1];
      assert first[..0] == [] && Count(first[..0], kind) == 0;
      assert Count(first, kind) == if kind(actions[0]) then 1 else 0;
      assert log[..|log| - 1] == first;
    } else if |actions| == 1 {
      assert log[..|log| - 1] == [];
    }
  }

  ghost predicate Logged(t: Trace) {
    && (forall e :: e in t.log ==> e.retries <= t.retries && Stamped(e.action, Capped(e.retries)))
    && Count(t.log, IsLaunch) == |t.state.attempted|
    && Count(t.log, IsTerminal) == (if Terminal(t.state.phase) then 1 else 0)
    && t.fallbacks + Armed(t.state) <= Count(t.log, IsArmFallback)
    && Count(t.log, IsArmRetry) == t.state.retryIndex
  }

  function Armed(s: State): nat {
    if s.fallbackArmed then 1 else 0
  }

  /**
   A step launches what it adds to the attempts, speaks last exactly when it ends the delivery, and stamps its
   round.
   */
  ghost predicate Accountable(s: State, s': State, actions: seq<Action>, heard: nat) {
    && |actions| <= 2 && (forall a :: a in actions ==> Stamped(a, s'.round))
    && Tally(actions, IsLaunch) == |s'.attempted| - |s.attempted|
    && Tally(actions, IsTerminal) == (if Terminal(s'.phase) && !Terminal(s.phase) then 1 else 0)
    && (Terminal(s.phase) ==> s' == s)
    && Armed(s') + heard <= Armed(s) + Tally(actions, IsArmFallback)
    && Tally(actions, IsArmRetry) == s'.retryIndex - s.retryIndex
  }

  lemma AnswerActions(c: Config, t: Trace, e: Event)
    requires ValidConfig(c) && Inv(c, t) && e.RouteResult?
    ensures var (s', actions) := Step(c, t.state, e); Accountable(t.state, s', actions, HeardFallback(c, t.state, e))
  {
    var s := t.state;
    if s.phase.Running? && e.round == s.round && e.route in s.pending && !e.accepted {
      var s1 := s.(pending := s.pending - {e.route}, failures := RouteFailures(c, s, e.route, e.failure));
      if s1.nextRoute < |c.routes| { LaunchActions(c, s1); } else if s1.pending == {} { FinishActions(c, s1); }
    }
  }

  lemma ClockActions(c: Config, t: Trace, e: Event)
    requires ValidConfig(c) && Inv(c, t) && (e.FallbackElapsed? || e.RetryElapsed?)
    ensures var (s', actions) := Step(c, t.state, e); Accountable(t.state, s', actions, HeardFallback(c, t.state, e))
  {
    var s := t.state;
    if e.FallbackElapsed? {
      if s.phase.Running? && s.nextRoute < |c.routes| { LaunchActions(c, s.(fallbackArmed := false)); }
    } else {
      if s.phase.WaitingRetry? && e.round == s.round { LaunchActions(c, Retried(s)); }
    }
  }

  lemma StepActions(c: Config, t: Trace, e: Event)
    requires ValidConfig(c) && Inv(c, t)
    ensures var (s', actions) := Step(c, t.state, e); Accountable(t.state, s', actions, HeardFallback(c, t.state, e))
  {
    match e
    case RouteResult(_, _, _, _) => AnswerActions(c, t, e);
    case Start => if t.state.phase.Ready? { LaunchActions(c, t.state.(phase := Running)); }
    case Abort =>
    case _ => ClockActions(c, t, e);
  }

  lemma LaunchActions(c: Config, s: State)
    requires s.nextRoute < |c.routes| && s.phase.Running?
    ensures var (s', actions) := LaunchNext(c, s);
            && 1 <= |actions| <= 2 && (forall a :: a in actions ==> Stamped(a, s.round))
            && Tally(actions, IsLaunch) == 1 && Tally(actions, IsTerminal) == 0
            && |s'.attempted| == |s.attempted| + 1 && s'.phase.Running? && s'.round == s.round
            && Armed(s') == Armed(s) + Tally(actions, IsArmFallback)
            && Tally(actions, IsArmRetry) == 0 && s'.retryIndex == s.retryIndex
  {
  }

  lemma FinishActions(c: Config, s: State)
    requires s.pending == {} && s.phase.Running?
    ensures var (s', actions) := FinishRound(c, s);
            && |actions| == 1 && (forall a :: a in actions ==> Stamped(a, s.round))
            && Tally(actions, IsLaunch) == 0 && Tally(actions, IsTerminal) == (if Terminal(s'.phase) then 1 else 0)
            && s'.attempted == s.attempted && s'.round == s.round
            && Armed(s') == Armed(s) && Tally(actions, IsArmRetry) == s'.retryIndex - s.retryIndex
  {
  }

  lemma CountStep(log: seq<Entry>, retries: nat, actions: seq<Action>, kind: Action -> bool)
    requires |actions| <= 2
    ensures Count(log + Tag(retries, actions), kind) == Count(log, kind) + Tally(actions, kind)
  {
    CountFew(retries, actions, kind);
    CountConcat(log, Tag(retries, actions), kind);
  }

  lemma LogGrows(t: Trace, t': Trace, actions: seq<Action>, heard: nat)
    requires Logged(t) && Accountable(t.state, t'.state, actions, heard)
    requires t'.log == t.log + Tag(t'.retries, actions) && t'.fallbacks == t.fallbacks + heard
    requires t.retries <= t'.retries && t'.state.round == Capped(t'.retries)
    ensures Logged(t')
  {
    CountStep(t.log, t'.retries, actions, IsLaunch);
    CountStep(t.log, t'.retries, actions, IsTerminal);
    CountStep(t.log, t'.retries, actions, IsArmFallback);
    CountStep(t.log, t'.retries, actions, IsArmRetry);
  }

  lemma StepLogs(c: Config, t: Trace, e: Event)
    requires ValidConfig(c) && Inv(c, t) && Inv(c, Advance(c, t, e)) && Logged(t)
    ensures Logged(Advance(c, t, e))
  {
    StepActions(c, t, e);
    LogGrows(t, Advance(c, t, e), Step(c, t.state, e).1, HeardFallback(c, t.state, e));
  }

  lemma {:induction false} RunLogs(c: Config, events: seq<Event>)
    requires ValidConfig(c)
    ensures Logged(Run(c, events))
  {
    if events != [] {
      var before, e := events[..|events| - 1], events[|events| - 1];
      RunLogs(c, before);
      RunKeeps(c, before);
      RunKeeps(c, events);
      StepLogs(c, Run(c, before), e);
    }
  }

  // ----- Main results -----

  lemma {:induction false} LapsLength(routes: seq<string>, n: nat)
    ensures |Laps(routes, n)| == n * |routes|
  {
    if n > 0 { LapsLength(routes, n - 1); }
  }

  /** In every run, launches are full rounds plus the current one, and each is failed, in flight or accepted. */
  lemma LaunchesConserved(c: Config, events: seq<Event>)
    requires ValidConfig(c)
    ensures var t := Run(c, events);
            && Count(t.log, IsLaunch) == t.retries * |c.routes| + t.state.nextRoute
            && Count(t.log, IsLaunch) ==
              |t.state.failures| + |t.state.pending| + (if t.state.phase.Complete? then 1 else 0)
            && t.state.round == Capped(t.retries)
            && (t.state.phase.Running? ==>
                t.state.pending != {} && (t.state.nextRoute < |c.routes| ==> t.state.fallbackArmed))
            && Count(t.log, IsTerminal) == if Terminal(t.state.phase) then 1 else 0
  {
    RunKeeps(c, events);
    RunLogs(c, events);
    LapsLength(c.routes, Run(c, events).retries);
  }

  /** Giving up means that every route failed once in the first round and once in every retry. */
  lemma ExhaustedExactly(c: Config, events: seq<Event>)
    requires ValidConfig(c) && Run(c, events).state.phase.Failed?
    ensures var t := Run(c, events);
            && |t.state.failures| == (|c.retryDelays| + 1) * |c.routes|
            && t.state.attempted == Laps(c.routes, |c.retryDelays| + 1)
  {
    RunKeeps(c, events);
    var n := |c.retryDelays|;
    LapsLength(c.routes, n + 1);
    assert c.routes[..|c.routes|] == c.routes;
    assert Laps(c.routes, n + 1) == Laps(c.routes, n) + c.routes;
  }

  /** An event without effect on the state asks nothing of the host. */
  lemma NoEffectNoAction(c: Config, events: seq<Event>, e: Event)
    requires ValidConfig(c) && !Effective(c, Run(c, events).state, e)
    ensures Step(c, Run(c, events).state, e).1 == []
  {
    RunKeeps(c, events);
    var t := Run(c, events);
    if e.RouteResult? && t.state.phase.Running? && e.round == t.state.round && e.route in t.state.pending {
      ResultKeeps(c, t, e);
    }
    if e.RetryElapsed? && t.state.phase.WaitingRetry? && e.round == t.state.round { RetryKeeps(c, t, e); }
  }

  /** The logged action is of the current round, or both rounds are the last the counter can tell. */
  ghost predicate SameRound(t: Trace, k: nat)
    requires k < |t.log|
  {
    t.log[k].retries == t.retries || t.log[k].retries >= MAX_ROUND
  }

  /**
   The answer to a logged launch is heard at most once, and only in the round of that launch unless the round
   counter is saturated.
   */
  lemma StaleResultIgnored(c: Config, events: seq<Event>, k: nat, e: Event)
    requires ValidConfig(c) && k < |Run(c, events).log| && Run(c, events).log[k].action.LaunchRoute? && e.RouteResult?
    requires e.round == Run(c, events).log[k].action.round
    ensures var t := Run(c, events);
            && (Effective(c, t.state, e) ==> (t.retries, e.route) !in t.answered)
            && (Effective(c, t.state, e) <==>
                  t.state.phase.Running? && e.route in t.state.pending && SameRound(t, k))
  {
    RunKeeps(c, events);
    RunLogs(c, events);
    var t := Run(c, events);
    assert t.log[k] in t.log;
    if t.state.phase.Running? && e.round == t.state.round && e.route in t.state.pending { ResultKeeps(c, t, e); }
  }

  /**
   A report of a logged timer is heard exactly while a timer of its kind is awaited in the round of that timer,
   or the counter is saturated.
   */
  lemma StaleTimerIgnored(c: Config, events: seq<Event>, k: nat)
    requires ValidConfig(c) && k < |Run(c, events).log|
    ensures var t := Run(c, events);
            var a := t.log[k].action;
            && (a.ArmFallback? ==>
                  (Effective(c, t.state, FallbackElapsed(a.round)) <==>
                     t.state.phase.Running? && t.state.fallbackArmed && SameRound(t, k)))
            && (a.ArmRetry? ==>
                  (Effective(c, t.state, RetryElapsed(a.round)) <==> t.state.phase.WaitingRetry? && SameRound(t, k)))
  {
    RunKeeps(c, events);
    RunLogs(c, events);
    var t := Run(c, events);
    assert t.log[k] in t.log;
    var a := t.log[k].action;
    if a.ArmRetry? && t.state.phase.WaitingRetry? && a.round == t.state.round {
      RetryKeeps(c, t, RetryElapsed(a.round));
    }
  }

  /** In every run, timers are heard no more often than they were armed: with one armed and not heard, strictly less. */
  lemma TimersConserved(c: Config, events: seq<Event>)
    requires ValidConfig(c)
    ensures var t := Run(c, events);
            && t.fallbacks + (if t.state.fallbackArmed then 1 else 0) <= Count(t.log, IsArmFallback)
            && t.retries + (if t.state.phase.WaitingRetry? then 1 else 0) <= Count(t.log, IsArmRetry)
  {
    RunKeeps(c, events);
    RunLogs(c, events);
  }

  /** The first fallback timer, reported twice, is heard twice exactly when there is a third route to launch early. */
  lemma RepeatedFallbackHeard(c: Config)
    requires ValidConfig(c) && |c.routes| >= 2
    ensures var t := Run(c, [Start, FallbackElapsed(0)]);
            && t.fallbacks == 1 && |t.log| > 1 && t.log[1] == Entry(0, ArmFallback(0, c.fallbackDelay))
            && (Effective(c, t.state, FallbackElapsed(0)) <==> |c.routes| >= 3)
            && (|c.routes| >= 3 ==> Step(c, t.state, FallbackElapsed(0)).1[0] == LaunchRoute(0, 2))
  {
    var t0, e0, e1 := Run(c, []), Start, FallbackElapsed(0);
    assert [e0][..0] == [] && [e0, e1][..1] == [e0];
    var t1 := Run(c, [e0]);
    assert t1 == Advance(c, t0, e0);
    assert t1.log == [Entry(0, LaunchRoute(0, 0)), Entry(0, ArmFallback(0, c.fallbackDelay))];
    var t2 := Run(c, [e0, e1]);
    assert t2 == Advance(c, t1, e1);
  }

  /**
   Until the delivery ends there is always something to wait for, and with no more than 2^32 routes a host can
   name it.
   */
  lemma NeverStuck(c: Config, events: seq<Event>) returns (e: Event)
    requires ValidConfig(c) && !Terminal(Run(c, events).state.phase)
    ensures !e.Abort? && Effective(c, Run(c, events).state, e)
    ensures e.RouteResult? && |c.routes| <= WORD ==> e.route < WORD
  {
    RunKeeps(c, events);
    var t := Run(c, events);
    if t.state.phase.Ready? {
      e := Start;
    } else if t.state.phase.Running? {
      var route :| route in t.state.pending;
      e := RouteResult(t.state.round, route, false, "");
      ResultKeeps(c, t, e);
    } else {
      e := RetryElapsed(t.state.round);
      RetryKeeps(c, t, e);
    }
  }

  // ----- Termination -----

  function Stage(c: Config, t: Trace): int {
    var left := |c.retryDelays| - t.retries;
    match t.state.phase
    case Ready => 2 * |c.retryDelays| + 2
    case Running => 2 * left + 1
    case WaitingRetry => 2 * left
    case _ => 0
  }

  function Work(c: Config, s: State): int {
    2 * (|c.routes| - s.nextRoute) + |s.pending| + if s.fallbackArmed then 1 else 0
  }

  /** Stages weigh more than all the work within one. */
  function Rank(c: Config, t: Trace): int {
    if Terminal(t.state.phase) then 0 else Stage(c, t) * (2 * |c.routes| + 2) + Work(c, t.state)
  }

  lemma StagesDominate(a: int, b: int, k: int, x: int, y: int)
    requires 0 <= b < a && 0 <= x && 0 <= y < k
    ensures b * k + y < a * k + x
  {
    assert (a - b - 1) * k >= 0;
    assert a * k == (a - b - 1) * k + b * k + k;
  }

  lemma RankPositive(c: Config, t: Trace)
    requires ValidConfig(c) && Inv(c, t) && !Terminal(t.state.phase)
    ensures 1 <= Stage(c, t) && 0 <= Work(c, t.state) < 2 * |c.routes| + 2 && Rank(c, t) > 0
  {
    StagesDominate(Stage(c, t), 0, 2 * |c.routes| + 2, Work(c, t.state), 0);
  }

  /** Every event with an effect lowers the rank. */
  lemma EffectLowersRank(c: Config, t: Trace, e: Event)
    requires ValidConfig(c) && Inv(c, t) && Effective(c, t.state, e)
    ensures Rank(c, Advance(c, t, e)) < Rank(c, t)
  {
    var t' := Advance(c, t, e);
    StepKeeps(c, t, e);
    RankPositive(c, t);
    if !Terminal(t'.state.phase) {
      RankPositive(c, t');
      StageOrWorkDrops(c, t, e);
      if Stage(c, t') < Stage(c, t) {
        StagesDominate(Stage(c, t), Stage(c, t'), 2 * |c.routes| + 2, Work(c, t.state), Work(c, t'.state));
      }
    }
  }

  ghost predicate Drops(c: Config, t: Trace, t': Trace) {
    Stage(c, t') < Stage(c, t) || (Stage(c, t') == Stage(c, t) && Work(c, t'.state) < Work(c, t.state))
  }

  lemma ResultDrops(c: Config, t: Trace, e: Event)
    requires ValidConfig(c) && Inv(c, t) && Effective(c, t.state, e) && !Terminal(Advance(c, t, e).state.phase)
    requires e.RouteResult?
    ensures Drops(c, t, Advance(c, t, e))
  {
  }

  lemma StageOrWorkDrops(c: Config, t: Trace, e: Event)
    requires ValidConfig(c) && Inv(c, t) && Effective(c, t.state, e) && !Terminal(Advance(c, t, e).state.phase)
    ensures Drops(c, t, Advance(c, t, e))
  {
    if e.RouteResult? { ResultDrops(c, t, e); }
  }

  /** The rank at the start. */
  function Budget(c: Config): int {
    (2 * |c.retryDelays| + 2) * (2 * |c.routes| + 2) + 2 * |c.routes|
  }

  lemma StepWithinBudget(c: Config, t: Trace, e: Event)
    requires ValidConfig(c) && Inv(c, t)
    ensures Advance(c, t, e).effects + Rank(c, Advance(c, t, e)) <= t.effects + Rank(c, t)
    ensures 0 <= Rank(c, t)
  {
    if !Terminal(t.state.phase) { RankPositive(c, t); }
    if Effective(c, t.state, e) {
      EffectLowersRank(c, t, e);
    } else {
      assert Advance(c, t, e).state == t.state && Advance(c, t, e).retries == t.retries;
    }
  }

  /** In every run, the events with an effect are at most the budget. */
  lemma {:induction false} EffectsBounded(c: Config, events: seq<Event>)
    requires ValidConfig(c)
    ensures Run(c, events).effects + Rank(c, Run(c, events)) <= Budget(c)
    ensures Run(c, events).effects <= Budget(c)
  {
    RunKeeps(c, events);
    StepWithinBudget(c, Run(c, events), Abort);
    if events != [] {
      var before := events[..|events| - 1];
      EffectsBounded(c, before);
      RunKeeps(c, before);
      StepWithinBudget(c, Run(c, before), events[|events| - 1]);
    }
  }
}
