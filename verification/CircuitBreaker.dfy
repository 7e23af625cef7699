/** The per-subsystem circuit breaker (crates/nova-executor/src/circuit_breaker.rs), called by one thread at a time. */
module CircuitBreaker {
  import Sets
  import opened Outcomes

  type Subsystem = nat

  datatype CircuitState = Closed | Open(until: int) | HalfOpen

  datatype Config = Config(failureThreshold: nat, successThreshold: nat, halfOpenTimeout: nat, window: nat)

  /** How the guarded operation ended: only some errors count as failures. */
  datatype Outcome = Succeeded | TrackedFailure | OtherFailure

  datatype Verdict = Passed | Refused | Failed

  /** `autoCloses` is kept for the statements only. */
  datatype Breaker = Breaker(
    state: map<Subsystem, CircuitState>,
    failures: map<Subsystem, nat>,
    successes: map<Subsystem, nat>,
    lastChange: map<Subsystem, int>,
    opens: nat,
    halfOpens: nat,
    closes: nat,
    rejected: nat,
    autoCloses: nat)
  {
    function StateOf(s: Subsystem): CircuitState {
      if s in state then state[s] else Closed
    }

    function Failures(s: Subsystem): nat {
      if s in failures then failures[s] else 0
    }

    function Successes(s: Subsystem): nat {
      if s in successes then successes[s] else 0
    }
  }

  const NEW: Breaker := Breaker(map[], map[], map[], map[], 0, 0, 0, 0, 0)

  const FORCED_OPEN: nat := 3_600_000_000_000

  // ---- The transitions, as functions ----

  function Transition(b: Breaker, s: Subsystem, new_: CircuitState, now: int): Breaker {
    var c := b.(state := b.state[s := new_], lastChange := b.lastChange[s := now]);
    match new_
    case Open(_) => c.(opens := c.opens + 1)
    case HalfOpen => c.(halfOpens := c.halfOpens + 1)
    case Closed => c.(closes := c.closes + 1)
  }

  function Opened(b: Breaker, s: Subsystem, now: int, config: Config): Breaker {
    var c := Transition(b, s, Open(now + config.halfOpenTimeout), now);
    c.(failures := c.failures - {s})
  }

  function ClosedAgain(b: Breaker, s: Subsystem, now: int): Breaker {
    var c := Transition(b, s, Closed, now);
    c.(failures := c.failures - {s}, successes := c.successes - {s})
  }

  function ForcedOpen(b: Breaker, s: Subsystem, now: int): Breaker {
    Transition(b, s, Open(now + FORCED_OPEN), now)
  }

  function Reset(b: Breaker, s: Subsystem): Breaker {
    b.(state := b.state - {s}, failures := b.failures - {s},
       successes := b.successes - {s}, lastChange := b.lastChange - {s})
  }

  predicate Refuses(b: Breaker, s: Subsystem, started: int) {
    b.StateOf(s).Open? && started < b.StateOf(s).until
  }

  /** What `execute` does before it runs the operation. */
  function Admitted(b: Breaker, s: Subsystem, started: int): Breaker {
    if b.StateOf(s).Open? then Transition(b, s, HalfOpen, started) else b
  }

  /** The count starts over once the window has passed since the last change of state, not since the last failure. */
  predicate CountExpired(b: Breaker, s: Subsystem, finished: int, config: Config) {
    s in b.lastChange && finished - b.lastChange[s] > config.window
  }

  function CountAfterFailure(b: Breaker, s: Subsystem, finished: int, config: Config): nat {
    (if CountExpired(b, s, finished, config) then 0 else b.Failures(s)) + 1
  }

  function AfterFailure(b: Breaker, s: Subsystem, finished: int, config: Config): Breaker {
    var count := CountAfterFailure(b, s, finished, config);
    var c := b.(failures := b.failures[s := count]);
    if count >= config.failureThreshold then Opened(c, s, finished, config) else c
  }

  function AfterSuccess(b: Breaker, s: Subsystem, finished: int, config: Config): Breaker {
    var c := b.(successes := b.successes[s := b.Successes(s) + 1]);
    if c.successes[s] >= config.successThreshold && c.StateOf(s) == HalfOpen
    then ClosedAgain(c.(autoCloses := c.autoCloses + 1), s, finished)
    else c
  }

  /** `execute`; the clock is read before and after the operation runs. */
  function Executed(b: Breaker, s: Subsystem, started: int, outcome: Outcome, finished: int, config: Config): Breaker {
    if Refuses(b, s, started) then b.(rejected := b.rejected + 1)
    else
      var c := Admitted(b, s, started);
      match outcome
      case Succeeded => AfterSuccess(c, s, finished, config)
      case TrackedFailure => AfterFailure(c, s, finished, config)
      case OtherFailure => c
  }

  // ---- Runs ----

  datatype Call =
    | Execute(s: Subsystem, started: int, outcome: Outcome, finished: int)
    | ForceOpen(s: Subsystem, at: int)
    | ForceClose(s: Subsystem, at: int)
    | ResetCall(s: Subsystem)

  function Next(b: Breaker, call: Call, config: Config): Breaker {
    match call
    case Execute(s, started, outcome, finished) => Executed(b, s, started, outcome, finished, config)
    case ForceOpen(s, at) => ForcedOpen(b, s, at)
    case ForceClose(s, at) => ClosedAgain(b, s, at)
    case ResetCall(s) => Reset(b, s)
  }

  function After(b: Breaker, calls: seq<Call>, config: Config): Breaker {
    if calls == [] then b
    else Next(After(b, calls[..|calls| - 1], config), calls[|calls| - 1], config)
  }

  /** The subsystems in one kind of state. */
  ghost function OpenNow(b: Breaker): set<Subsystem> {
    set s | s in b.state && b.state[s].Open?
  }

  ghost function HalfOpenNow(b: Breaker): set<Subsystem> {
    set s | s in b.state && b.state[s].HalfOpen?
  }

  /** Counts stay below the threshold, and the counters account for every subsystem that is open or half open. */
  ghost predicate Inv(b: Breaker, config: Config) {
    && (config.failureThreshold >= 1 ==>
          forall s :: s in b.failures ==> b.failures[s] < config.failureThreshold)
    && (forall s :: s in b.state ==> s in b.lastChange)
    && b.halfOpens + |OpenNow(b)| <= b.opens
    && b.autoCloses + |HalfOpenNow(b)| <= b.halfOpens
    && b.autoCloses <= b.closes
  }

  lemma SetGrowsByOne<T>(a: set<T>, b: set<T>, x: T)
    requires b <= a + {x}
    ensures |b| <= |a| + 1
    ensures x in a ==> |b| <= |a|
    ensures x in a && x !in b ==> |b| + 1 <= |a|
  {
    Sets.SubsetSize(b, a + {x});
    if x in a {
      assert a + {x} == a;
      if x !in b { Sets.SubsetSize(b, a - {x}); }
    }
  }

  /** Each change of state moves at most one subsystem, and its counter pays for it. */
  lemma TransitionAccounts(b: Breaker, s: Subsystem, new_: CircuitState, now: int)
    ensures var c := Transition(b, s, new_, now);
            && |OpenNow(c)| <= |OpenNow(b)| + (if new_.Open? then 1 else 0)
            && |HalfOpenNow(c)| <= |HalfOpenNow(b)| + (if new_.HalfOpen? then 1 else 0)
            && (s in OpenNow(b) && !new_.Open? ==> |OpenNow(c)| + 1 <= |OpenNow(b)|)
            && (s in HalfOpenNow(b) && !new_.HalfOpen? ==> |HalfOpenNow(c)| + 1 <= |HalfOpenNow(b)|)
  {
    var c := Transition(b, s, new_, now);
    SetGrowsByOne(OpenNow(b), OpenNow(c), s);
    SetGrowsByOne(HalfOpenNow(b), HalfOpenNow(c), s);
    if !new_.Open? { Sets.SubsetSize(OpenNow(c), OpenNow(b)); }
    if !new_.HalfOpen? { Sets.SubsetSize(HalfOpenNow(c), HalfOpenNow(b)); }
  }

  lemma OpenedInv(b: Breaker, s: Subsystem, now: int, config: Config)
    requires Inv(b.(failures := b.failures - {s}), config)
    ensures Inv(Opened(b, s, now, config), config)
  {
    TransitionAccounts(b, s, Open(now + config.halfOpenTimeout), now);
    SameSets(b, b.(failures := b.failures - {s}));
    SameSets(Transition(b, s, Open(now + config.halfOpenTimeout), now), Opened(b, s, now, config));
  }

  lemma SameSets(b: Breaker, c: Breaker)
    requires b.state == c.state
    ensures OpenNow(b) == OpenNow(c) && HalfOpenNow(b) == HalfOpenNow(c)
  {}

  lemma AdmittedInv(b: Breaker, s: Subsystem, started: int, config: Config)
    requires Inv(b, config)
    ensures Inv(Admitted(b, s, started), config)
  {
    TransitionAccounts(b, s, HalfOpen, started);
    if b.StateOf(s).Open? { assert s in OpenNow(b); }
  }

  lemma AfterFailureInv(b: Breaker, s: Subsystem, finished: int, config: Config)
    requires Inv(b, config)
    ensures Inv(AfterFailure(b, s, finished, config), config)
  {
    var c := b.(failures := b.failures[s := CountAfterFailure(b, s, finished, config)]);
    SameSets(b, c);
    SameSets(b, c.(failures := c.failures - {s}));
    if CountAfterFailure(b, s, finished, config) >= config.failureThreshold {
      OpenedInv(c, s, finished, config);
    }
  }

  lemma AfterSuccessInv(b: Breaker, s: Subsystem, finished: int, config: Config)
    requires Inv(b, config)
    ensures Inv(AfterSuccess(b, s, finished, config), config)
  {
    var c := b.(successes := b.successes[s := b.Successes(s) + 1]);
    SameSets(b, c);
    if c.successes[s] >= config.successThreshold && c.StateOf(s) == HalfOpen {
      var d := c.(autoCloses := c.autoCloses + 1);
      SameSets(b, d);
      assert s in HalfOpenNow(d);
      TransitionAccounts(d, s, Closed, finished);
      SameSets(Transition(d, s, Closed, finished), ClosedAgain(d, s, finished));
    }
  }

  lemma NextInv(b: Breaker, call: Call, config: Config)
    requires Inv(b, config)
    ensures Inv(Next(b, call, config), config)
  {
    match call {
      case Execute(s, started, outcome, finished) =>
        if Refuses(b, s, started) {
          SameSets(b, b.(rejected := b.rejected + 1));
        } else {
          AdmittedInv(b, s, started, config);
          AfterFailureInv(Admitted(b, s, started), s, finished, config);
          AfterSuccessInv(Admitted(b, s, started), s, finished, config);
        }
      case ForceOpen(s, at) => TransitionAccounts(b, s, Open(at + FORCED_OPEN), at);
      case ForceClose(s, at) =>
        TransitionAccounts(b, s, Closed, at);
        SameSets(Transition(b, s, Closed, at), ClosedAgain(b, s, at));
      case ResetCall(s) =>
        Sets.SubsetSize(OpenNow(Reset(b, s)), OpenNow(b));
        Sets.SubsetSize(HalfOpenNow(Reset(b, s)), HalfOpenNow(b));
    }
  }

  /** Over every sequence of calls: counts below the threshold, and each state accounted for by the counters. */
  lemma {:induction false} RunsKeepInv(calls: seq<Call>, config: Config)
    ensures Inv(After(NEW, calls, config), config)
    decreases |calls|
  {
    if calls == [] {
      assert OpenNow(NEW) == {} && HalfOpenNow(NEW) == {};
    } else {
      RunsKeepInv(calls[..|calls| - 1], config);
      NextInv(After(NEW, calls[..|calls| - 1], config), calls[|calls| - 1], config);
    }
  }

  function CallOn(call: Call): Subsystem {
    match call
    case Execute(s, _, _, _) => s
    case ForceOpen(s, _) => s
    case ForceClose(s, _) => s
    case ResetCall(s) => s
  }

  /** All the breaker knows about one subsystem. */
  function About(b: Breaker, s: Subsystem): (CircuitState, nat, nat, Option<int>) {
    (b.StateOf(s), b.Failures(s), b.Successes(s), if s in b.lastChange then Some(b.lastChange[s]) else None)
  }

  lemma FailureSparesOthers(b: Breaker, s: Subsystem, finished: int, config: Config, other: Subsystem)
    requires other != s
    ensures About(AfterFailure(b, s, finished, config), other) == About(b, other)
  {}

  lemma SuccessSparesOthers(b: Breaker, s: Subsystem, finished: int, config: Config, other: Subsystem)
    requires other != s
    ensures About(AfterSuccess(b, s, finished, config), other) == About(b, other)
  {}

  /** A call on one subsystem changes nothing about another. */
  lemma OthersUntouched(b: Breaker, call: Call, config: Config, other: Subsystem)
    requires other != CallOn(call)
    ensures About(Next(b, call, config), other) == About(b, other)
  {
    match call {
      case Execute(s, started, _, finished) =>
        var c := Admitted(b, s, started);
        assert About(c, other) == About(b, other);
        FailureSparesOthers(c, s, finished, config, other);
        SuccessSparesOthers(c, s, finished, config, other);
      case ForceOpen(_, _) =>
      case ForceClose(_, _) =>
      case ResetCall(_) =>
    }
  }

  // ---- When a circuit opens by itself ----

  predicate OpensIt(b: Breaker, s: Subsystem, started: int, outcome: Outcome, finished: int, config: Config) {
    Executed(b, s, started, outcome, finished, config).opens > b.opens
  }

  /**
  A circuit opens by itself exactly at a tracked failure that is let through and completes the threshold within the
  window since its last change of state; for a threshold of at most one every tracked failure does.
  */
  lemma OpensOnlyWithinWindow(b: Breaker, s: Subsystem, started: int, outcome: Outcome, finished: int, config: Config)
    requires Inv(b, config)
    ensures var c := Admitted(b, s, started);
            OpensIt(b, s, started, outcome, finished, config) <==>
              && !Refuses(b, s, started) && outcome == TrackedFailure
              && (|| config.failureThreshold <= 1
                  || (!CountExpired(c, s, finished, config) && c.Failures(s) + 1 == config.failureThreshold))
  {
    AdmittedInv(b, s, started, config);
  }

  /** The subsystem is closed and the window since its last change of state has passed at time `t`. */
  ghost predicate Stale(b: Breaker, s: Subsystem, t: int, config: Config) {
    b.StateOf(s) == Closed && s in b.lastChange && t - b.lastChange[s] > config.window
  }

  /** Nobody forces or resets the subsystem, and no call on it lies before `t`. */
  ghost predicate LeavesAlone(calls: seq<Call>, s: Subsystem, t: int) {
    forall i :: 0 <= i < |calls| && CallOn(calls[i]) == s ==>
                  calls[i].Execute? && t <= calls[i].started && t <= calls[i].finished
  }

  ghost predicate FailsOn(call: Call, s: Subsystem) {
    call.Execute? && call.s == s && call.outcome == TrackedFailure
  }

  ghost predicate NoneFailsOn(calls: seq<Call>, s: Subsystem) {
    forall i :: 0 <= i < |calls| ==> !FailsOn(calls[i], s)
  }

  /** The circuit is as it was, or has changed at `t` or later. */
  ghost predicate SameOrLater(b: Breaker, s: Subsystem, t: int, c: Breaker, config: Config, same: bool)
    requires s in b.lastChange
  {
    && s in c.lastChange
    && if same then Stale(c, s, t, config) && c.lastChange[s] == b.lastChange[s]
       else c.lastChange[s] >= t > b.lastChange[s]
  }

  lemma StaleStepElsewhere(b: Breaker, s: Subsystem, t: int, c: Breaker, call: Call, config: Config, same: bool)
    requires s in b.lastChange && SameOrLater(b, s, t, c, config, same) && CallOn(call) != s
    ensures SameOrLater(b, s, t, Next(c, call, config), config, same)
  {
    OthersUntouched(c, call, config, s);
    assert About(Next(c, call, config), s) == About(c, s);
  }

  lemma StaleStepHere(b: Breaker, s: Subsystem, t: int, c: Breaker, call: Call, config: Config, same: bool)
    requires s in b.lastChange && SameOrLater(b, s, t, c, config, same)
    requires call.Execute? && call.s == s && t <= call.started && t <= call.finished
    ensures SameOrLater(b, s, t, Next(c, call, config), config,
                        same && (config.failureThreshold >= 2 || !FailsOn(call, s)))
  {}

  lemma {:induction false} StaleAlong(b: Breaker, s: Subsystem, t: int, calls: seq<Call>, config: Config)
    requires Stale(b, s, t, config) && LeavesAlone(calls, s, t)
    ensures SameOrLater(b, s, t, After(b, calls, config), config, config.failureThreshold >= 2 || NoneFailsOn(calls, s))
    decreases |calls|
  {
    if calls != [] {
      var n := |calls| - 1;
      var earlier, same := calls[..n], config.failureThreshold >= 2 || NoneFailsOn(calls[..n], s);
      assert NoneFailsOn(calls, s) <==> NoneFailsOn(earlier, s) && !FailsOn(calls[n], s) by {
        assert calls == earlier + [calls[n]];
      }
      StaleAlong(b, s, t, earlier, config);
      if CallOn(calls[n]) != s {
        StaleStepElsewhere(b, s, t, After(b, earlier, config), calls[n], config, same);
      } else {
        StaleStepHere(b, s, t, After(b, earlier, config), calls[n], config, same);
      }
    }
  }

  /**
  A circuit that has been closed for longer than the window stays as it is, however many failures follow, since each of
  them starts the count over: unless the threshold is at most one, and then exactly until its next tracked failure.
  */
  lemma StaleCircuitStaysIff(b: Breaker, s: Subsystem, t: int, calls: seq<Call>, config: Config)
    requires Stale(b, s, t, config) && LeavesAlone(calls, s, t)
    ensures var c := After(b, calls, config);
            && s in c.lastChange
            && (Stale(c, s, t, config) && c.lastChange[s] == b.lastChange[s]
                <==> config.failureThreshold >= 2 || NoneFailsOn(calls, s))
  {
    StaleAlong(b, s, t, calls, config);
  }

  /** Calls on one subsystem that all end alike, one at each tick of `times`. */
  function Repeated(s: Subsystem, outcome: Outcome, times: seq<int>): seq<Call> {
    seq(|times|, i requires 0 <= i < |times| => Execute(s, times[i], outcome, times[i]))
  }

  lemma RepeatedPrefix(s: Subsystem, outcome: Outcome, times: seq<int>)
    requires times != []
    ensures var n := |times| - 1;
            && Repeated(s, outcome, times)[..n] == Repeated(s, outcome, times[..n])
            && Repeated(s, outcome, times)[n] == Execute(s, times[n], outcome, times[n])
  {}

  /** Nothing has been recorded of the subsystem but successes. */
  ghost predicate Fresh(b: Breaker, s: Subsystem) {
    s !in b.state && s !in b.lastChange && s !in b.failures
  }

  /**
  A circuit that never changed state counts failures without any window: the threshold-th one opens it, whenever it
  comes. The successes counted before stay counted.
  */
  lemma {:induction false} FreshCircuitOpensAtThreshold(b: Breaker, s: Subsystem, times: seq<int>, config: Config)
    requires Fresh(b, s) && |times| <= config.failureThreshold && config.failureThreshold >= 1
    ensures var c := After(b, Repeated(s, TrackedFailure, times), config);
            && c.Successes(s) == b.Successes(s)
            && if |times| == config.failureThreshold
               then c.StateOf(s) == Open(times[|times| - 1] + config.halfOpenTimeout) && c.opens == b.opens + 1
               else s !in c.state && s !in c.lastChange && c.Failures(s) == |times| && c.opens == b.opens
    decreases |times|
  {
    if times == [] {
      assert Repeated(s, TrackedFailure, times) == [];
    } else {
      FreshCircuitOpensAtThreshold(b, s, times[..|times| - 1], config);
      RepeatedPrefix(s, TrackedFailure, times);
    }
  }

  // ---- Recovery ----

  lemma {:induction false} SuccessesAreCounted(b: Breaker, s: Subsystem, times: seq<int>, config: Config)
    requires Fresh(b, s)
    ensures var c := After(b, Repeated(s, Succeeded, times), config);
            Fresh(c, s) && c.Successes(s) == b.Successes(s) + |times|
    decreases |times|
  {
    if times == [] {
      assert Repeated(s, Succeeded, times) == [];
    } else {
      SuccessesAreCounted(b, s, times[..|times| - 1], config);
      RepeatedPrefix(s, Succeeded, times);
    }
  }

  lemma {:induction false} AfterConcat(b: Breaker, first: seq<Call>, second: seq<Call>, config: Config)
    ensures After(b, first + second, config) == After(After(b, first, config), second, config)
    decreases |second|
  {
    if second == [] {
      assert first + second == first;
    } else {
      var n := |second| - 1;
      AfterConcat(b, first, second[..n], config);
      assert (first + second)[..|first| + n] == first + second[..n];
    }
  }

  /**
  A run that shows it: successes, failures that open the circuit, and after the timeout one more success, which closes
  it if and only if, with the successes from before the failures, it reaches the threshold.
  */
  lemma OneSuccessRecoversIff(s: Subsystem, good: seq<int>, bad: seq<int>, at: int, config: Config)
    requires config.failureThreshold >= 1 && |bad| == config.failureThreshold
    requires at >= bad[|bad| - 1] + config.halfOpenTimeout
    ensures var calls := Repeated(s, Succeeded, good) + Repeated(s, TrackedFailure, bad)
                         + [Execute(s, at, Succeeded, at)];
            After(NEW, calls, config).StateOf(s) == if |good| + 1 >= config.successThreshold then Closed else HalfOpen
  {
    var first, second := Repeated(s, Succeeded, good), Repeated(s, TrackedFailure, bad);
    var last := Execute(s, at, Succeeded, at);
    SuccessesAreCounted(NEW, s, good, config);
    FreshCircuitOpensAtThreshold(After(NEW, first, config), s, bad, config);
    AfterConcat(NEW, first, second, config);
    AfterConcat(NEW, first + second, [last], config);
    var open := After(NEW, first + second, config);
    assert [last][..0] == [];
    assert After(open, [last], config) == Next(open, last, config);
  }

  // ---- What the counts stand for, over every run ----

  /** The call runs its operation on `s`, and that ends this way: the circuit is not open, or its time is up. */
  predicate EndsAs(b: Breaker, call: Call, s: Subsystem, outcome: Outcome) {
    && call.Execute? && call.s == s && call.outcome == outcome
    && (b.StateOf(s).Open? ==> call.started >= b.StateOf(s).until)
  }

  /**
  A failure that ends at `finished` comes when the window has passed since the last change of state, which is the
  failing call itself where it finds the circuit open.
  */
  predicate PastWindow(b: Breaker, s: Subsystem, started: int, finished: int, config: Config) {
    if b.StateOf(s).Open? then finished - started > config.window
    else s in b.lastChange && finished - b.lastChange[s] > config.window
  }

  /** The call recovers the circuit, or forces it closed or resets it. */
  predicate ClearsSuccesses(b: Breaker, call: Call, s: Subsystem, config: Config) {
    CallOn(call) == s && !call.ForceOpen? && (call.Execute? ==> Next(b, call, config).autoCloses > b.autoCloses)
  }

  /** The call does one of these, or opens the circuit of its own accord. */
  predicate ClearsFailures(b: Breaker, call: Call, s: Subsystem, config: Config) {
    || ClearsSuccesses(b, call, s, config)
    || (call.Execute? && call.s == s && OpensIt(b, s, call.started, call.outcome, call.finished, config))
  }

  /** The call fails when the window has passed, so that counting starts over with it. */
  predicate StartsOver(b: Breaker, call: Call, s: Subsystem, config: Config) {
    EndsAs(b, call, s, TrackedFailure) && PastWindow(b, s, call.started, call.finished, config)
  }

  lemma SuccessStep(b: Breaker, call: Call, s: Subsystem, config: Config)
    ensures Next(b, call, config).Successes(s) ==
            if ClearsSuccesses(b, call, s, config) then 0
            else b.Successes(s) + if EndsAs(b, call, s, Succeeded) then 1 else 0
  {
    if CallOn(call) != s {
      OthersUntouched(b, call, config, s);
      assert About(Next(b, call, config), s) == About(b, s);
    } else if call.Execute? && !Refuses(b, s, call.started) {
      SuccessStepHere(Admitted(b, s, call.started), s, call.finished, config);
    }
  }

  lemma SuccessStepHere(b: Breaker, s: Subsystem, finished: int, config: Config)
    ensures var c := AfterSuccess(b, s, finished, config);
            c.Successes(s) == if c.autoCloses > b.autoCloses then 0 else b.Successes(s) + 1
    ensures AfterFailure(b, s, finished, config).Successes(s) == b.Successes(s)
    ensures AfterFailure(b, s, finished, config).autoCloses == b.autoCloses
  {}

  lemma FailureStep(b: Breaker, call: Call, s: Subsystem, config: Config)
    ensures Next(b, call, config).Failures(s) ==
            if ClearsFailures(b, call, s, config) then 0
            else if StartsOver(b, call, s, config) then 1
            else b.Failures(s) + if EndsAs(b, call, s, TrackedFailure) then 1 else 0
  {
    if CallOn(call) != s {
      OthersUntouched(b, call, config, s);
      assert About(Next(b, call, config), s) == About(b, s);
    }
  }

  /** How many of the places from `from` up to `to` are marked. */
  function Tally(marked: nat -> bool, from: nat, to: nat): nat {
    if to <= from then 0 else Tally(marked, from, to - 1) + if marked(to - 1) then 1 else 0
  }

  /** The place `from` is the first one, comes right behind the last that clears, or is the last that starts over. */
  ghost predicate Since(clears: nat -> bool, startsOver: nat -> bool, from: nat, n: nat) {
    && from <= n
    && (from > 0 ==> clears(from - 1) || (from < n && startsOver(from)))
    && (forall i :: from <= i < n ==> !clears(i))
    && (forall i :: from < i < n ==> !startsOver(i))
  }

  ghost predicate CountsStep(value: nat -> nat, marked: nat -> bool, clears: nat -> bool, startsOver: nat -> bool,
                             i: nat)
  {
    value(i + 1) == if clears(i) then 0 else if startsOver(i) then 1 else value(i) + if marked(i) then 1 else 0
  }

  lemma {:induction false} CountsSince(value: nat -> nat, marked: nat -> bool, clears: nat -> bool,
                                       startsOver: nat -> bool, n: nat)
    returns (from: nat)
    requires value(0) == 0 && forall i :: 0 <= i < n ==> CountsStep(value, marked, clears, startsOver, i)
    requires forall i :: 0 <= i < n && startsOver(i) ==> marked(i)
    ensures Since(clears, startsOver, from, n) && value(n) == Tally(marked, from, n)
  {
    from := 0;
    if n > 0 {
      from := CountsSince(value, marked, clears, startsOver, n - 1);
      assert CountsStep(value, marked, clears, startsOver, n - 1);
      if clears(n - 1) {
        from := n;
      } else if startsOver(n - 1) {
        from := n - 1;
        assert Tally(marked, n - 1, n - 1) == 0;
      }
    }
  }

  /** The state a run has reached before its call `i`. */
  function Before(calls: seq<Call>, i: nat, config: Config): Breaker
    requires i <= |calls|
  {
    After(NEW, calls[..i], config)
  }

  lemma BeforeNext(calls: seq<Call>, i: nat, config: Config)
    requires i < |calls|
    ensures Before(calls, i + 1, config) == Next(Before(calls, i, config), calls[i], config)
  {
    assert calls[..i + 1][..i] == calls[..i];
  }

  /** Which calls of a run ran their operation on `s` with this outcome. */
  function Ends(calls: seq<Call>, s: Subsystem, outcome: Outcome, config: Config): nat -> bool {
    (i: nat) => i < |calls| && EndsAs(Before(calls, i, config), calls[i], s, outcome)
  }

  function SuccessClears(calls: seq<Call>, s: Subsystem, config: Config): nat -> bool {
    (i: nat) => i < |calls| && ClearsSuccesses(Before(calls, i, config), calls[i], s, config)
  }

  function FailureClears(calls: seq<Call>, s: Subsystem, config: Config): nat -> bool {
    (i: nat) => i < |calls| && ClearsFailures(Before(calls, i, config), calls[i], s, config)
  }

  function FailureStartsOver(calls: seq<Call>, s: Subsystem, config: Config): nat -> bool {
    (i: nat) => i < |calls| && StartsOver(Before(calls, i, config), calls[i], s, config)
  }

  const NEVER: nat -> bool := (i: nat) => false

  /** Over every run: the successes counted are those let through since the circuit was last closed or reset. */
  lemma SuccessesOfRun(calls: seq<Call>, s: Subsystem, config: Config) returns (from: nat)
    ensures Since(SuccessClears(calls, s, config), NEVER, from, |calls|)
    ensures After(NEW, calls, config).Successes(s) == Tally(Ends(calls, s, Succeeded, config), from, |calls|)
  {
    var value := (i: nat) => if i <= |calls| then Before(calls, i, config).Successes(s) else 0;
    var marked, clears := Ends(calls, s, Succeeded, config), SuccessClears(calls, s, config);
    forall i: nat | i < |calls| ensures CountsStep(value, marked, clears, NEVER, i) {
      BeforeNext(calls, i, config);
      SuccessStep(Before(calls, i, config), calls[i], s, config);
    }
    from := CountsSince(value, marked, clears, NEVER, |calls|);
    assert calls[..|calls|] == calls;
  }

  /**
  Over every run: the failures counted are those let through since the circuit last opened by itself, was closed or
  reset, or since and with the last failure that came when the window had passed.
  */
  lemma FailuresOfRun(calls: seq<Call>, s: Subsystem, config: Config) returns (from: nat)
    ensures Since(FailureClears(calls, s, config), FailureStartsOver(calls, s, config), from, |calls|)
    ensures After(NEW, calls, config).Failures(s) == Tally(Ends(calls, s, TrackedFailure, config), from, |calls|)
  {
    var value := (i: nat) => if i <= |calls| then Before(calls, i, config).Failures(s) else 0;
    var marked, clears := Ends(calls, s, TrackedFailure, config), FailureClears(calls, s, config);
    var startsOver := FailureStartsOver(calls, s, config);
    forall i: nat | i < |calls| ensures CountsStep(value, marked, clears, startsOver, i) {
      BeforeNext(calls, i, config);
      FailureStep(Before(calls, i, config), calls[i], s, config);
    }
    from := CountsSince(value, marked, clears, startsOver, |calls|);
    assert calls[..|calls|] == calls;
  }

  /**
  When a circuit recovers, after any run: a success that is let through to an open or half-open circuit closes it if and
  only if, with the successes since it was last closed or reset, it reaches the threshold. Opening clears none of them.
  */
  lemma RecoversIff(calls: seq<Call>, s: Subsystem, started: int, finished: int, config: Config) returns (from: nat)
    requires var state := After(NEW, calls, config).StateOf(s);
             state.HalfOpen? || (state.Open? && started >= state.until)
    ensures Since(SuccessClears(calls, s, config), NEVER, from, |calls|)
    ensures Executed(After(NEW, calls, config), s, started, Succeeded, finished, config).StateOf(s)
            == if Tally(Ends(calls, s, Succeeded, config), from, |calls|) + 1 >= config.successThreshold then Closed
               else HalfOpen
  {
    from := SuccessesOfRun(calls, s, config);
  }

  /**
  When a circuit opens by itself, after any run: at a tracked failure that is let through and that reaches the threshold
  alone, or else, when the window since the last change of state has not passed, together with those counted so far.
  */
  lemma OpensIff(calls: seq<Call>, s: Subsystem, started: int, outcome: Outcome, finished: int, config: Config)
    returns (from: nat)
    ensures Since(FailureClears(calls, s, config), FailureStartsOver(calls, s, config), from, |calls|)
    ensures var b := After(NEW, calls, config);
            OpensIt(b, s, started, outcome, finished, config) <==>
              && (b.StateOf(s).Open? ==> started >= b.StateOf(s).until) && outcome == TrackedFailure
              && (|| config.failureThreshold <= 1
                  || (&& !PastWindow(b, s, started, finished, config)
                      && Tally(Ends(calls, s, TrackedFailure, config), from, |calls|) + 1 == config.failureThreshold))
  {
    from := FailuresOfRun(calls, s, config);
    RunsKeepInv(calls, config);
    OpensOnlyWithinWindow(After(NEW, calls, config), s, started, outcome, finished, config);
  }

  // ---- What an open circuit does ----

  /** The call is on another subsystem, or would run an operation on `s` before `until`. */
  ghost predicate ComesTooEarly(call: Call, s: Subsystem, until: int) {
    CallOn(call) == s ==> call.Execute? && call.started < until
  }

  /** A call that finds the circuit open before its time changes nothing but the count of rejections. */
  lemma TooEarlyIsRefused(b: Breaker, s: Subsystem, started: int, outcome: Outcome, finished: int, config: Config)
    requires b.StateOf(s).Open? && started < b.StateOf(s).until
    ensures Executed(b, s, started, outcome, finished, config) == b.(rejected := b.rejected + 1)
  {}

  lemma {:induction false} OpenAlong(b: Breaker, calls: seq<Call>, s: Subsystem, until: int, config: Config)
    requires b.StateOf(s) == Open(until) && forall i :: 0 <= i < |calls| ==> ComesTooEarly(calls[i], s, until)
    ensures After(b, calls, config).StateOf(s) == Open(until)
    ensures About(After(b, calls, config), s) == About(b, s)
    decreases |calls|
  {
    if calls != [] {
      var n := |calls| - 1;
      var c := After(b, calls[..n], config);
      OpenAlong(b, calls[..n], s, until, config);
      if CallOn(calls[n]) == s {
        var call := calls[n];
        TooEarlyIsRefused(c, s, call.started, call.outcome, call.finished, config);
      } else {
        OthersUntouched(c, calls[n], config, s);
      }
    }
  }

  lemma InTimeIsLetThrough(b: Breaker, s: Subsystem, started: int, outcome: Outcome, finished: int, config: Config)
    requires b.StateOf(s).Open? && started >= b.StateOf(s).until
    ensures var c := Executed(b, s, started, outcome, finished, config);
            && c.rejected == b.rejected && c.halfOpens == b.halfOpens + 1
            && (outcome == OtherFailure ==> c.StateOf(s) == HalfOpen && About(c, s).3 == Some(started))
  {}

  lemma OpeningOpens(b: Breaker, call: Call, s: Subsystem, until: int, config: Config)
    requires OpensUntil(b, call, s, until, config)
    ensures Next(b, call, config).StateOf(s) == Open(until)
  {
    if call.Execute? {
      var c := Admitted(b, s, call.started);
      assert c.opens == b.opens;
      assert AfterSuccess(c, s, call.finished, config).opens == c.opens;
    }
  }

  /** Until when the call leaves its circuit open: by a failure that opens it, or for an hour by force. */
  ghost predicate OpensUntil(b: Breaker, call: Call, s: Subsystem, until: int, config: Config) {
    match call
    case Execute(_, started, outcome, finished) =>
      call.s == s && OpensIt(b, s, started, outcome, finished, config) && until == finished + config.halfOpenTimeout
    case ForceOpen(_, at) => call.s == s && until == at + 3_600_000_000_000
    case _ => false
  }

  /**
  Over every run, whatever came before: once a circuit has opened, by itself or by force, every call on it that starts
  before its time is refused and leaves everything about it as it is, up to the first call at that time or later, which
  runs its operation with the circuit half open.
  */
  lemma OpenRefusesUntil(calls: seq<Call>, opening: Call, quiet: seq<Call>, s: Subsystem, until: int, started: int,
                         outcome: Outcome, finished: int, config: Config)
    requires OpensUntil(After(NEW, calls, config), opening, s, until, config)
    requires forall i :: 0 <= i < |quiet| ==> ComesTooEarly(quiet[i], s, until)
    ensures var open := After(NEW, calls + [opening], config);
            var b := After(NEW, calls + [opening] + quiet, config);
            var c := Executed(b, s, started, outcome, finished, config);
            && open.StateOf(s) == Open(until) && About(b, s) == About(open, s)
            && (started < until ==> c == b.(rejected := b.rejected + 1))
            && (started >= until ==>
                  && c.rejected == b.rejected && c.halfOpens == b.halfOpens + 1
                  && (outcome == OtherFailure ==> c.StateOf(s) == HalfOpen && About(c, s).3 == Some(started)))
  {
    var open := After(NEW, calls + [opening], config);
    assert (calls + [opening])[..|calls|] == calls;
    OpeningOpens(After(NEW, calls, config), opening, s, until, config);
    AfterConcat(NEW, calls + [opening], quiet, config);
    OpenAlong(open, quiet, s, until, config);
    var b := After(NEW, calls + [opening] + quiet, config);
    if started < until {
      TooEarlyIsRefused(b, s, started, outcome, finished, config);
    } else {
      InTimeIsLetThrough(b, s, started, outcome, finished, config);
    }
  }

  /** A run of nothing but successes, as the pipeline drives the breaker, opens nothing. */
  lemma {:induction false} SuccessesNeverOpen(calls: seq<Call>, config: Config)
    requires forall i :: 0 <= i < |calls| ==> calls[i].Execute? && calls[i].outcome == Succeeded
    ensures After(NEW, calls, config).opens == 0 && After(NEW, calls, config).state == map[]
    decreases |calls|
  {
    if calls != [] {
      SuccessesNeverOpen(calls[..|calls| - 1], config);
    }
  }

  // ---- The code ----

  class CircuitBreaker {
    var state: map<Subsystem, CircuitState>
    var failureCount: map<Subsystem, nat>
    var successCount: map<Subsystem, nat>
    var lastStateChange: map<Subsystem, int>
    const config: Config
    var opens: nat
    var halfOpens: nat
    var closes: nat
    var rejected: nat
    ghost var autoCloses: nat

    ghost function View(): Breaker
      reads this
    {
      Breaker(state, failureCount, successCount, lastStateChange, opens, halfOpens, closes, rejected, autoCloses)
    }

    ghost predicate Valid()
      reads this
    {
      Inv(View(), config)
    }

    constructor (config: Config)
      ensures Valid() && View() == NEW && this.config == config
    {
      this.config := config;
      state, failureCount, successCount, lastStateChange := map[], map[], map[], map[];
      opens, halfOpens, closes, rejected, autoCloses := 0, 0, 0, 0, 0;
      new;
      RunsKeepInv([], config);
    }

    /** The clock is read twice: when the call starts and when the operation has ended. */
    method Execute(s: Subsystem, started: int, outcome: Outcome, finished: int) returns (verdict: Verdict)
      requires Valid()
      modifies this
      ensures Valid()
      ensures View() == Executed(old(View()), s, started, outcome, finished, config)
      ensures verdict == Refused <==> s in old(state) && old(state)[s].Open? && started < old(state)[s].until
      ensures verdict == Refused ==> View() == old(View()).(rejected := old(rejected) + 1)
      ensures verdict != Refused ==> verdict == if outcome == Succeeded then Passed else Failed
    {
      NextInv(View(), Call.Execute(s, started, outcome, finished), config);
      var current := if s in state then state[s] else Closed;
      if current.Open? {
        if started < current.until {
          rejected := rejected + 1;
          return Refused;
        }
        SetState(s, HalfOpen, started);
      }
      match outcome {
        case Succeeded =>
          OnSuccess(s, finished);
          verdict := Passed;
        case TrackedFailure =>
          OnFailure(s, finished);
          verdict := Failed;
        case OtherFailure =>
          verdict := Failed;
      }
    }

    method OnSuccess(s: Subsystem, now: int)
      modifies this
      ensures View() == AfterSuccess(old(View()), s, now, config)
    {
      var count := (if s in successCount then successCount[s] else 0) + 1;
      successCount := successCount[s := count];
      if count >= config.successThreshold && s in state && state[s] == HalfOpen {
        autoCloses := autoCloses + 1;
        Close(s, now);
      }
    }

    method OnFailure(s: Subsystem, now: int)
      modifies this
      ensures View() == AfterFailure(old(View()), s, now, config)
    {
      var count := CountFailure(s, now);
      if count >= config.failureThreshold {
        OpenCircuit(s, now);
      }
    }

    method CountFailure(s: Subsystem, now: int) returns (count: nat)
      modifies this`failureCount
      ensures count == CountAfterFailure(old(View()), s, now, config)
      ensures failureCount == old(failureCount)[s := count]
    {
      if s in lastStateChange && now - lastStateChange[s] > config.window {
        failureCount := failureCount[s := 0];
      }
      count := (if s in failureCount then failureCount[s] else 0) + 1;
      failureCount := failureCount[s := count];
    }

    method OpenCircuit(s: Subsystem, now: int)
      modifies this
      ensures View() == Opened(old(View()), s, now, config)
    {
      SetState(s, Open(now + config.halfOpenTimeout), now);
      failureCount := failureCount - {s};
    }

    method SetState(s: Subsystem, newState: CircuitState, now: int)
      modifies this
      ensures View() == Transition(old(View()), s, newState, now)
    {
      state := state[s := newState];
      lastStateChange := lastStateChange[s := now];
      match newState {
        case Open(_) => opens := opens + 1;
        case HalfOpen => halfOpens := halfOpens + 1;
        case Closed => closes := closes + 1;
      }
    }

    method Close(s: Subsystem, now: int)
      modifies this
      ensures View() == ClosedAgain(old(View()), s, now)
    {
      SetState(s, Closed, now);
      failureCount := failureCount - {s};
      successCount := successCount - {s};
    }

    /** Forces the circuit open for an hour; the failure count stays as it is. */
    method ForceOpen(s: Subsystem, now: int)
      requires Valid()
      modifies this
      ensures Valid() && View() == ForcedOpen(old(View()), s, now)
      ensures s in state && state[s] == Open(now + 3_600_000_000_000) && failureCount == old(failureCount)
    {
      NextInv(View(), Call.ForceOpen(s, now), config);
      SetState(s, Open(now + FORCED_OPEN), now);
    }

    method ForceClose(s: Subsystem, now: int)
      requires Valid()
      modifies this
      ensures Valid() && View() == ClosedAgain(old(View()), s, now)
      ensures s in state && state[s] == Closed && s !in failureCount && s !in successCount
    {
      NextInv(View(), Call.ForceClose(s, now), config);
      Close(s, now);
    }

    method ResetSubsystem(s: Subsystem)
      requires Valid()
      modifies this
      ensures Valid() && View() == Reset(old(View()), s)
      ensures s !in state && s !in failureCount && s !in successCount && s !in lastStateChange
    {
      NextInv(View(), ResetCall(s), config);
      state := state - {s};
      failureCount := failureCount - {s};
      successCount := successCount - {s};
      lastStateChange := lastStateChange - {s};
    }
  }
}
