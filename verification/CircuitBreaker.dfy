/** The circuit breaker of pkg/resilience/circuit_breaker.go, and every interleaving of concurrent
    calls protected by it. Each locked method reads the clock once, as `now`, in nanoseconds. */
module CircuitBreaker {

  datatype CircuitState = Closed | Open | HalfOpen

  datatype Config = Config(failureThreshold: int, successThreshold: int, timeout: int, halfOpenMaxCalls: int)

  /** DefaultCircuitBreakerConfig: 5 failures, 3 successes, 30 seconds, 1 half-open call. */
  const DEFAULT_CONFIG := Config(5, 3, 30000000000, 1)

  datatype Breaker = Breaker(state: CircuitState, failureCount: int, successCount: int,
                             lastStateChange: int, halfOpenCalls: int)

  datatype Verdict = Allowed | CircuitOpen | TooManyRequests

  function New(now: int): Breaker {
    Breaker(Closed, 0, 0, now, 0)
  }

  function TransitionTo(b: Breaker, state: CircuitState, now: int): Breaker {
    match state
    case Closed => b.(state := Closed, lastStateChange := now, failureCount := 0, successCount := 0)
    case Open => b.(state := Open, lastStateChange := now, successCount := 0)
    case HalfOpen => b.(state := HalfOpen, lastStateChange := now, halfOpenCalls := 0, successCount := 0)
  }

  function Ask(c: Config, b: Breaker, now: int): Verdict {
    match b.state
    case Closed => Allowed
    case Open => if now - b.lastStateChange >= c.timeout then Allowed else CircuitOpen
    case HalfOpen => if b.halfOpenCalls >= c.halfOpenMaxCalls then TooManyRequests else Allowed
  }

  function AfterAsk(c: Config, b: Breaker, now: int): Breaker {
    if !Ask(c, b, now).Allowed? then b else
    match b.state
    case Closed => b
    case Open => TransitionTo(b, HalfOpen, now).(halfOpenCalls := 1)
    case HalfOpen => b.(halfOpenCalls := b.halfOpenCalls + 1)
  }

  function AfterResult(c: Config, b: Breaker, ok: bool, now: int): Breaker {
    if !ok then
      var b' := b.(failureCount := b.failureCount + 1);
      match b.state
      case Closed => if b'.failureCount >= c.failureThreshold then TransitionTo(b', Open, now) else b'
      case HalfOpen => TransitionTo(b', Open, now)
      case Open => b'
    else
      match b.state
      case Closed => b.(failureCount := 0)
      case HalfOpen =>
        var b' := b.(successCount := b.successCount + 1);
        if b'.successCount >= c.successThreshold then TransitionTo(b', Closed, now) else b'
      case Open => b
  }

  // ---- Concurrent callers ----

  /** `Request` is a caller asking to run, `Result` an admitted caller reporting back. */
  datatype Event = Request(at: int) | Result(at: int, ok: bool) | Reset(at: int) | ForceOpen(at: int)

  /** What an observer of the breaker sees. */
  datatype Obs =
    | Entered(state: CircuitState, at: int)
    | Admitted(at: int)
    | Rejected(at: int, verdict: Verdict)
    | Recorded(at: int, ok: bool)
    | ResetCalled(at: int)

  /** `earlier` counts the calls that were in flight when the half-open state was last entered. */
  datatype System = System(b: Breaker, now: int, inFlight: nat, earlier: nat, log: seq<Obs>)

  function Start(now: int): System {
    System(New(now), now, 0, 0, [Entered(Closed, now)])
  }

  predicate Enabled(s: System, e: Event) {
    s.now <= e.at && (e.Result? ==> s.inFlight > 0)
  }

  function Step(c: Config, s: System, e: Event): System
    requires Enabled(s, e)
  {
    match e
    case Request(at) =>
      var b' := AfterAsk(c, s.b, at);
      if !Ask(c, s.b, at).Allowed? then
        System(b', at, s.inFlight, s.earlier, s.log + [Rejected(at, Ask(c, s.b, at))])
      else if s.b.state.Open? then
        System(b', at, s.inFlight + 1, s.inFlight, s.log + [Entered(HalfOpen, at), Admitted(at)])
      else
        System(b', at, s.inFlight + 1, s.earlier, s.log + [Admitted(at)])
    case Result(at, ok) =>
      var b' := AfterResult(c, s.b, ok, at);
      var log := s.log + [Recorded(at, ok)];
      System(b', at, s.inFlight - 1, s.earlier, if b'.state == s.b.state then log else log + [Entered(b'.state, at)])
    case Reset(at) =>
      System(TransitionTo(s.b, Closed, at), at, s.inFlight, s.earlier, s.log + [ResetCalled(at), Entered(Closed, at)])
    case ForceOpen(at) =>
      System(TransitionTo(s.b, Open, at), at, s.inFlight, s.earlier, s.log + [Entered(Open, at)])
  }

  predicate IsRun(c: Config, s: System, events: seq<Event>)
    decreases |events|
  {
    events == [] || (Enabled(s, events[0]) && IsRun(c, Step(c, s, events[0]), events[1..]))
  }

  function Run(c: Config, s: System, events: seq<Event>): System
    requires IsRun(c, s, events)
    decreases |events|
  {
    if events == [] then s else Run(c, Step(c, s, events[0]), events[1..])
  }

  // ---- The breaker as a function of its history ----

  function LastEntered(log: seq<Obs>): CircuitState {
    if log == [] then Closed
    else if log[|log| - 1].Entered? then log[|log| - 1].state
    else LastEntered(log[..|log| - 1])
  }

  /** Length of the trailing run of failures among the results recorded since a state was entered. */
  function FailureRun(log: seq<Obs>): nat {
    if log == [] then 0 else
    var front, last := log[..|log| - 1], log[|log| - 1];
    match last
    case Entered(_, _) => 0
    case Recorded(_, ok) => if ok then 0 else FailureRun(front) + 1
    case _ => FailureRun(front)
  }

  /** Calls admitted since a state was last entered. */
  function AdmittedSinceEntry(log: seq<Obs>): nat {
    if log == [] then 0 else
    var front, last := log[..|log| - 1], log[|log| - 1];
    match last
    case Entered(_, _) => 0
    case Admitted(_) => AdmittedSinceEntry(front) + 1
    case _ => AdmittedSinceEntry(front)
  }

  /** Successes recorded since a state was last entered. */
  function SuccessesSinceEntry(log: seq<Obs>): nat {
    if log == [] then 0 else
    var front, last := log[..|log| - 1], log[|log| - 1];
    match last
    case Entered(_, _) => 0
    case Recorded(_, ok) => SuccessesSinceEntry(front) + if ok then 1 else 0
    case _ => SuccessesSinceEntry(front)
  }

  /** Failures recorded since the last one that was forgotten: entering closed and, while closed, a
      success forget them all. */
  function FailuresHeld(log: seq<Obs>): nat {
    if log == [] then 0 else
    var front, last := log[..|log| - 1], log[|log| - 1];
    match last
    case Entered(state, _) => if state.Closed? then 0 else FailuresHeld(front)
    case Recorded(_, ok) =>
      if !ok then FailuresHeld(front) + 1 else if LastEntered(front).Closed? then 0 else FailuresHeld(front)
    case _ => FailuresHeld(front)
  }

  /** When a state was last entered. */
  function EnteredAt(log: seq<Obs>): int {
    if log == [] then 0
    else if log[|log| - 1].Entered? then log[|log| - 1].at
    else EnteredAt(log[..|log| - 1])
  }

  function Budget(c: Config): int {
    if c.halfOpenMaxCalls > 1 then c.halfOpenMaxCalls else 1
  }

  predicate NoResetAfter(log: seq<Obs>, i: int) {
    forall k | 0 <= i < k < |log| :: !log[k].ResetCalled?
  }

  predicate Opening(o: Obs) {
    o.Entered? && o.state.Open?
  }

  /** Every call admitted after an opening, with no Reset in between, came a full timeout later. */
  predicate TimeoutRespected(c: Config, log: seq<Obs>) {
    forall i, j | 0 <= i < j < |log| && Opening(log[i]) && log[j].Admitted? && NoResetAfter(log[..j], i) ::
      log[j].at >= log[i].at + c.timeout
  }

  predicate HistoryInv(c: Config, s: System) {
    && s.b.state == LastEntered(s.log) && s.b.lastStateChange == EnteredAt(s.log)
    && s.b.failureCount == FailuresHeld(s.log)
    && (!s.b.state.HalfOpen? ==> s.b.successCount == 0)
    && (s.b.state.Closed? ==> s.b.failureCount == FailureRun(s.log)
                              && (c.failureThreshold >= 1 ==> s.b.failureCount < c.failureThreshold))
  }

  predicate HalfOpenInv(c: Config, s: System) {
    s.b.state.HalfOpen? ==>
      && s.b.halfOpenCalls == AdmittedSinceEntry(s.log)
      && 1 <= s.b.halfOpenCalls <= Budget(c)
      && s.b.successCount == SuccessesSinceEntry(s.log)
      && (c.successThreshold >= 1 ==> s.b.successCount < c.successThreshold)
      && s.b.successCount + s.inFlight == s.b.halfOpenCalls + s.earlier
  }

  /** An opening not followed by Reset either still holds or is a timeout old. */
  predicate OpeningInv(c: Config, s: System) {
    && (forall i | 0 <= i < |s.log| :: s.log[i].at <= s.now)
    && s.b.lastStateChange <= s.now
    && forall i | 0 <= i < |s.log| && Opening(s.log[i]) && NoResetAfter(s.log, i) ::
         if s.b.state.Open? then s.log[i].at <= s.b.lastStateChange else s.log[i].at + c.timeout <= s.now
  }

  lemma LogSnoc(log: seq<Obs>, o: Obs)
    ensures (log + [o])[..|log|] == log
    ensures LastEntered(log + [o]) == if o.Entered? then o.state else LastEntered(log)
    ensures FailureRun(log + [o]) == (match o
                                      case Entered(_, _) => 0
                                      case Recorded(_, ok) => if ok then 0 else FailureRun(log) + 1
                                      case _ => FailureRun(log))
    ensures FailuresHeld(log + [o]) == (match o
                                        case Entered(state, _) => if state.Closed? then 0 else FailuresHeld(log)
                                        case Recorded(_, ok) =>
                                          if !ok then FailuresHeld(log) + 1
                                          else if LastEntered(log).Closed? then 0
                                          else FailuresHeld(log)
                                        case _ => FailuresHeld(log))
    ensures EnteredAt(log + [o]) == if o.Entered? then o.at else EnteredAt(log)
    ensures SuccessesSinceEntry(log + [o]) == (match o
                                               case Entered(_, _) => 0
                                               case Recorded(_, ok) => SuccessesSinceEntry(log) + if ok then 1 else 0
                                               case _ => SuccessesSinceEntry(log))
    ensures AdmittedSinceEntry(log + [o]) == (match o
                                              case Entered(_, _) => 0
                                              case Admitted(_) => AdmittedSinceEntry(log) + 1
                                              case _ => AdmittedSinceEntry(log))
  {
    assert (log + [o])[..|log|] == log;
  }

  lemma LogSnoc2(log: seq<Obs>, o: Obs, p: Obs)
    ensures log + [o, p] == (log + [o]) + [p]
  {
    LogSnoc(log, o);
    LogSnoc(log + [o], p);
  }

  lemma StepHistory(c: Config, s: System, e: Event)
    requires HistoryInv(c, s) && HalfOpenInv(c, s) && Enabled(s, e)
    ensures HistoryInv(c, Step(c, s, e)) && HalfOpenInv(c, Step(c, s, e))
  {
    hide LastEntered; hide FailureRun; hide AdmittedSinceEntry; hide SuccessesSinceEntry; hide EnteredAt;
    hide FailuresHeld;
    match e
    case Request(at) =>
      LogSnoc(s.log, Rejected(at, Ask(c, s.b, at)));
      LogSnoc(s.log, Admitted(at));
      LogSnoc(s.log, Entered(HalfOpen, at));
      LogSnoc(s.log + [Entered(HalfOpen, at)], Admitted(at));
      LogSnoc2(s.log, Entered(HalfOpen, at), Admitted(at));
    case Result(at, ok) =>
      var b' := AfterResult(c, s.b, ok, at);
      LogSnoc(s.log, Recorded(at, ok));
      LogSnoc(s.log + [Recorded(at, ok)], Entered(b'.state, at));
    case Reset(at) =>
      LogSnoc(s.log, ResetCalled(at));
      LogSnoc(s.log + [ResetCalled(at)], Entered(Closed, at));
      LogSnoc2(s.log, ResetCalled(at), Entered(Closed, at));
    case ForceOpen(at) =>
      LogSnoc(s.log, Entered(Open, at));
  }

  lemma StepRespectsTimeout(c: Config, s: System, e: Event)
    requires OpeningInv(c, s) && TimeoutRespected(c, s.log) && Enabled(s, e)
    ensures TimeoutRespected(c, Step(c, s, e).log)
  {
    var t := Step(c, s, e);
    assert s.log <= t.log;
    forall i, j | 0 <= i < j < |t.log| && Opening(t.log[i]) && t.log[j].Admitted? && NoResetAfter(t.log[..j], i)
      ensures t.log[j].at >= t.log[i].at + c.timeout
    {
      if j < |s.log| {
        assert t.log[..j] == s.log[..j];
      } else {
        assert e.Request? && i < |s.log|;
        assert forall k | i < k < |s.log| :: t.log[..j][k] == s.log[k];
        assert NoResetAfter(s.log, i);
      }
    }
  }

  lemma StepOpening(c: Config, s: System, e: Event)
    requires OpeningInv(c, s) && Enabled(s, e)
    ensures OpeningInv(c, Step(c, s, e))
  {
    var t := Step(c, s, e);
    assert s.log <= t.log;
    assert e.Reset? ==> t.log[|s.log|].ResetCalled?;
    forall i | 0 <= i < |t.log| && Opening(t.log[i]) && NoResetAfter(t.log, i)
      ensures if t.b.state.Open? then t.log[i].at <= t.b.lastStateChange else t.log[i].at + c.timeout <= t.now
    {
      if i < |s.log| {
        assert forall k | i < k < |s.log| :: t.log[k] == s.log[k];
        assert NoResetAfter(s.log, i);
      }
    }
  }

  predicate Inv(c: Config, s: System) {
    HistoryInv(c, s) && HalfOpenInv(c, s) && OpeningInv(c, s) && TimeoutRespected(c, s.log)
  }

  lemma StepInv(c: Config, s: System, e: Event)
    requires Inv(c, s) && Enabled(s, e)
    ensures Inv(c, Step(c, s, e))
  {
    StepHistory(c, s, e);
    StepOpening(c, s, e);
    StepRespectsTimeout(c, s, e);
    hide HistoryInv; hide HalfOpenInv; hide OpeningInv; hide TimeoutRespected;
  }

  lemma {:induction false} RunInv(c: Config, s: System, events: seq<Event>)
    requires Inv(c, s) && IsRun(c, s, events)
    ensures Inv(c, Run(c, s, events))
    decreases |events|
  {
    hide Inv; hide Step;
    if events != [] {
      StepInv(c, s, events[0]);
      RunInv(c, Step(c, s, events[0]), events[1..]);
    }
  }

  lemma ReachedInv(c: Config, now: int, events: seq<Event>)
    requires IsRun(c, Start(now), events)
    ensures Inv(c, Run(c, Start(now), events))
  {
    assert [Entered(Closed, now)][..0] == [];
    assert Inv(c, Start(now));
    RunInv(c, Start(now), events);
  }

  /** Under every interleaving of concurrent calls from a new breaker: the state is the last one
      entered, and all counters can be read off the history; while closed, the failure count is the
      trailing run of failures recorded since closed was entered and stays below the threshold; and no
      call is admitted within the timeout of an opening unless Reset came in between. */
  lemma RefinesHistory(c: Config, now: int, events: seq<Event>)
    requires IsRun(c, Start(now), events)
    ensures var s := Run(c, Start(now), events);
            && s.b.state == LastEntered(s.log) && s.b.lastStateChange == EnteredAt(s.log)
            && s.b.failureCount == FailuresHeld(s.log)
            && s.b.successCount == (if s.b.state.HalfOpen? then SuccessesSinceEntry(s.log) else 0)
            && (s.b.state.Closed? ==> s.b.failureCount == FailureRun(s.log))
            && (s.b.state.Closed? && c.failureThreshold >= 1 ==> FailureRun(s.log) < c.failureThreshold)
            && TimeoutRespected(c, s.log)
  {
    ReachedInv(c, now, events);
  }

  /** A closed breaker opens exactly when a failure completes a run of `failureThreshold` failures,
      or by ForceOpen. */
  lemma OpensExactly(c: Config, now: int, events: seq<Event>, e: Event)
    requires IsRun(c, Start(now), events) && Enabled(Run(c, Start(now), events), e)
    requires Run(c, Start(now), events).b.state.Closed? && c.failureThreshold >= 1
    ensures var s := Run(c, Start(now), events);
            var t := Step(c, s, e);
            && !t.b.state.HalfOpen?
            && (t.b.state.Open? <==> e.ForceOpen? || (e.Result? && !e.ok && FailureRun(s.log) + 1 == c.failureThreshold))
  {
    RefinesHistory(c, now, events);
  }

  /** A half-open episode admits at most max(1, halfOpenMaxCalls) calls in all; its successes and
      outstanding calls add up to the calls it admitted and those in flight when it was entered. */
  lemma HalfOpenBudget(c: Config, now: int, events: seq<Event>)
    requires IsRun(c, Start(now), events) && Run(c, Start(now), events).b.state.HalfOpen?
    ensures var s := Run(c, Start(now), events);
            && 1 <= AdmittedSinceEntry(s.log) <= Budget(c)
            && s.b.successCount + s.inFlight == AdmittedSinceEntry(s.log) + s.earlier
  {
    ReachedInv(c, now, events);
  }

  /** Every change of state, in terms of what has been observed. A closed breaker opens on the failure
      that completes a run of failures or by ForceOpen. A half-open one opens on any failed result or by
      ForceOpen, and closes by Reset or on the success that completes the threshold. An open one admits
      a trial once a timeout has passed, and closes by Reset. Nothing else changes the state. */
  lemma TransitionsExact(c: Config, now: int, events: seq<Event>, e: Event)
    requires IsRun(c, Start(now), events) && Enabled(Run(c, Start(now), events), e)
    ensures var s := Run(c, Start(now), events);
            var state := Step(c, s, e).b.state;
            match s.b.state
            case Closed =>
              && !state.HalfOpen?
              && (state.Open? <==> e.ForceOpen? || (e.Result? && !e.ok && FailureRun(s.log) + 1 >= c.failureThreshold))
            case HalfOpen =>
              && (state.Open? <==> e.ForceOpen? || (e.Result? && !e.ok))
              && (state.Closed? <==> e.Reset? || (e.Result? && e.ok && SuccessesSinceEntry(s.log) + 1 >= c.successThreshold))
            case Open =>
              && (state.HalfOpen? <==> e.Request? && e.at - EnteredAt(s.log) >= c.timeout)
              && (state.Closed? <==> e.Reset?)
  {
    ReachedInv(c, now, events);
    hide Run; hide IsRun; hide OpeningInv; hide TimeoutRespected;
    hide LastEntered; hide FailureRun; hide AdmittedSinceEntry; hide SuccessesSinceEntry; hide EnteredAt;
  }

  /** A request is admitted by a closed breaker always, by an open one once the timeout has passed, and by
      a half-open one while the episode has admitted fewer calls than configured; a refusal says which. */
  lemma AdmissionsExact(c: Config, now: int, events: seq<Event>, at: int)
    requires IsRun(c, Start(now), events) && Enabled(Run(c, Start(now), events), Request(at))
    ensures var s := Run(c, Start(now), events);
            var t := Step(c, s, Request(at));
            var admitted := match s.b.state
                            case Closed => true
                            case Open => at - EnteredAt(s.log) >= c.timeout
                            case HalfOpen => AdmittedSinceEntry(s.log) < c.halfOpenMaxCalls;
            && t.log != []
            && t.log[|t.log| - 1] == (if admitted then Admitted(at)
                                      else Rejected(at, if s.b.state.Open? then CircuitOpen else TooManyRequests))
            && t.inFlight == s.inFlight + if admitted then 1 else 0
  {
    ReachedInv(c, now, events);
    hide Run; hide IsRun; hide OpeningInv; hide TimeoutRespected;
    hide LastEntered; hide FailureRun; hide AdmittedSinceEntry; hide SuccessesSinceEntry; hide EnteredAt;
  }

  predicate NoReset(events: seq<Event>) {
    forall i | 0 <= i < |events| :: !events[i].Reset?
  }

  lemma {:induction false} RunExtends(c: Config, s: System, events: seq<Event>)
    requires IsRun(c, s, events) && NoReset(events)
    ensures s.log <= Run(c, s, events).log
    ensures forall k | |s.log| <= k < |Run(c, s, events).log| :: !Run(c, s, events).log[k].ResetCalled?
    decreases |events|
  {
    if events != [] {
      var t := Step(c, s, events[0]);
      assert s.log <= t.log && forall k | |s.log| <= k < |t.log| :: !t.log[k].ResetCalled?;
      hide Step;
      RunExtends(c, t, events[1..]);
    }
  }

  /** After a failed trial nothing is admitted for a full timeout, unless Reset is called. */
  lemma FailedTrialBlocks(c: Config, now: int, events: seq<Event>, at: int, later: seq<Event>)
    requires IsRun(c, Start(now), events)
    requires var s := Run(c, Start(now), events); s.b.state.HalfOpen? && Enabled(s, Result(at, false))
    requires IsRun(c, Step(c, Run(c, Start(now), events), Result(at, false)), later) && NoReset(later)
    ensures var t := Step(c, Run(c, Start(now), events), Result(at, false));
            var log := Run(c, t, later).log;
            forall k | |t.log| <= k < |log| && log[k].Admitted? :: log[k].at >= at + c.timeout
  {
    var s := Run(c, Start(now), events);
    var t := Step(c, s, Result(at, false));
    ReachedInv(c, now, events);
    StepInv(c, s, Result(at, false));
    RunInv(c, t, later);
    RunExtends(c, t, later);
    var log, i := Run(c, t, later).log, |t.log| - 1;
    assert t.log[i] == Entered(Open, at);
    hide Step; hide Run; hide IsRun; hide HistoryInv; hide HalfOpenInv; hide OpeningInv;
    forall k | |t.log| <= k < |log| && log[k].Admitted? ensures log[k].at >= at + c.timeout {
      assert log[i] == t.log[i] && NoResetAfter(log[..k], i);
    }
  }

  // ---- Recovery ----

  /** Events of a recovery in which every trial succeeds and nobody intervenes. */
  predicate Healthy(events: seq<Event>) {
    forall i | 0 <= i < |events| :: events[i].Request? || (events[i].Result? && events[i].ok)
  }

  /** The state right after an open breaker with `s.earlier` calls in flight let its first trial through. */
  predicate FreshEntry(s: System) {
    s.b.state.HalfOpen? && s.b.halfOpenCalls == 1 && s.b.successCount == 0 && s.inFlight == s.earlier + 1
  }

  lemma EntryCounts(c: Config, s: System, at: int)
    requires s.b.state.Open? && s.now <= at && at - s.b.lastStateChange >= c.timeout
    ensures FreshEntry(Step(c, s, Request(at))) && Step(c, s, Request(at)).earlier == s.inFlight
  {
  }

  predicate TrialInv(c: Config, s: System) {
    && s.b.state.HalfOpen? && 1 <= s.b.halfOpenCalls <= Budget(c) && 0 <= s.b.successCount
    && s.b.successCount + s.inFlight == s.b.halfOpenCalls + s.earlier
  }

  lemma RunCons(c: Config, s: System, e: Event, rest: seq<Event>)
    requires Enabled(s, e) && IsRun(c, Step(c, s, e), rest)
    ensures IsRun(c, s, [e] + rest) && Run(c, s, [e] + rest) == Run(c, Step(c, s, e), rest)
  {
    hide Step; hide Enabled;
    assert ([e] + rest)[1..] == rest;
  }

  /** The calls still out and the trials that remain suffice to close the breaker. */
  lemma {:induction false} CanClose(c: Config, s: System) returns (events: seq<Event>)
    requires TrialInv(c, s) && s.b.successCount < Max(1, c.successThreshold)
    requires c.successThreshold <= Budget(c) + s.earlier
    ensures Healthy(events) && IsRun(c, s, events) && Run(c, s, events).b.state.Closed?
    decreases Max(1, c.successThreshold) - s.b.successCount, if s.inFlight == 0 then 1 else 0
  {
    var e := if s.inFlight > 0 then Result(s.now, true) else Request(s.now);
    var t := Step(c, s, e);
    if t.b.state.Closed? {
      events := [e];
      RunCons(c, s, e, []);
      assert [e] + [] == [e];
    } else {
      var rest := CanClose(c, t);
      events := [e] + rest;
      hide Step;
      RunCons(c, s, e, rest);
    }
  }

  function Max(a: int, b: int): int {
    if a >= b then a else b
  }

  /** Above that bound no healthy run ever leaves the half-open state. */
  lemma {:induction false} NeverCloses(c: Config, s: System, events: seq<Event>)
    requires TrialInv(c, s) && c.successThreshold > Budget(c) + s.earlier && Healthy(events) && IsRun(c, s, events)
    ensures TrialInv(c, Run(c, s, events))
    decreases |events|
  {
    if events != [] {
      var t := Step(c, s, events[0]);
      assert TrialInv(c, t) && t.earlier == s.earlier;
      hide Step;
      NeverCloses(c, t, events[1..]);
    }
  }

  /** A breaker whose calls all succeed can close exactly when `successThreshold` is within the
      half-open budget max(1, halfOpenMaxCalls) plus the calls in flight at entry, whose late
      successes count as well. */
  lemma RecoversIff(c: Config, s: System)
    requires FreshEntry(s)
    ensures (exists events :: Healthy(events) && IsRun(c, s, events) && Run(c, s, events).b.state.Closed?)
            <==> c.successThreshold <= Budget(c) + s.earlier
  {
    if c.successThreshold <= Budget(c) + s.earlier {
      var events := CanClose(c, s);
    } else {
      forall events | Healthy(events) && IsRun(c, s, events) ensures !Run(c, s, events).b.state.Closed? {
        NeverCloses(c, s, events);
      }
    }
  }

  /** Half-open, every trial reported, budget spent: no caller can change anything any more. */
  predicate Stuck(c: Config, s: System) {
    s.b.state.HalfOpen? && s.inFlight == 0 && s.b.halfOpenCalls >= c.halfOpenMaxCalls
  }

  predicate NoIntervention(events: seq<Event>) {
    forall i | 0 <= i < |events| :: !events[i].Reset? && !events[i].ForceOpen?
  }

  /** A stuck breaker rejects every later request, however long one waits, until Reset or ForceOpen. */
  lemma {:induction false} StuckForever(c: Config, s: System, events: seq<Event>)
    requires Stuck(c, s) && NoIntervention(events) && IsRun(c, s, events)
    ensures var t := Run(c, s, events);
            && t.b == s.b && t.inFlight == 0
            && s.log <= t.log && forall k | |s.log| <= k < |t.log| :: t.log[k].Rejected? && t.log[k].verdict.TooManyRequests?
    decreases |events|
  {
    if events != [] {
      var t := Step(c, s, events[0]);
      StuckForever(c, t, events[1..]);
    }
  }

  /** Under the default configuration one successful trial leaves the breaker stuck half-open. */
  lemma DefaultConfigSticks(now: int)
    ensures var c := DEFAULT_CONFIG;
            var events := [ForceOpen(now), Request(now + c.timeout), Result(now + c.timeout, true)];
            && IsRun(c, Start(now), events)
            && Stuck(c, Run(c, Start(now), events))
  {
    var c := DEFAULT_CONFIG;
    var e0, e1, e2 := ForceOpen(now), Request(now + c.timeout), Result(now + c.timeout, true);
    var s1 := Step(c, Start(now), e0);
    var s2 := Step(c, s1, e1);
    var s3 := Step(c, s2, e2);
    RunCons(c, s2, e2, []);
    RunCons(c, s1, e1, [e2]);
    RunCons(c, Start(now), e0, [e1, e2]);
    assert [e2] + [] == [e2] && [e1] + [e2] == [e1, e2] && [e0] + [e1, e2] == [e0, e1, e2];
    assert Run(c, s3, []) == s3;
  }

  // ---- The breaker object ----

  class CircuitBreaker {
    const config: Config
    var state: CircuitState
    var failureCount: int
    var successCount: int
    var lastStateChange: int
    var halfOpenCalls: int

    function View(): Breaker
      reads this
    {
      Breaker(state, failureCount, successCount, lastStateChange, halfOpenCalls)
    }

    constructor (config: Config, now: int)
      ensures this.config == config && View() == New(now)
    {
      this.config := config;
      state, failureCount, successCount, lastStateChange, halfOpenCalls := Closed, 0, 0, now, 0;
    }

    method DoTransition(newState: CircuitState, now: int)
      modifies this
      ensures View() == TransitionTo(old(View()), newState, now)
    {
      state := newState;
      lastStateChange := now;
      match newState
      case Closed =>
        failureCount := 0;
        successCount := 0;
      case Open =>
        successCount := 0;
      case HalfOpen =>
        halfOpenCalls := 0;
        successCount := 0;
    }

    method AllowRequest(now: int) returns (verdict: Verdict)
      modifies this
      ensures verdict == Ask(config, old(View()), now)
      ensures View() == AfterAsk(config, old(View()), now)
    {
      match state
      case Closed =>
        return Allowed;
      case Open =>
        if now - lastStateChange >= config.timeout {
          DoTransition(HalfOpen, now);
          halfOpenCalls := 1;
          return Allowed;
        }
        return CircuitOpen;
      case HalfOpen =>
        if halfOpenCalls >= config.halfOpenMaxCalls {
          return TooManyRequests;
        }
        halfOpenCalls := halfOpenCalls + 1;
        return Allowed;
    }

    method RecordResult(ok: bool, now: int)
      modifies this
      ensures View() == AfterResult(config, old(View()), ok, now)
    {
      if !ok {
        RecordFailure(now);
      } else {
        RecordSuccess(now);
      }
    }

    method RecordFailure(now: int)
      modifies this
      ensures View() == AfterResult(config, old(View()), false, now)
    {
      failureCount := failureCount + 1;
      match state
      case Closed =>
        if failureCount >= config.failureThreshold {
          DoTransition(Open, now);
        }
      case HalfOpen =>
        DoTransition(Open, now);
      case Open =>
    }

    method RecordSuccess(now: int)
      modifies this
      ensures View() == AfterResult(config, old(View()), true, now)
    {
      match state
      case Closed =>
        failureCount := 0;
      case HalfOpen =>
        successCount := successCount + 1;
        if successCount >= config.successThreshold {
          DoTransition(Closed, now);
        }
      case Open =>
    }

    method DoReset(now: int)
      modifies this
      ensures View() == TransitionTo(old(View()), Closed, now)
    {
      DoTransition(Closed, now);
    }

    method DoForceOpen(now: int)
      modifies this
      ensures View() == TransitionTo(old(View()), Open, now)
    {
      DoTransition(Open, now);
    }
  }
}
