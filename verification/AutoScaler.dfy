/** The auto-scaler of pkg/performance/scaling.go. Times and latencies are integer nanoseconds,
    utilisations are reals. */
module AutoScaler {
  import opened Wrappers

  datatype Metrics = Metrics(cpu: real, memory: real, queueDepth: int, messageRate: real,
                             latency: int, errorRate: real, activeTasks: int)

  datatype Policy = Policy(minInstances: int, maxInstances: int, targetQueueDepth: int, targetLatency: int,
                           scaleUpThreshold: real, scaleDownThreshold: real, cooldown: int,
                           scaleUpStep: int, scaleDownStep: int)

  /** What the scaler holds for one agent type. */
  datatype Track = Track(policy: Policy, count: int, lastScale: Option<int>, history: seq<Metrics>)

  function Truncate(x: real): int {
    if x >= 0.0 then x.Floor else -(-x).Floor
  }

  /** Integer division by two, truncating toward zero. */
  function Half(n: int): int {
    if n >= 0 then n / 2 else -((-n) / 2)
  }

  const ZERO := Metrics(0.0, 0.0, 0, 0.0, 0, 0.0, 0)

  function Plus(a: Metrics, b: Metrics): Metrics {
    Metrics(a.cpu + b.cpu, a.memory + b.memory, a.queueDepth + b.queueDepth, a.messageRate + b.messageRate,
            a.latency + b.latency, a.errorRate + b.errorRate, a.activeTasks + b.activeTasks)
  }

  function Sum(history: seq<Metrics>): Metrics {
    if history == [] then ZERO else Plus(Sum(history[..|history| - 1]), history[|history| - 1])
  }

  function Mean(history: seq<Metrics>): Metrics
    requires history != []
  {
    var s, n := Sum(history), |history| as real;
    Metrics(s.cpu / n, s.memory / n, Truncate(s.queueDepth as real / n), s.messageRate / n,
            Truncate(s.latency as real / n), s.errorRate / n, Truncate(s.activeTasks as real / n))
  }

  predicate Overloaded(m: Metrics, p: Policy) {
    m.cpu > p.scaleUpThreshold || m.memory > p.scaleUpThreshold
    || m.queueDepth > p.targetQueueDepth || m.latency > p.targetLatency
  }

  predicate Underused(m: Metrics, p: Policy) {
    m.cpu < p.scaleDownThreshold && m.memory < p.scaleDownThreshold && m.queueDepth < Half(p.targetQueueDepth)
  }

  function Action(m: Metrics, p: Policy, count: int): int {
    if Overloaded(m, p) then p.scaleUpStep
    else if Underused(m, p) && count > p.minInstances then -p.scaleDownStep
    else 0
  }

  function Clamp(desired: int, p: Policy): int {
    var atLeast := if desired < p.minInstances then p.minInstances else desired;
    if atLeast > p.maxInstances then p.maxInstances else atLeast
  }

  /** The desired count that an evaluation at `now` proposes, if any. */
  function Decide(t: Track, now: int): Option<int> {
    if t.history == [] then None
    else if t.lastScale.Some? && now - t.lastScale.value < t.policy.cooldown then None
    else
      var action := Action(Mean(t.history), t.policy, t.count);
      var desired := Clamp(t.count + action, t.policy);
      if action == 0 || desired == t.count then None else Some(desired)
  }

  /** Outside the cooldown and for positive steps, a count within the limits is raised exactly when some
      average is above its threshold and there is room above, and lowered exactly when none is, CPU and
      memory are below the lower threshold, the queue is shorter than half its target (cut off to a whole
      number), and the count is above the minimum; a step is cut short only by a limit. */
  lemma DirectionExact(t: Track, now: int)
    requires t.policy.minInstances <= t.count <= t.policy.maxInstances
    requires t.policy.scaleUpStep > 0 && t.policy.scaleDownStep > 0 && t.history != []
    requires t.lastScale.Some? ==> now - t.lastScale.value >= t.policy.cooldown
    ensures var p, m, d := t.policy, Mean(t.history), Decide(t, now);
            var busy := m.cpu > p.scaleUpThreshold || m.memory > p.scaleUpThreshold
                        || m.queueDepth > p.targetQueueDepth || m.latency > p.targetLatency;
            var idle := m.cpu < p.scaleDownThreshold && m.memory < p.scaleDownThreshold
                        && if p.targetQueueDepth >= 0 then 2 * m.queueDepth + 2 <= p.targetQueueDepth
                           else 2 * m.queueDepth < p.targetQueueDepth;
            && (d.Some? && d.value > t.count <==> busy && t.count < p.maxInstances)
            && (d.Some? && d.value < t.count <==> idle && !busy && t.count > p.minInstances)
            && (d.Some? && d.value > t.count ==>
                  d.value == t.count + p.scaleUpStep || d.value == p.maxInstances < t.count + p.scaleUpStep)
            && (d.Some? && d.value < t.count ==>
                  d.value == t.count - p.scaleDownStep || d.value == p.minInstances > t.count - p.scaleDownStep)
  {
    hide Mean;
  }

  /** Within the cooldown, and without records, nothing is proposed. */
  lemma NoDecisionWhileCooling(t: Track, now: int)
    ensures t.history == [] || (t.lastScale.Some? && now - t.lastScale.value < t.policy.cooldown) ==> Decide(t, now).None?
  {
  }

  function Remember(history: seq<Metrics>, m: Metrics, historySize: int): seq<Metrics> {
    (if |history| >= historySize && history != [] then history[1..] else history) + [m]
  }

  function AfterTick(t: Track, evaluatedAt: int, appliedAt: int, scaled: bool): Track {
    match Decide(t, evaluatedAt)
    case None => t
    case Some(desired) => if scaled then t.(count := desired, lastScale := Some(appliedAt)) else t
  }

  // ---- Runs of the monitor loop for one agent type ----

  /** `scaled` says whether the onScale callback accepted the change. */
  datatype Event = Recorded(at: int, metrics: Metrics) | Tick(at: int, appliedAt: int, scaled: bool)

  datatype Applied = Applied(at: int, delta: int)

  /** `records` is every record ever made, `applied` every change that onScale accepted. */
  datatype System = System(track: Track, now: int, records: seq<Metrics>, applied: seq<Applied>)

  function Start(policy: Policy, initial: int, now: int): System {
    System(Track(policy, initial, None, []), now, [], [])
  }

  function Step(s: System, e: Event, historySize: int): System {
    match e
    case Recorded(at, m) =>
      System(s.track.(history := Remember(s.track.history, m, historySize)), at, s.records + [m], s.applied)
    case Tick(at, appliedAt, scaled) =>
      var t := AfterTick(s.track, at, appliedAt, scaled);
      System(t, appliedAt, s.records,
             if Decide(s.track, at).Some? && scaled then s.applied + [Applied(appliedAt, t.count - s.track.count)] else s.applied)
  }

  predicate InOrder(s: System, e: Event) {
    s.now <= e.at && (e.Tick? ==> e.at <= e.appliedAt)
  }

  predicate IsRun(s: System, events: seq<Event>, historySize: int)
    decreases |events|
  {
    events == [] || (InOrder(s, events[0]) && IsRun(Step(s, events[0], historySize), events[1..], historySize))
  }

  function Run(s: System, events: seq<Event>, historySize: int): System
    decreases |events|
  {
    if events == [] then s else Run(Step(s, events[0], historySize), events[1..], historySize)
  }

  function TotalDelta(applied: seq<Applied>): int {
    if applied == [] then 0 else TotalDelta(applied[..|applied| - 1]) + applied[|applied| - 1].delta
  }

  /** The newest `n` records, or all of them. */
  function Newest(records: seq<Metrics>, n: nat): seq<Metrics> {
    if |records| <= n then records else records[|records| - n..]
  }

  predicate Spaced(applied: seq<Applied>, cooldown: int) {
    forall i, j | 0 <= i < j < |applied| :: applied[j].at - applied[i].at >= cooldown
  }

  predicate Inv(s: System, initial: int, historySize: int) {
    var t := s.track;
    && historySize >= 1
    && t.policy.minInstances <= t.count <= t.policy.maxInstances
    && TotalDelta(s.applied) == t.count - initial
    && t.history == Newest(s.records, historySize)
    && (t.lastScale.None? <==> s.applied == [])
    && (t.lastScale.Some? ==> t.lastScale.value <= s.now)
    && (forall i | 0 <= i < |s.applied| :: t.lastScale.Some? && s.applied[i].at <= t.lastScale.value)
    && Spaced(s.applied, t.policy.cooldown)
  }

  lemma DeltaSnoc(applied: seq<Applied>, a: Applied)
    ensures TotalDelta(applied + [a]) == TotalDelta(applied) + a.delta
  {
    assert (applied + [a])[..|applied|] == applied;
  }

  /** Dropping the first entry of a full window before appending keeps the newest records. */
  lemma RememberNewest(records: seq<Metrics>, m: Metrics, historySize: nat)
    requires historySize >= 1
    ensures Remember(Newest(records, historySize), m, historySize) == Newest(records + [m], historySize)
  {
  }

  lemma RecordedInv(s: System, at: int, m: Metrics, initial: int, historySize: int)
    requires Inv(s, initial, historySize) && InOrder(s, Recorded(at, m))
    ensures Inv(Step(s, Recorded(at, m), historySize), initial, historySize)
  {
    RememberNewest(s.records, m, historySize);
    hide TotalDelta; hide Remember; hide Newest;
  }

  /** A proposed count lies within the limits, and the cooldown has passed when one is proposed. */
  lemma DecideWithin(t: Track, now: int)
    requires t.policy.minInstances <= t.policy.maxInstances
    requires Decide(t, now).Some?
    ensures t.policy.minInstances <= Decide(t, now).value <= t.policy.maxInstances
    ensures Decide(t, now).value != t.count
    ensures t.lastScale.Some? ==> now - t.lastScale.value >= t.policy.cooldown
  {
    hide Mean; hide Action;
  }

  /** A change applied at `at` is a cooldown after every earlier one when the newest of these is. */
  lemma SpacedSnoc(applied: seq<Applied>, a: Applied, last: int, cooldown: int)
    requires Spaced(applied, cooldown) && a.at - last >= cooldown
    requires forall i | 0 <= i < |applied| :: applied[i].at <= last
    ensures Spaced(applied + [a], cooldown)
  {
  }

  lemma TickInv(s: System, at: int, appliedAt: int, scaled: bool, initial: int, historySize: int)
    requires Inv(s, initial, historySize) && InOrder(s, Tick(at, appliedAt, scaled))
    ensures Inv(Step(s, Tick(at, appliedAt, scaled), historySize), initial, historySize)
    ensures Step(s, Tick(at, appliedAt, scaled), historySize).track.policy == s.track.policy
  {
    hide TotalDelta; hide Decide; hide Newest; hide Spaced;
    if Decide(s.track, at).Some? && scaled {
      DecideWithin(s.track, at);
      var a := Applied(appliedAt, Decide(s.track, at).value - s.track.count);
      DeltaSnoc(s.applied, a);
      var last := if s.applied == [] then appliedAt - s.track.policy.cooldown else s.track.lastScale.value;
      SpacedSnoc(s.applied, a, last, s.track.policy.cooldown);
    }
  }

  lemma StepInv(s: System, e: Event, initial: int, historySize: int)
    requires Inv(s, initial, historySize) && InOrder(s, e)
    ensures Inv(Step(s, e, historySize), initial, historySize)
    ensures Step(s, e, historySize).track.policy == s.track.policy
  {
    hide Inv; hide Decide;
    match e
    case Recorded(at, m) => RecordedInv(s, at, m, initial, historySize);
    case Tick(at, appliedAt, scaled) => TickInv(s, at, appliedAt, scaled, initial, historySize);
  }

  lemma {:induction false} RunInv(s: System, events: seq<Event>, initial: int, historySize: int)
    requires Inv(s, initial, historySize) && IsRun(s, events, historySize)
    ensures Inv(Run(s, events, historySize), initial, historySize)
    ensures Run(s, events, historySize).track.policy == s.track.policy
    decreases |events|
  {
    hide Inv; hide Step;
    if events != [] {
      StepInv(s, events[0], initial, historySize);
      RunInv(Step(s, events[0], historySize), events[1..], initial, historySize);
    }
  }

  /** Runs of the monitor loop: the count stays within the policy limits, applied changes of one agent
      type are a cooldown apart, the accepted changes add up to the count, and decisions are taken on
      exactly the newest `historySize` records. */
  lemma MonitorRuns(policy: Policy, initial: int, now: int, events: seq<Event>, historySize: int)
    requires historySize >= 1 && policy.minInstances <= initial <= policy.maxInstances
    requires IsRun(Start(policy, initial, now), events, historySize)
    ensures var s := Run(Start(policy, initial, now), events, historySize);
            && s.track.policy == policy
            && policy.minInstances <= s.track.count <= policy.maxInstances
            && Spaced(s.applied, policy.cooldown)
            && TotalDelta(s.applied) == s.track.count - initial
            && s.track.history == Newest(s.records, historySize)
  {
    RunInv(Start(policy, initial, now), events, initial, historySize);
  }

  // ---- The averages ----

  datatype Reading = Cpu | Memory | QueueDepth | MessageRate | Latency | ErrorRate | ActiveTasks

  function Read(m: Metrics, r: Reading): real {
    match r
    case Cpu => m.cpu
    case Memory => m.memory
    case QueueDepth => m.queueDepth as real
    case MessageRate => m.messageRate
    case Latency => m.latency as real
    case ErrorRate => m.errorRate
    case ActiveTasks => m.activeTasks as real
  }

  lemma PlusReads(a: Metrics, b: Metrics, r: Reading)
    ensures Read(Plus(a, b), r) == Read(a, r) + Read(b, r)
  {
  }

  function Times(bound: real, n: nat): real {
    bound * n as real
  }

  lemma OneMore(bound: real, n: nat)
    ensures Times(bound, n + 1) == Times(bound, n) + bound
  {
  }

  lemma {:induction false} SumAtMost(history: seq<Metrics>, r: Reading, bound: real)
    requires forall i | 0 <= i < |history| :: Read(history[i], r) <= bound
    ensures Read(Sum(history), r) <= Times(bound, |history|)
  {
    if history != [] {
      var n := |history| - 1;
      SumAtMost(history[..n], r, bound);
      assert Sum(history) == Plus(Sum(history[..n]), history[n]);
      hide Sum; hide Times;
      PlusReads(Sum(history[..n]), history[n], r);
      hide Read; hide Plus;
      OneMore(bound, n);
    }
  }

  lemma {:induction false} SumAtLeast(history: seq<Metrics>, r: Reading, bound: real)
    requires forall i | 0 <= i < |history| :: Read(history[i], r) >= bound
    ensures Read(Sum(history), r) >= Times(bound, |history|)
  {
    if history != [] {
      var n := |history| - 1;
      SumAtLeast(history[..n], r, bound);
      assert Sum(history) == Plus(Sum(history[..n]), history[n]);
      hide Sum; hide Times;
      PlusReads(Sum(history[..n]), history[n], r);
      hide Read; hide Plus;
      OneMore(bound, n);
    }
  }

  /** The exact share of one reading, before integer fields are truncated. */
  function Share(history: seq<Metrics>, r: Reading): real
    requires history != []
  {
    Read(Sum(history), r) / |history| as real
  }

  lemma Divide(a: real, b: real, n: real)
    requires n > 0.0
    ensures a <= b * n ==> a / n <= b
    ensures a >= b * n ==> a / n >= b
  {
    var q := a / n;
    assert q * n == a;
    assert q > b ==> (q - b) * n > 0.0;
    assert q < b ==> (b - q) * n > 0.0;
  }

  lemma ShareWithin(history: seq<Metrics>, r: Reading, threshold: real)
    requires history != []
    ensures Share(history, r) > threshold ==> exists i :: 0 <= i < |history| && Read(history[i], r) > threshold
    ensures Share(history, r) < threshold ==> exists i :: 0 <= i < |history| && Read(history[i], r) < threshold
  {
    hide Sum; hide Read;
    Divide(Read(Sum(history), r), threshold, |history| as real);
    if forall i | 0 <= i < |history| :: Read(history[i], r) <= threshold {
      SumAtMost(history, r, threshold);
    }
    if forall i | 0 <= i < |history| :: Read(history[i], r) >= threshold {
      SumAtLeast(history, r, threshold);
    }
  }

  /** Truncation toward zero crosses no whole number. */
  lemma TruncateCrosses(x: real, k: int)
    ensures Truncate(x) > k ==> x > k as real
    ensures Truncate(x) < k ==> x < k as real
  {
  }

  /** Readings that are whole numbers. */
  predicate Counted(r: Reading) {
    r.QueueDepth? || r.Latency? || r.ActiveTasks?
  }

  /** Thresholds for counted readings are whole numbers too. */
  predicate WholeIfCounted(r: Reading, threshold: real) {
    Counted(r) ==> threshold == threshold.Floor as real
  }

  lemma MeanIsShare(history: seq<Metrics>, r: Reading, threshold: real)
    requires history != [] && WholeIfCounted(r, threshold)
    ensures Read(Mean(history), r) > threshold ==> Share(history, r) > threshold
    ensures Read(Mean(history), r) < threshold ==> Share(history, r) < threshold
  {
    hide Sum;
    TruncateCrosses(Share(history, r), threshold.Floor);
    hide Truncate;
  }

  /** The plain total of one reading. */
  function Total(history: seq<Metrics>, r: Reading): real {
    if history == [] then 0.0 else Read(history[0], r) + Total(history[1..], r)
  }

  lemma {:induction false} TotalSnoc(history: seq<Metrics>, m: Metrics, r: Reading)
    ensures Total(history + [m], r) == Total(history, r) + Read(m, r)
  {
    hide Read;
    if history == [] {
      assert [] + [m] == [m] && [m][1..] == [];
    } else {
      assert (history + [m])[1..] == history[1..] + [m];
      TotalSnoc(history[1..], m, r);
    }
  }

  lemma {:induction false} SumIsTotal(history: seq<Metrics>, r: Reading)
    ensures Read(Sum(history), r) == Total(history, r)
  {
    if history != [] {
      var front, m := history[..|history| - 1], history[|history| - 1];
      SumIsTotal(front, r);
      assert history == front + [m];
      assert Sum(history) == Plus(Sum(front), m);
      PlusReads(Sum(front), m, r);
      TotalSnoc(front, m, r);
    }
  }

  /** Truncation keeps what is whole and goes toward zero. */
  lemma TruncateExact(x: real)
    ensures x >= 0.0 ==> Truncate(x) as real <= x < (Truncate(x) + 1) as real
    ensures x <= 0.0 ==> (Truncate(x) - 1) as real < x <= Truncate(x) as real
  {
  }

  lemma QuotientTimes(a: real, n: nat)
    requires n > 0
    ensures Times(a / n as real, n) == a
  {
    var x := n as real;
    var q := a / x;
    assert q * x == a;
  }

  lemma TimesMonotonic(a: real, b: real, n: nat)
    requires n > 0 && a < b
    ensures Times(a, n) < Times(b, n)
  {
    var x := n as real;
    assert Times(a, n) == a * x && Times(b, n) == b * x;
    assert x > 0.0 && a < b;
    assert a * x < b * x;
  }

  lemma ShareOfTotal(history: seq<Metrics>, r: Reading)
    requires history != []
    ensures Times(Share(history, r), |history|) == Total(history, r)
  {
    SumIsTotal(history, r);
    QuotientTimes(Total(history, r), |history|);
    hide Sum; hide Total; hide Read; hide Times;
  }

  /** The average is the total over the number of records, for counted readings without its fraction. */
  lemma MeanExact(history: seq<Metrics>, r: Reading)
    requires history != []
    ensures var n, mean, total := |history|, Read(Mean(history), r), Total(history, r);
            && (!Counted(r) ==> Times(mean, n) == total)
            && (Counted(r) && total >= 0.0 ==> Times(mean, n) <= total < Times(mean + 1.0, n))
            && (Counted(r) && total <= 0.0 ==> Times(mean - 1.0, n) < total <= Times(mean, n))
  {
    var n, q, mean := |history|, Share(history, r), Read(Mean(history), r);
    ShareOfTotal(history, r);
    MeanTruncates(history, r);
    assert Times(0.0, n) == 0.0;
    hide Share; hide Mean; hide Read; hide Total; hide Counted; hide Times;
    if q < 0.0 { TimesMonotonic(q, 0.0, n); }
    if q > 0.0 { TimesMonotonic(0.0, q, n); }
    if mean < q { TimesMonotonic(mean, q, n); }
    if q < mean { TimesMonotonic(q, mean, n); }
    if q < mean + 1.0 { TimesMonotonic(q, mean + 1.0, n); }
    if mean - 1.0 < q { TimesMonotonic(mean - 1.0, q, n); }
  }

  lemma MeanTruncates(history: seq<Metrics>, r: Reading)
    requires history != []
    ensures var mean, q := Read(Mean(history), r), Share(history, r);
            && (!Counted(r) ==> mean == q)
            && (Counted(r) && q >= 0.0 ==> mean <= q < mean + 1.0)
            && (Counted(r) && q <= 0.0 ==> mean - 1.0 < q <= mean)
  {
    hide Sum;
    TruncateExact(Share(history, r));
    hide Truncate;
  }

  /** An average exceeds a threshold only if some record of the window does, and falls below one only
      if some record does. */
  lemma MeanWithin(history: seq<Metrics>, r: Reading, threshold: real)
    requires history != [] && WholeIfCounted(r, threshold)
    ensures Read(Mean(history), r) > threshold ==> exists i :: 0 <= i < |history| && Read(history[i], r) > threshold
    ensures Read(Mean(history), r) < threshold ==> exists i :: 0 <= i < |history| && Read(history[i], r) < threshold
  {
    MeanIsShare(history, r, threshold);
    ShareWithin(history, r, threshold);
    hide Mean; hide Share;
  }

  /** A window counts as overloaded only if one of its records does on its own. */
  lemma OverloadNeedsRecord(history: seq<Metrics>, p: Policy)
    requires history != [] && Overloaded(Mean(history), p)
    ensures exists i :: 0 <= i < |history| && Overloaded(history[i], p)
  {
    MeanWithin(history, Cpu, p.scaleUpThreshold);
    MeanWithin(history, Memory, p.scaleUpThreshold);
    MeanWithin(history, QueueDepth, p.targetQueueDepth as real);
    MeanWithin(history, Latency, p.targetLatency as real);
    hide Mean;
  }

  method CalculateAverageMetrics(history: seq<Metrics>) returns (avg: Metrics)
    requires history != []
    ensures avg == Mean(history)
  {
    avg := ZERO;
    var n := |history| as real;
    for i := 0 to |history|
      invariant avg == Sum(history[..i])
    {
      assert history[..i + 1][..i] == history[..i];
      avg := Plus(avg, history[i]);
    }
    assert history[..|history|] == history;
    avg := Metrics(avg.cpu / n, avg.memory / n, Truncate(avg.queueDepth as real / n), avg.messageRate / n,
                   Truncate(avg.latency as real / n), avg.errorRate / n, Truncate(avg.activeTasks as real / n));
  }

  method DetermineScalingAction(m: Metrics, p: Policy, count: int) returns (action: int, reason: string)
    ensures action == Action(m, p, count)
    ensures reason == "" ==> action == 0
  {
    if m.cpu > p.scaleUpThreshold {
      return p.scaleUpStep, "CPU utilization above threshold";
    }
    if m.memory > p.scaleUpThreshold {
      return p.scaleUpStep, "Memory utilization above threshold";
    }
    if m.queueDepth > p.targetQueueDepth {
      return p.scaleUpStep, "Queue depth above target";
    }
    if m.latency > p.targetLatency {
      return p.scaleUpStep, "Latency above target";
    }
    if m.cpu < p.scaleDownThreshold && m.memory < p.scaleDownThreshold
       && m.queueDepth < Half(p.targetQueueDepth) && count > p.minInstances {
      return -p.scaleDownStep, "Low resource utilization";
    }
    return 0, "";
  }

  // ---- The scaler object ----

  datatype ScalingDecision = ScalingDecision(agentType: string, currentCount: int, desiredCount: int)

  /** The effect of one accepted or refused decision on the tracks of all types. */
  function AfterDecision(tracks: map<string, Track>, d: ScalingDecision, now: int, scaled: bool): map<string, Track> {
    if scaled && d.agentType in tracks
    then tracks[d.agentType := tracks[d.agentType].(count := d.desiredCount, lastScale := Some(now))]
    else tracks
  }

  function AfterDecisions(tracks: map<string, Track>, ds: seq<ScalingDecision>, appliedAt: string -> int,
                          scaled: string -> bool): map<string, Track> {
    if ds == [] then tracks
    else
      var d := ds[|ds| - 1];
      AfterDecision(AfterDecisions(tracks, ds[..|ds| - 1], appliedAt, scaled), d, appliedAt(d.agentType), scaled(d.agentType))
  }

  /** When the decisions concern distinct types and are what `Decide` proposes, applying the first `n`
      of them moves exactly the types among these, each by its own tick. */
  lemma {:induction false} DecisionsTick(tracks: map<string, Track>, ds: seq<ScalingDecision>, evaluatedAt: int,
                                         appliedAt: string -> int, scaled: string -> bool, agentType: string)
    requires agentType in tracks
    requires forall i | 0 <= i < |ds| :: ds[i].agentType in tracks
               && Decide(tracks[ds[i].agentType], evaluatedAt) == Some(ds[i].desiredCount)
    requires forall i, j | 0 <= i < j < |ds| :: ds[i].agentType != ds[j].agentType
    ensures AfterDecisions(tracks, ds, appliedAt, scaled).Keys == tracks.Keys
    ensures AfterDecisions(tracks, ds, appliedAt, scaled)[agentType] ==
              if exists i :: 0 <= i < |ds| && ds[i].agentType == agentType
              then AfterTick(tracks[agentType], evaluatedAt, appliedAt(agentType), scaled(agentType))
              else tracks[agentType]
  {
    hide Decide;
    if ds != [] {
      var n := |ds| - 1;
      DecisionsTick(tracks, ds[..n], evaluatedAt, appliedAt, scaled, agentType);
      assert forall i | 0 <= i < n :: ds[..n][i] == ds[i];
    }
  }

  /** `ds` holds exactly one decision for every type that proposes one at `now`, and no others. */
  predicate Proposals(tracks: map<string, Track>, ds: seq<ScalingDecision>, now: int) {
    && (forall i | 0 <= i < |ds| :: Proposed(tracks, ds[i], now))
    && (forall i, j | 0 <= i < j < |ds| :: ds[i].agentType != ds[j].agentType)
    && (forall t | t in tracks && Decide(tracks[t], now).Some? :: exists i :: 0 <= i < |ds| && ds[i].agentType == t)
  }

  predicate Proposed(tracks: map<string, Track>, d: ScalingDecision, now: int) {
    d.agentType in tracks && d.currentCount == tracks[d.agentType].count
    && Decide(tracks[d.agentType], now) == Some(d.desiredCount)
  }

  /** Applying all the proposals of one evaluation makes the tick of every type at once. */
  lemma ProposalsTick(tracks: map<string, Track>, ds: seq<ScalingDecision>, evaluatedAt: int,
                      appliedAt: string -> int, scaled: string -> bool)
    requires Proposals(tracks, ds, evaluatedAt)
    ensures AfterDecisions(tracks, ds, appliedAt, scaled)
            == map t | t in tracks :: AfterTick(tracks[t], evaluatedAt, appliedAt(t), scaled(t))
  {
    hide Decide; hide AfterDecisions;
    forall t | t in tracks
      ensures AfterDecisions(tracks, ds, appliedAt, scaled).Keys == tracks.Keys
      ensures AfterDecisions(tracks, ds, appliedAt, scaled)[t] == AfterTick(tracks[t], evaluatedAt, appliedAt(t), scaled(t))
    {
      DecisionsTick(tracks, ds, evaluatedAt, appliedAt, scaled, t);
    }
    if tracks == map[] {
      NoneApply(ds, appliedAt, scaled);
    }
  }

  lemma {:induction false} NoneApply(ds: seq<ScalingDecision>, appliedAt: string -> int, scaled: string -> bool)
    ensures AfterDecisions(map[], ds, appliedAt, scaled) == map[]
  {
    if ds != [] {
      NoneApply(ds[..|ds| - 1], appliedAt, scaled);
    }
  }

  class AutoScaler {
    var policies: map<string, Policy>
    var currentCounts: map<string, int>
    var lastScaleTime: map<string, int>
    var metricsHistory: map<string, seq<Metrics>>
    const historySize: int

    /** A size that is not positive is replaced by ten. */
    constructor (historySize: int)
      ensures this.historySize == (if historySize <= 0 then 10 else historySize) >= 1
      ensures policies == map[] && currentCounts == map[] && lastScaleTime == map[] && metricsHistory == map[]
    {
      this.historySize := if historySize <= 0 then 10 else historySize;
      policies, currentCounts, lastScaleTime, metricsHistory := map[], map[], map[], map[];
    }

    function TrackOf(agentType: string): Track
      requires agentType in policies
      reads this
    {
      Track(policies[agentType],
            if agentType in currentCounts then currentCounts[agentType] else 0,
            if agentType in lastScaleTime then Some(lastScaleTime[agentType]) else None,
            if agentType in metricsHistory then metricsHistory[agentType] else [])
    }

    function Tracks(): map<string, Track>
      reads this
    {
      map t | t in policies :: TrackOf(t)
    }

    method RegisterAgentType(agentType: string, policy: Policy, initialCount: int)
      modifies this
      ensures policies == old(policies)[agentType := policy] && lastScaleTime == old(lastScaleTime)
      ensures TrackOf(agentType).(lastScale := None) == Track(policy, initialCount, None, [])
      ensures forall t | t in old(policies) && t != agentType :: TrackOf(t) == old(TrackOf(t))
    {
      policies := policies[agentType := policy];
      currentCounts := currentCounts[agentType := initialCount];
      metricsHistory := metricsHistory[agentType := []];
    }

    method RecordMetrics(agentType: string, metrics: Metrics)
      requires historySize >= 1
      modifies this
      ensures policies == old(policies)
      ensures agentType !in policies ==> Tracks() == old(Tracks())
      ensures agentType in policies ==>
                var t := old(TrackOf(agentType));
                Tracks() == old(Tracks())[agentType := t.(history := Remember(t.history, metrics, historySize))]
    {
      var history := if agentType in metricsHistory then metricsHistory[agentType] else [];
      if |history| >= historySize {
        history := history[1..];
      }
      metricsHistory := metricsHistory[agentType := history + [metrics]];
    }

    method EvaluateAgentType(agentType: string, now: int) returns (decision: Option<ScalingDecision>)
      ensures decision.Some? <==> agentType in policies && Decide(TrackOf(agentType), now).Some?
      ensures decision.Some? ==>
                (decision.value == ScalingDecision(agentType, TrackOf(agentType).count, Decide(TrackOf(agentType), now).value))
    {
      if agentType !in policies {
        return None;
      }
      var policy := policies[agentType];
      var history := if agentType in metricsHistory then metricsHistory[agentType] else [];
      if |history| == 0 {
        return None;
      }
      if agentType in lastScaleTime && now - lastScaleTime[agentType] < policy.cooldown {
        return None;
      }
      var avg := CalculateAverageMetrics(history);
      var currentCount := if agentType in currentCounts then currentCounts[agentType] else 0;
      var action, reason := DetermineScalingAction(avg, policy, currentCount);
      if action == 0 {
        return None;
      }
      var desiredCount := currentCount + action;
      if desiredCount < policy.minInstances {
        desiredCount := policy.minInstances;
      }
      if desiredCount > policy.maxInstances {
        desiredCount := policy.maxInstances;
      }
      if desiredCount == currentCount {
        return None;
      }
      return Some(ScalingDecision(agentType, currentCount, desiredCount));
    }

    /** Evaluates every registered type once, in arbitrary order. */
    method Evaluate(now: int) returns (decisions: seq<ScalingDecision>)
      ensures Proposals(Tracks(), decisions, now)
    {
      decisions := [];
      var types := policies.Keys;
      ghost var tracks := Tracks();
      while types != {}
        invariant types <= policies.Keys && tracks == Tracks()
        invariant forall i | 0 <= i < |decisions| :: Proposed(tracks, decisions[i], now) && decisions[i].agentType !in types
        invariant forall i, j | 0 <= i < j < |decisions| :: decisions[i].agentType != decisions[j].agentType
        invariant forall t | t in tracks && t !in types && Decide(tracks[t], now).Some? ::
                    exists i :: 0 <= i < |decisions| && decisions[i].agentType == t
        decreases types
      {
        hide Decide;
        var agentType :| agentType in types;
        assert tracks[agentType] == TrackOf(agentType);
        var decision := EvaluateAgentType(agentType, now);
        ghost var before := decisions;
        if decision.Some? {
          decisions := decisions + [decision.value];
          assert decisions[|before|].agentType == agentType;
        }
        assert forall i | 0 <= i < |before| :: decisions[i] == before[i];
        types := types - {agentType};
      }
    }

    /** `delta` is what the callback is asked for. */
    method ApplyDecision(d: ScalingDecision, now: int, scaled: bool) returns (ok: bool, delta: int)
      modifies this
      ensures ok == scaled && delta == d.desiredCount - d.currentCount
      ensures policies == old(policies)
      ensures Tracks() == AfterDecision(old(Tracks()), d, now, scaled)
    {
      delta := d.desiredCount - d.currentCount;
      if !scaled {
        return false, delta;
      }
      currentCounts := currentCounts[d.agentType := d.desiredCount];
      lastScaleTime := lastScaleTime[d.agentType := now];
      return true, delta;
    }

    method ApplyAll(decisions: seq<ScalingDecision>, appliedAt: string -> int, scaled: string -> bool)
      modifies this
      ensures policies == old(policies)
      ensures Tracks() == AfterDecisions(old(Tracks()), decisions, appliedAt, scaled)
    {
      ghost var was := Tracks();
      hide Tracks; hide AfterDecision;
      for i := 0 to |decisions|
        invariant policies == old(policies)
        invariant Tracks() == AfterDecisions(was, decisions[..i], appliedAt, scaled)
      {
        var d := decisions[i];
        assert decisions[..i + 1][..i] == decisions[..i];
        var _, _ := ApplyDecision(d, appliedAt(d.agentType), scaled(d.agentType));
      }
      assert decisions[..|decisions|] == decisions;
    }

    /** One tick of the monitor loop: each registered type makes the `Tick` step of its own run. */
    method MonitorTick(evaluatedAt: int, appliedAt: string -> int, scaled: string -> bool)
      modifies this
      ensures policies == old(policies)
      ensures Tracks() == map t | t in policies :: AfterTick(old(TrackOf(t)), evaluatedAt, appliedAt(t), scaled(t))
    {
      var decisions := Evaluate(evaluatedAt);
      ProposalsTick(Tracks(), decisions, evaluatedAt, appliedAt, scaled);
      hide AfterTick; hide Proposals; hide AfterDecisions;
      ApplyAll(decisions, appliedAt, scaled);
    }
  }
}
