/** The concurrent executor as a state machine: the collector loop of `ExecutePlan` and one
    goroutine per started entry, interleaved in every possible way. `f[i]` is the outcome of
    entry `i`; a run is the list of actions taken. */
module WaveMachine {
  import opened Wrappers
  import opened Protocol
  import opened PlanGraph

  /** `seen` is the copy of the results a goroutine took when it built its context. */
  datatype Stage =
    | Idle
    | Spawned
    | Running(seen: map<int, HandoffResult>)
    | Sent(seen: map<int, HandoffResult>)
    | Collected(seen: map<int, HandoffResult>)

  datatype Verdict = PlanDone | PlanStuck(incomplete: int) | StepFailed(stepNumber: int)

  datatype Phase = Selecting | Collecting(remaining: nat) | Finished(verdict: Verdict)

  datatype State = State(
    phase: Phase,
    wave: nat,                         // waves launched so far
    completed: set<int>,
    results: map<int, HandoffResult>,
    currentStep: nat,
    stages: seq<Stage>,                // one per plan entry
    launched: map<nat, nat>,           // entry -> the wave that launched it
    channel: seq<nat>)                 // entries whose result is in the result channel

  datatype Action = SelectWave | BuildContext(i: nat) | Deliver(i: nat) | CollectResult

  function Init(plan: Plan): State {
    State(Selecting, 0, {}, map[], 0, seq(|plan|, _ => Idle), map[], [])
  }

  predicate Enabled(plan: Plan, s: State, a: Action) {
    match a
    case SelectWave => s.phase.Selecting?
    case BuildContext(i) => i < |s.stages| && s.stages[i].Spawned?
    case Deliver(i) => i < |s.stages| && s.stages[i].Running?
    case CollectResult => s.phase.Collecting? && s.phase.remaining > 0 && s.channel != []
                          && s.channel[0] < |s.stages| && s.stages[s.channel[0]].Sent?
  }

  function Spawn(stages: seq<Stage>, ready: set<nat>): (r: seq<Stage>)
    ensures |r| == |stages|
    ensures forall i: nat | i < |stages| :: r[i] == if i in ready then Spawned else stages[i]
  {
    seq(|stages|, i requires 0 <= i < |stages| => if i in ready then Spawned else stages[i])
  }

  function Launch(plan: Plan, s: State): State {
    var ready := ReadySet(plan, s.completed);
    s.(phase := Collecting(|ready|),
       wave := s.wave + 1,
       stages := Spawn(s.stages, ready),
       launched := s.launched + map i | i in ready :: s.wave + 1)
  }

  function Collect(plan: Plan, f: seq<Outcome>, s: State): State
    requires |f| == |plan| == |s.stages| && Enabled(plan, s, CollectResult)
  {
    var i := s.channel[0];
    var n := plan[i].stepNumber;
    var t := s.(results := s.results[n := f[i].result],
                stages := s.stages[i := Collected(s.stages[i].seen)],
                channel := s.channel[1..]);
    if !Good(f[i]) then
      t.(phase := Finished(StepFailed(n)))
    else
      var done := s.completed + {n};
      t.(completed := done, currentStep := |done|,
         phase := if s.phase.remaining == 1 then Selecting else Collecting(s.phase.remaining - 1))
  }

  function Step(plan: Plan, f: seq<Outcome>, s: State, a: Action): State
    requires |f| == |plan| == |s.stages| && Enabled(plan, s, a)
  {
    match a
    case SelectWave =>
      if |s.completed| >= |plan| then s.(phase := Finished(PlanDone))
      else if ReadySet(plan, s.completed) == {} then
        s.(phase := Finished(PlanStuck(|plan| - |s.completed|)))
      else Launch(plan, s)
    case BuildContext(i) => s.(stages := s.stages[i := Running(s.results)])
    case Deliver(i) => s.(stages := s.stages[i := Sent(s.stages[i].seen)], channel := s.channel + [i])
    case CollectResult => Collect(plan, f, s)
  }

  /** Replays a run; None when some action was not enabled. */
  function Replay(plan: Plan, f: seq<Outcome>, run: seq<Action>): (r: Option<State>)
    requires |f| == |plan|
    ensures r.Some? ==> |r.value.stages| == |plan|
  {
    if run == [] then Some(Init(plan)) else
    var before := Replay(plan, f, run[..|run| - 1]);
    var a := run[|run| - 1];
    if before.None? || !Enabled(plan, before.value, a) then None
    else Some(Step(plan, f, before.value, a))
  }

  ghost predicate IsRun(plan: Plan, f: seq<Outcome>, run: seq<Action>) {
    |f| == |plan| && Replay(plan, f, run).Some?
  }

  ghost function After(plan: Plan, f: seq<Outcome>, run: seq<Action>): (s: State)
    requires IsRun(plan, f, run)
    ensures |s.stages| == |plan|
  {
    Replay(plan, f, run).value
  }

  lemma Extend(plan: Plan, f: seq<Outcome>, run: seq<Action>, a: Action)
    requires IsRun(plan, f, run) && Enabled(plan, After(plan, f, run), a)
    ensures IsRun(plan, f, run + [a])
    ensures After(plan, f, run + [a]) == Step(plan, f, After(plan, f, run), a)
  {
    assert (run + [a])[..|run|] == run;
  }

  // ---- The inductive invariant ----

  predicate InWave(s: State) {
    s.phase.Collecting? || (s.phase.Finished? && s.phase.verdict.StepFailed?)
  }

  /** Number of waves whose entries have all been collected. */
  function Past(s: State): nat {
    if InWave(s) && s.wave > 0 then s.wave - 1 else s.wave
  }

  predicate Shape(plan: Plan, f: seq<Outcome>, s: State) {
    |f| == |plan| == |s.stages| && (InWave(s) ==> s.wave > 0)
  }

  predicate Outstanding(stage: Stage) {
    stage.Spawned? || stage.Running? || stage.Sent?
  }

  function OutstandingSet(stages: seq<Stage>): set<nat> {
    set i: nat | i < |stages| && Outstanding(stages[i])
  }

  predicate HasSeen(stage: Stage) {
    stage.Running? || stage.Sent? || stage.Collected?
  }

  /** Exactly the entries of the first `wave` waves have been launched, each in its own wave. */
  ghost predicate LaunchedOk(plan: Plan, wave: nat, launched: map<nat, nat>, stages: seq<Stage>)
    requires |stages| == |plan|
  {
    && (forall i: nat, k: nat | k < wave && ReadyAt(plan, i, k) :: i in launched)
    && (forall i: nat | i in launched :: 1 <= launched[i] <= wave && ReadyAt(plan, i, launched[i] - 1))
    && (forall i: nat | i < |plan| :: stages[i].Idle? <==> i !in launched)
    && (forall k: nat | k < wave :: !Settled(plan, k))
  }

  /** Entries of past waves have been collected with a good outcome. */
  ghost predicate PastOk(plan: Plan, f: seq<Outcome>, past: nat, launched: map<nat, nat>, stages: seq<Stage>)
    requires |f| == |plan| == |stages|
  {
    forall i: nat | i < |plan| && i in launched && launched[i] <= past :: stages[i].Collected? && Good(f[i])
  }

  /** `completed` holds the past layers and the collected entries of the current wave. */
  ghost predicate CompletedOk(plan: Plan, f: seq<Outcome>, past: set<int>, stages: seq<Stage>, completed: set<int>)
    requires |f| == |plan| == |stages|
  {
    && past <= completed
    && (forall i: nat | i < |plan| && stages[i].Collected? :: plan[i].stepNumber in completed && Good(f[i]))
    && (forall n | n in completed :: n in past || exists i: nat :: CollectedAs(plan, stages, i, n))
  }

  predicate CollectedAs(plan: Plan, stages: seq<Stage>, i: nat, n: int)
    requires |stages| == |plan|
  {
    i < |plan| && stages[i].Collected? && plan[i].stepNumber == n
  }

  ghost predicate CountOk(phase: Phase, stages: seq<Stage>) {
    match phase
    case Collecting(remaining) => remaining == |OutstandingSet(stages)| > 0
    case Selecting => OutstandingSet(stages) == {}
    case Finished(v) => v.StepFailed? || OutstandingSet(stages) == {}
  }

  /** The channel holds each delivered, not yet collected entry once. */
  ghost predicate ChannelOk(stages: seq<Stage>, channel: seq<nat>) {
    && (forall k | 0 <= k < |channel| :: channel[k] < |stages| && stages[channel[k]].Sent?)
    && (forall j, k | 0 <= j < k < |channel| :: channel[j] != channel[k])
    && (forall i: nat | i < |stages| && stages[i].Sent? :: i in channel)
  }

  /** Stored results come from collected entries and hold every number of the past layers. */
  ghost predicate ResultsOk(plan: Plan, f: seq<Outcome>, past: set<int>, stages: seq<Stage>, results: map<int, HandoffResult>)
    requires |f| == |plan| == |stages|
  {
    && (forall n | n in results :: exists i: nat :: CollectedAs(plan, stages, i, n) && results[n] == f[i].result)
    && (forall i: nat | i < |plan| && stages[i].Collected? :: plan[i].stepNumber in results)
    && (forall n | n in past :: n in results && results[n].status.Success?)
  }

  /** Every context was built with all dependencies in hand. */
  ghost predicate ContextsOk(plan: Plan, stages: seq<Stage>)
    requires |stages| == |plan|
  {
    forall i: nat | i < |plan| && HasSeen(stages[i]) :: DependenciesIn(plan[i], stages[i].seen)
  }

  ghost predicate VerdictOk(plan: Plan, f: seq<Outcome>, phase: Phase, wave: nat, launched: map<nat, nat>, completed: set<int>)
    requires |f| == |plan|
  {
    phase.Finished? ==>
      match phase.verdict
      case PlanDone => |completed| == |plan|
      case PlanStuck(incomplete) => Settled(plan, wave) && incomplete == |plan| - |completed| > 0
      case StepFailed(n) => exists i: nat :: FailedEntry(plan, f, wave, launched, i, n)
  }

  /** Entry `i` of the current wave has a bad outcome. */
  predicate FailedEntry(plan: Plan, f: seq<Outcome>, wave: nat, launched: map<nat, nat>, i: nat, n: int)
    requires |f| == |plan|
  {
    i < |plan| && i in launched && launched[i] == wave && !Good(f[i]) && plan[i].stepNumber == n
  }

  predicate HasFailed(s: State) {
    s.phase.Finished? && s.phase.verdict.StepFailed?
  }

  ghost predicate Inv(plan: Plan, f: seq<Outcome>, s: State) {
    && Shape(plan, f, s)
    && LaunchedOk(plan, s.wave, s.launched, s.stages)
    && PastOk(plan, f, Past(s), s.launched, s.stages)
    && (!HasFailed(s) ==> CompletedOk(plan, f, Layer(plan, Past(s)), s.stages, s.completed))
    && CountOk(s.phase, s.stages)
    && ChannelOk(s.stages, s.channel)
    && ResultsOk(plan, f, Layer(plan, Past(s)), s.stages, s.results)
    && ContextsOk(plan, s.stages)
    && VerdictOk(plan, f, s.phase, s.wave, s.launched, s.completed)
    && s.currentStep == |s.completed|
  }

  lemma InitInv(plan: Plan, f: seq<Outcome>)
    requires |f| == |plan|
    ensures Inv(plan, f, Init(plan))
  {
  }

  /** A launched entry's number is in the layer that its wave completes. */
  lemma LaunchedNumber(plan: Plan, s: State, i: nat)
    requires |s.stages| == |plan| && LaunchedOk(plan, s.wave, s.launched, s.stages) && i in s.launched
    ensures i < |plan| && plan[i].stepNumber in Layer(plan, s.wave)
  {
    hide Layer; hide IsReady;
    ReadyEntersLayer(plan, i, s.launched[i] - 1);
    LayerGrows(plan, s.launched[i], s.wave);
  }

  lemma LaunchIsFresh(plan: Plan, s: State, i: nat)
    requires |s.stages| == |plan| && LaunchedOk(plan, s.wave, s.launched, s.stages) && ReadyAt(plan, i, s.wave)
    ensures s.stages[i].Idle? && i !in s.launched
  {
    hide Layer;
    if i in s.launched {
      LaunchedNumber(plan, s, i);
    }
  }

  lemma SelectingCompleted(plan: Plan, f: seq<Outcome>, s: State)
    requires Inv(plan, f, s) && Past(s) == s.wave
    ensures s.completed == Layer(plan, s.wave)
  {
    hide Layer; hide IsReady; hide ResultsOk; hide ChannelOk; hide VerdictOk; hide ContextsOk;
    forall n | n in s.completed ensures n in Layer(plan, s.wave) {
      if n !in Layer(plan, s.wave) {
        var i: nat :| CollectedAs(plan, s.stages, i, n);
        LaunchedNumber(plan, s, i);
      }
    }
  }

  // ---- Every action keeps the invariant ----

  lemma LaunchLaunched(plan: Plan, s: State)
    requires |s.stages| == |plan| && LaunchedOk(plan, s.wave, s.launched, s.stages)
    requires s.completed == Layer(plan, s.wave) && ReadySet(plan, s.completed) != {}
    ensures var t := Launch(plan, s); LaunchedOk(plan, t.wave, t.launched, t.stages)
  {
    hide Layer; hide IsReady;
    forall i: nat ensures i in ReadySet(plan, s.completed) <==> ReadyAt(plan, i, s.wave) {
    }
    forall i: nat | ReadyAt(plan, i, s.wave) ensures i !in s.launched {
      LaunchIsFresh(plan, s, i);
    }
    assert !Settled(plan, s.wave);
    hide ReadySet; hide Settled;
  }

  lemma LaunchInv(plan: Plan, f: seq<Outcome>, s: State)
    requires Inv(plan, f, s) && s.phase.Selecting? && ReadySet(plan, s.completed) != {}
    ensures Inv(plan, f, Launch(plan, s))
  {
    hide Layer; hide IsReady;
    SelectingCompleted(plan, f, s);
    LaunchLaunched(plan, s);
    var t := Launch(plan, s);
    forall i: nat | i in ReadySet(plan, s.completed) ensures s.stages[i].Idle? && i !in s.launched {
      assert ReadyAt(plan, i, s.wave);
      LaunchIsFresh(plan, s, i);
    }
    hide LaunchedOk;
    LaunchStages(plan, f, s);
  }

  /** Launching turns idle entries into spawned ones and touches no other. */
  lemma LaunchStages(plan: Plan, f: seq<Outcome>, s: State)
    requires Inv(plan, f, s) && s.phase.Selecting? && ReadySet(plan, s.completed) != {}
    requires forall i: nat | i in ReadySet(plan, s.completed) :: s.stages[i].Idle? && i !in s.launched
    ensures var t := Launch(plan, s);
            && PastOk(plan, f, s.wave, t.launched, t.stages)
            && CompletedOk(plan, f, Layer(plan, s.wave), t.stages, t.completed)
            && CountOk(t.phase, t.stages)
            && ChannelOk(t.stages, t.channel)
            && ResultsOk(plan, f, Layer(plan, s.wave), t.stages, t.results)
            && ContextsOk(plan, t.stages)
  {
    hide Layer; hide IsReady; hide LaunchedOk; hide VerdictOk;
    var t := Launch(plan, s);
    forall i: nat ensures i in OutstandingSet(t.stages) <==> i in ReadySet(plan, s.completed) {
      assert i !in OutstandingSet(s.stages);
    }
    assert OutstandingSet(t.stages) == ReadySet(plan, s.completed);
    forall i: nat, n ensures CollectedAs(plan, s.stages, i, n) <==> CollectedAs(plan, t.stages, i, n) {
      assert i in ReadySet(plan, s.completed) || i >= |plan| || t.stages[i] == s.stages[i];
    }
    hide ReadySet; hide DependenciesIn;
  }

  lemma FinishInv(plan: Plan, f: seq<Outcome>, s: State)
    requires Inv(plan, f, s) && s.phase.Selecting?
    requires |s.completed| >= |plan| || ReadySet(plan, s.completed) == {}
    ensures Inv(plan, f, Step(plan, f, s, SelectWave))
  {
    hide Layer; hide IsReady; hide LaunchedOk; hide CompletedOk; hide ResultsOk; hide ChannelOk; hide ContextsOk; hide PastOk;
    LayerNumbers(plan, s.wave);
    SelectingCompleted(plan, f, s);
  }

  lemma AdvanceKeepsHistory(plan: Plan, f: seq<Outcome>, s: State, i: nat, stage: Stage)
    requires Inv(plan, f, s) && i < |plan| && Outstanding(s.stages[i]) && Outstanding(stage)
    requires HasSeen(stage) ==> DependenciesIn(plan[i], stage.seen)
    ensures var stages := s.stages[i := stage];
            && LaunchedOk(plan, s.wave, s.launched, stages)
            && PastOk(plan, f, Past(s), s.launched, stages)
            && ContextsOk(plan, stages)
  {
    hide Layer; hide IsReady; hide ChannelOk; hide VerdictOk; hide CompletedOk; hide CountOk; hide ResultsOk;
    hide DependenciesIn; hide Settled;
  }

  lemma AdvanceKeepsCounts(plan: Plan, f: seq<Outcome>, s: State, i: nat, stage: Stage)
    requires Inv(plan, f, s) && i < |plan| && Outstanding(s.stages[i]) && Outstanding(stage)
    ensures var stages := s.stages[i := stage];
            && (!HasFailed(s) ==> CompletedOk(plan, f, Layer(plan, Past(s)), stages, s.completed))
            && CountOk(s.phase, stages)
            && ResultsOk(plan, f, Layer(plan, Past(s)), stages, s.results)
  {
    hide Layer; hide IsReady; hide ChannelOk; hide VerdictOk; hide LaunchedOk; hide PastOk; hide ContextsOk;
    var stages := s.stages[i := stage];
    assert OutstandingSet(stages) == OutstandingSet(s.stages);
    forall j: nat, n ensures CollectedAs(plan, s.stages, j, n) <==> CollectedAs(plan, stages, j, n) {
      assert j == i || j >= |plan| || stages[j] == s.stages[j];
    }
  }

  /** Moving an outstanding entry to another outstanding stage disturbs nothing else. */
  lemma AdvanceStage(plan: Plan, f: seq<Outcome>, s: State, i: nat, stage: Stage)
    requires Inv(plan, f, s) && i < |plan| && Outstanding(s.stages[i]) && Outstanding(stage)
    requires HasSeen(stage) ==> DependenciesIn(plan[i], stage.seen)
    ensures var stages := s.stages[i := stage];
            && LaunchedOk(plan, s.wave, s.launched, stages)
            && PastOk(plan, f, Past(s), s.launched, stages)
            && (!HasFailed(s) ==> CompletedOk(plan, f, Layer(plan, Past(s)), stages, s.completed))
            && CountOk(s.phase, stages)
            && ResultsOk(plan, f, Layer(plan, Past(s)), stages, s.results)
            && ContextsOk(plan, stages)
  {
    AdvanceKeepsHistory(plan, f, s, i, stage);
    AdvanceKeepsCounts(plan, f, s, i, stage);
    assert |s.stages| == |plan| == |f|;
    hide Inv; hide LaunchedOk; hide PastOk; hide CompletedOk; hide CountOk; hide ResultsOk; hide ContextsOk; hide Layer;
  }

  /** An outstanding entry belongs to the current wave and has its dependencies in the past layers. */
  lemma OutstandingIsCurrent(plan: Plan, f: seq<Outcome>, s: State, i: nat)
    requires Inv(plan, f, s) && i < |plan| && Outstanding(s.stages[i])
    ensures InWave(s) && i in s.launched && s.launched[i] == s.wave && ReadyAt(plan, i, s.wave - 1)
  {
    hide Layer; hide IsReady; hide ChannelOk; hide VerdictOk; hide ResultsOk; hide ContextsOk; hide CompletedOk;
    assert i in OutstandingSet(s.stages);
  }

  lemma BuildContextInv(plan: Plan, f: seq<Outcome>, s: State, i: nat)
    requires Inv(plan, f, s) && Enabled(plan, s, BuildContext(i))
    ensures Inv(plan, f, Step(plan, f, s, BuildContext(i)))
  {
    hide Layer; hide LaunchedOk; hide PastOk; hide CompletedOk; hide CountOk; hide ContextsOk;
    var t := Step(plan, f, s, BuildContext(i));
    OutstandingIsCurrent(plan, f, s, i);
    AdvanceStage(plan, f, s, i, t.stages[i]);
  }

  lemma DeliverInv(plan: Plan, f: seq<Outcome>, s: State, i: nat)
    requires Inv(plan, f, s) && Enabled(plan, s, Deliver(i))
    ensures Inv(plan, f, Step(plan, f, s, Deliver(i)))
  {
    hide Layer; hide LaunchedOk; hide PastOk; hide CompletedOk; hide CountOk; hide ResultsOk;
    var t := Step(plan, f, s, Deliver(i));
    assert i !in s.channel;
    AdvanceStage(plan, f, s, i, t.stages[i]);
    forall j: nat | j < |t.stages| && t.stages[j].Sent? ensures j in t.channel {
      assert j != i ==> j in s.channel;
    }
  }

  /** What collecting entry `i` does to the stages, whatever the outcome. */
  lemma CollectStages(plan: Plan, f: seq<Outcome>, s: State, i: nat)
    requires Inv(plan, f, s) && Enabled(plan, s, CollectResult) && i == s.channel[0]
    ensures var stages := s.stages[i := Collected(s.stages[i].seen)];
            && LaunchedOk(plan, s.wave, s.launched, stages)
            && PastOk(plan, f, Past(s), s.launched, stages)
            && OutstandingSet(stages) == OutstandingSet(s.stages) - {i}
            && ContextsOk(plan, stages)
  {
    hide Layer; hide IsReady; hide VerdictOk; hide ResultsOk; hide CompletedOk; hide CountOk; hide ChannelOk;
  }

  lemma CollectChannel(stages: seq<Stage>, channel: seq<nat>, i: nat)
    requires ChannelOk(stages, channel) && channel != [] && i == channel[0]
    ensures ChannelOk(stages[i := Collected(stages[i].seen)], channel[1..])
  {
    var stages' := stages[i := Collected(stages[i].seen)];
    forall j: nat | j < |stages'| && stages'[j].Sent? ensures j in channel[1..] {
      assert j in channel && j != i;
      var k :| 0 <= k < |channel| && channel[k] == j;
      assert channel[1..][k - 1] == j;
    }
  }

  lemma CollectResults(plan: Plan, f: seq<Outcome>, s: State, i: nat)
    requires Inv(plan, f, s) && Enabled(plan, s, CollectResult) && i == s.channel[0]
    ensures var stages := s.stages[i := Collected(s.stages[i].seen)];
            ResultsOk(plan, f, Layer(plan, s.wave - 1), stages, s.results[plan[i].stepNumber := f[i].result])
  {
    hide Layer; hide LaunchedOk; hide VerdictOk; hide CompletedOk; hide CountOk; hide ContextsOk; hide PastOk;
    OutstandingIsCurrent(plan, f, s, i);
    assert plan[i].stepNumber !in Layer(plan, s.wave - 1);
    var stages, results := s.stages[i := Collected(s.stages[i].seen)], s.results[plan[i].stepNumber := f[i].result];
    forall n | n in results
      ensures exists j: nat :: CollectedAs(plan, stages, j, n) && results[n] == f[j].result
    {
      if n == plan[i].stepNumber {
        assert CollectedAs(plan, stages, i, n);
      } else {
        var j: nat :| CollectedAs(plan, s.stages, j, n) && s.results[n] == f[j].result;
        assert CollectedAs(plan, stages, j, n);
      }
    }
  }

  lemma CollectBadInv(plan: Plan, f: seq<Outcome>, s: State)
    requires Inv(plan, f, s) && Enabled(plan, s, CollectResult) && !Good(f[s.channel[0]])
    ensures Inv(plan, f, Step(plan, f, s, CollectResult))
  {
    hide Layer; hide LaunchedOk; hide PastOk; hide CompletedOk; hide ChannelOk; hide ResultsOk; hide ContextsOk;
    var i := s.channel[0];
    OutstandingIsCurrent(plan, f, s, i);
    CollectStages(plan, f, s, i);
    CollectChannel(s.stages, s.channel, i);
    CollectResults(plan, f, s, i);
    var t := Step(plan, f, s, CollectResult);
    assert FailedEntry(plan, f, t.wave, t.launched, i, plan[i].stepNumber);
  }

  lemma CollectCompleted(plan: Plan, f: seq<Outcome>, s: State, i: nat)
    requires Inv(plan, f, s) && Enabled(plan, s, CollectResult) && i == s.channel[0] && Good(f[i])
    ensures var stages := s.stages[i := Collected(s.stages[i].seen)];
            CompletedOk(plan, f, Layer(plan, s.wave - 1), stages, s.completed + {plan[i].stepNumber})
  {
    hide Layer; hide LaunchedOk; hide VerdictOk; hide ResultsOk; hide CountOk; hide ContextsOk; hide PastOk; hide ChannelOk;
    var stages := s.stages[i := Collected(s.stages[i].seen)];
    var n0 := plan[i].stepNumber;
    assert CollectedAs(plan, stages, i, n0);
    forall j: nat, n | CollectedAs(plan, s.stages, j, n) ensures CollectedAs(plan, stages, j, n) {
    }
  }

  /** When the wave's last result is in, everything launched has been collected well. */
  lemma WaveEnds(plan: Plan, f: seq<Outcome>, wave: nat, launched: map<nat, nat>, stages: seq<Stage>,
                 completed: set<int>, results: map<int, HandoffResult>)
    requires |f| == |plan| == |stages| && wave > 0 && OutstandingSet(stages) == {}
    requires LaunchedOk(plan, wave, launched, stages)
    requires CompletedOk(plan, f, Layer(plan, wave - 1), stages, completed)
    requires ResultsOk(plan, f, Layer(plan, wave - 1), stages, results)
    ensures PastOk(plan, f, wave, launched, stages)
    ensures CompletedOk(plan, f, Layer(plan, wave), stages, completed)
    ensures ResultsOk(plan, f, Layer(plan, wave), stages, results)
  {
    hide IsReady;
    forall i: nat | i < |plan| && i in launched ensures stages[i].Collected? {
      assert i !in OutstandingSet(stages);
    }
    forall n | n in Layer(plan, wave) && n !in Layer(plan, wave - 1)
      ensures n in completed && n in results && results[n].status.Success?
    {
      var i :| i in ReadySet(plan, Layer(plan, wave - 1)) && plan[i].stepNumber == n;
      assert ReadyAt(plan, i, wave - 1);
      assert i in launched;
    }
  }

  lemma CollectGoodInv(plan: Plan, f: seq<Outcome>, s: State)
    requires Inv(plan, f, s) && Enabled(plan, s, CollectResult) && Good(f[s.channel[0]])
    ensures Inv(plan, f, Step(plan, f, s, CollectResult))
  {
    hide Layer; hide LaunchedOk; hide PastOk; hide CompletedOk; hide ChannelOk; hide ResultsOk; hide ContextsOk;
    var i := s.channel[0];
    OutstandingIsCurrent(plan, f, s, i);
    CollectStages(plan, f, s, i);
    CollectChannel(s.stages, s.channel, i);
    CollectResults(plan, f, s, i);
    CollectCompleted(plan, f, s, i);
    var t := Step(plan, f, s, CollectResult);
    assert i in OutstandingSet(s.stages);
    if s.phase.remaining == 1 {
      SubsetSize({i}, OutstandingSet(s.stages));
      WaveEnds(plan, f, s.wave, s.launched, t.stages, t.completed, t.results);
    }
  }

  lemma StepInv(plan: Plan, f: seq<Outcome>, s: State, a: Action)
    requires Inv(plan, f, s) && Enabled(plan, s, a)
    ensures Inv(plan, f, Step(plan, f, s, a))
  {
    assert |f| == |plan| == |s.stages|;
    hide Inv;
    match a
    case SelectWave =>
      if |s.completed| >= |plan| || ReadySet(plan, s.completed) == {} {
        FinishInv(plan, f, s);
      } else {
        LaunchInv(plan, f, s);
      }
    case BuildContext(i) => BuildContextInv(plan, f, s, i);
    case Deliver(i) => DeliverInv(plan, f, s, i);
    case CollectResult =>
      if Good(f[s.channel[0]]) { CollectGoodInv(plan, f, s); } else { CollectBadInv(plan, f, s); }
  }

  lemma {:induction false} RunInv(plan: Plan, f: seq<Outcome>, run: seq<Action>)
    requires IsRun(plan, f, run)
    ensures Inv(plan, f, After(plan, f, run))
  {
    hide Inv;
    if run == [] {
      InitInv(plan, f);
    } else {
      var front := run[..|run| - 1];
      RunInv(plan, f, front);
      StepInv(plan, f, After(plan, f, front), run[|run| - 1]);
    }
  }
}
