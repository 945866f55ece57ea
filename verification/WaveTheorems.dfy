/** What every run of the concurrent plan executor guarantees, in every interleaving. */
module WaveTheorems {
  import opened Protocol
  import opened PlanGraph
  import opened WaveMachine

  ghost predicate FinishedRun(plan: Plan, f: seq<Outcome>, run: seq<Action>) {
    IsRun(plan, f, run) && After(plan, f, run).phase.Finished?
  }

  // ---- Verdict ----

  lemma AllNumbersSettle(plan: Plan, w: nat)
    requires |Layer(plan, w)| == |plan|
    ensures Settled(plan, w)
  {
    hide Layer;
    LayerNumbers(plan, w);
    forall i: nat | i < |plan| ensures plan[i].stepNumber in Layer(plan, w) {
      assert plan[i].stepNumber in Numbers(plan);
    }
  }

  /** A run that did not fail has settled. */
  lemma FinishedSettled(plan: Plan, f: seq<Outcome>, s: State)
    requires Inv(plan, f, s) && s.phase.Finished? && !HasFailed(s)
    ensures Settled(plan, s.wave) && s.completed == Layer(plan, s.wave)
    ensures s.phase.verdict.PlanDone? <==> Schedulable(plan)
  {
    hide Layer; hide LaunchedOk; hide PastOk; hide CompletedOk; hide ChannelOk; hide ResultsOk; hide ContextsOk;
    hide Settled; hide Schedulable;
    SelectingCompleted(plan, f, s);
    if s.phase.verdict.PlanDone? {
      AllNumbersSettle(plan, s.wave);
    }
    SchedulableIffLayersFill(plan, s.wave);
  }

  /** Everything reachable has been launched and went well, unless the run failed. */
  lemma ReachableGood(plan: Plan, f: seq<Outcome>, s: State, i: nat, k: nat)
    requires Inv(plan, f, s) && s.phase.Finished? && !HasFailed(s) && ReadyAt(plan, i, k)
    ensures k < s.wave && i in s.launched && s.stages[i].Collected? && Good(f[i])
  {
    hide Layer; hide IsReady; hide CompletedOk; hide ChannelOk; hide ResultsOk; hide ContextsOk;
    FinishedSettled(plan, f, s);
    SettledStarts(plan, s.wave, i, k);
  }

  lemma DoneReachesAll(plan: Plan, f: seq<Outcome>, s: State, i: nat) returns (k: nat)
    requires Inv(plan, f, s) && s.phase == Finished(PlanDone) && i < |plan|
    ensures Distinct(plan) && k < s.wave && ReadyAt(plan, i, k) && i in s.launched && s.launched[i] == k + 1
  {
    hide Layer; hide IsReady; hide PastOk; hide CompletedOk; hide ChannelOk; hide ResultsOk; hide ContextsOk;
    FinishedSettled(plan, f, s);
    LayerNumbers(plan, s.wave);
    assert plan[i].stepNumber in Numbers(plan);
    var e, j := LayerOrigin(plan, plan[i].stepNumber, s.wave);
    assert e == i;
    k := j;
    ReadyOnce(plan, i, j, s.launched[i] - 1);
  }

  lemma FailureReachable(plan: Plan, f: seq<Outcome>, s: State) returns (i: nat)
    requires Inv(plan, f, s) && HasFailed(s)
    ensures s.wave > 0 && ReadyAt(plan, i, s.wave - 1) && !Good(f[i])
    ensures plan[i].stepNumber == s.phase.verdict.stepNumber
  {
    hide Layer; hide IsReady; hide PastOk; hide CompletedOk; hide ChannelOk; hide ResultsOk; hide ContextsOk;
    i :| FailedEntry(plan, f, s.wave, s.launched, i, s.phase.verdict.stepNumber);
  }

  lemma StateVerdict(plan: Plan, f: seq<Outcome>, s: State)
    requires Inv(plan, f, s) && s.phase.Finished?
    ensures s.phase.verdict.PlanDone? ==> Schedulable(plan) && AllGood(f)
    ensures s.phase.verdict.PlanStuck? ==> !Schedulable(plan)
    ensures s.phase.verdict.StepFailed? <==> exists i: nat :: Reachable(plan, i) && !Good(f[i])
  {
    hide Schedulable;
    if HasFailed(s) {
      var i := FailureReachable(plan, f, s);
      assert Reachable(plan, i);
    } else {
      hide Layer; hide IsReady;
      FinishedSettled(plan, f, s);
      forall i: nat | Reachable(plan, i) ensures Good(f[i]) {
        var k: nat :| ReadyAt(plan, i, k);
        ReachableGood(plan, f, s, i, k);
      }
      if s.phase.verdict.PlanDone? {
        forall i: nat | i < |plan| ensures Good(f[i]) {
          var k := DoneReachesAll(plan, f, s, i);
          assert Reachable(plan, i);
        }
      }
    }
  }

  /** The verdict of every finished run: completed exactly for schedulable plans whose outcomes
      are all good, failed exactly when some startable entry has a bad outcome, stuck otherwise. */
  lemma VerdictExact(plan: Plan, f: seq<Outcome>, run: seq<Action>)
    requires FinishedRun(plan, f, run)
    ensures var v := After(plan, f, run).phase.verdict;
            && (v.PlanDone? <==> Schedulable(plan) && AllGood(f))
            && (v.StepFailed? <==> exists i: nat :: Reachable(plan, i) && !Good(f[i]))
            && (AllGood(f) ==> (v.PlanStuck? <==> !Schedulable(plan)))
  {
    RunInv(plan, f, run);
    hide Inv; hide Schedulable; hide IsRun; hide After; hide Reachable;
    StateVerdict(plan, f, After(plan, f, run));
  }

  // ---- Confluence ----

  predicate SameVerdict(u: Verdict, v: Verdict) {
    (u.PlanDone? <==> v.PlanDone?) && (u.StepFailed? <==> v.StepFailed?)
  }

  /** No finished run stops at an earlier wave than another. */
  lemma NotEarlier(plan: Plan, f: seq<Outcome>, s: State, t: State)
    requires Inv(plan, f, s) && s.phase.Finished? && Inv(plan, f, t) && t.phase.Finished?
    ensures t.wave <= s.wave
  {
    hide Layer; hide IsReady; hide CompletedOk; hide ChannelOk; hide ResultsOk; hide ContextsOk;
    if s.wave < t.wave {
      if HasFailed(s) {
        var i := FailureReachable(plan, f, s);
        assert i in t.launched;
        ReadyOnce(plan, i, s.wave - 1, t.launched[i] - 1);
      } else {
        FinishedSettled(plan, f, s);
      }
    }
  }

  lemma SameLaunches(plan: Plan, s: State, t: State)
    requires |s.stages| == |t.stages| == |plan| && s.wave == t.wave
    requires LaunchedOk(plan, s.wave, s.launched, s.stages) && LaunchedOk(plan, t.wave, t.launched, t.stages)
    ensures s.launched == t.launched
  {
    hide Layer; hide IsReady;
    forall i: nat | i in s.launched ensures i in t.launched && t.launched[i] == s.launched[i] {
      assert ReadyAt(plan, i, s.launched[i] - 1);
      ReadyOnce(plan, i, s.launched[i] - 1, t.launched[i] - 1);
    }
    forall i: nat | i in t.launched ensures i in s.launched {
      assert ReadyAt(plan, i, t.launched[i] - 1);
    }
  }

  /** Two finished runs of the same plan and outcomes start the same entries in the same waves and
      agree on the verdict, in whatever order results arrived; unless they failed, they also agree
      on the completed numbers. */
  lemma Confluence(plan: Plan, f: seq<Outcome>, run: seq<Action>, run': seq<Action>)
    requires FinishedRun(plan, f, run) && FinishedRun(plan, f, run')
    ensures var s, t := After(plan, f, run), After(plan, f, run');
            && SameVerdict(s.phase.verdict, t.phase.verdict)
            && s.wave == t.wave && s.launched == t.launched
            && (!HasFailed(s) ==> s.completed == t.completed && s.phase == t.phase)
  {
    RunInv(plan, f, run);
    RunInv(plan, f, run');
    VerdictExact(plan, f, run);
    VerdictExact(plan, f, run');
    StatesAgree(plan, f, After(plan, f, run), After(plan, f, run'));
  }

  lemma StatesAgree(plan: Plan, f: seq<Outcome>, s: State, t: State)
    requires Inv(plan, f, s) && s.phase.Finished? && Inv(plan, f, t) && t.phase.Finished?
    requires SameVerdict(s.phase.verdict, t.phase.verdict)
    ensures s.wave == t.wave && s.launched == t.launched
    ensures !HasFailed(s) ==> s.completed == t.completed && s.phase == t.phase
  {
    NotEarlier(plan, f, s, t);
    NotEarlier(plan, f, t, s);
    SameLaunches(plan, s, t);
    if !HasFailed(s) {
      FinishedSettled(plan, f, s);
      FinishedSettled(plan, f, t);
    }
  }

  // ---- Results of a completed run ----

  lemma StateResults(plan: Plan, f: seq<Outcome>, s: State)
    requires Inv(plan, f, s) && s.phase == Finished(PlanDone)
    ensures Distinct(plan) && s.completed == Numbers(plan)
    ensures forall i: nat | i < |plan| :: plan[i].stepNumber in s.results && s.results[plan[i].stepNumber] == f[i].result
    ensures forall n | n in s.results :: n in Numbers(plan)
  {
    hide Layer; hide IsReady; hide CompletedOk; hide ChannelOk; hide ContextsOk; hide CountOk; hide Schedulable; hide PastOk;
    hide LaunchedOk; hide Settled;
    FinishedSettled(plan, f, s);
    LayerNumbers(plan, s.wave);
    forall i: nat | i < |plan|
      ensures plan[i].stepNumber in s.results && s.results[plan[i].stepNumber] == f[i].result
    {
      var n := plan[i].stepNumber;
      assert n in Layer(plan, s.wave);
      var j: nat :| CollectedAs(plan, s.stages, j, n) && s.results[n] == f[j].result;
      assert i == j;
    }
    forall n | n in s.results ensures n in Numbers(plan) {
      var j: nat :| CollectedAs(plan, s.stages, j, n) && s.results[n] == f[j].result;
    }
  }

  /** A completed run holds exactly one result per step number: that of its entry. */
  lemma CompletedResults(plan: Plan, f: seq<Outcome>, run: seq<Action>)
    requires FinishedRun(plan, f, run) && After(plan, f, run).phase.verdict.PlanDone?
    ensures HoldsAll(plan, f, After(plan, f, run).results)
    ensures After(plan, f, run).completed == Numbers(plan)
  {
    RunInv(plan, f, run);
    VerdictExact(plan, f, run);
    hide Inv; hide IsRun; hide After; hide Schedulable;
    StateResults(plan, f, After(plan, f, run));
    ResultsCover(plan, f, After(plan, f, run).results);
  }

  lemma ResultsCover(plan: Plan, f: seq<Outcome>, results: map<int, HandoffResult>)
    requires |f| == |plan| && AllGood(f)
    requires forall i: nat | i < |plan| :: plan[i].stepNumber in results && results[plan[i].stepNumber] == f[i].result
    requires forall n | n in results :: n in Numbers(plan)
    ensures HoldsAll(plan, f, results)
  {
    assert forall i: nat | i < |plan| :: Good(f[i]);
    forall n ensures n in results.Keys <==> n in Numbers(plan) {
      if n in Numbers(plan) {
        var i :| 0 <= i < |plan| && plan[i].stepNumber == n;
        assert n in results;
      }
    }
  }

  // ---- Schedule safety ----

  /** How often a run launched entry `i`. */
  ghost function Launches(plan: Plan, f: seq<Outcome>, run: seq<Action>, i: nat): nat
    requires IsRun(plan, f, run)
  {
    if run == [] then 0 else
    var front := run[..|run| - 1];
    var s := After(plan, f, front);
    Launches(plan, f, front, i) +
    if run[|run| - 1].SelectWave? && |s.completed| < |plan| && i in ReadySet(plan, s.completed) then 1 else 0
  }

  lemma LaunchStep(plan: Plan, f: seq<Outcome>, s: State, a: Action, i: nat)
    requires Inv(plan, f, s) && Enabled(plan, s, a)
    ensures var t := Step(plan, f, s, a);
            if a.SelectWave? && |s.completed| < |plan| && i in ReadySet(plan, s.completed)
            then i !in s.launched && i in t.launched
            else i in t.launched <==> i in s.launched
  {
    hide Layer; hide IsReady; hide PastOk; hide CompletedOk; hide ChannelOk; hide ResultsOk; hide ContextsOk;
    hide LaunchedOk;
    if a.SelectWave? && |s.completed| < |plan| && i in ReadySet(plan, s.completed) {
      SelectingCompleted(plan, f, s);
      assert ReadyAt(plan, i, s.wave);
      LaunchIsFresh(plan, s, i);
      assert ReadySet(plan, s.completed) != {};
    }
  }

  /** Each plan entry is launched at most once. */
  lemma {:induction false} LaunchedOnce(plan: Plan, f: seq<Outcome>, run: seq<Action>, i: nat)
    requires IsRun(plan, f, run)
    ensures Launches(plan, f, run, i) == (if i in After(plan, f, run).launched then 1 else 0)
  {
    hide Inv; hide ReadySet;
    if run != [] {
      var front := run[..|run| - 1];
      LaunchedOnce(plan, f, front, i);
      RunInv(plan, f, front);
      LaunchStep(plan, f, After(plan, f, front), run[|run| - 1], i);
      hide Step; hide Enabled;
    }
  }

  lemma StateSafe(plan: Plan, f: seq<Outcome>, s: State, i: nat, d: int) returns (e: nat)
    requires Inv(plan, f, s) && i in s.launched && i < |plan| && d in plan[i].dependsOn
    ensures CollectedAs(plan, s.stages, e, d) && Good(f[e])
    ensures e in s.launched && s.launched[e] < s.launched[i]
    ensures HasSeen(s.stages[i]) ==> d in s.stages[i].seen && s.stages[i].seen[d].status.Success?
  {
    hide Layer; hide CompletedOk; hide ChannelOk; hide ResultsOk; hide CountOk; hide VerdictOk;
    var k := s.launched[i] - 1;
    assert ReadyAt(plan, i, k);
    var j;
    e, j := LayerOrigin(plan, d, k);
    hide IsReady;
    ReadyOnce(plan, e, j, s.launched[e] - 1);
  }

  /** In every reachable state, each dependency of a launched entry belongs to an entry of an earlier
      wave, collected with a good outcome, and a built context holds its successful result. */
  lemma LaunchSafe(plan: Plan, f: seq<Outcome>, run: seq<Action>, i: nat, d: int)
    requires IsRun(plan, f, run) && i in After(plan, f, run).launched
    requires i < |plan| && d in plan[i].dependsOn
    ensures var s := After(plan, f, run);
            && (exists e: nat :: && CollectedAs(plan, s.stages, e, d) && Good(f[e])
                                 && e in s.launched && s.launched[e] < s.launched[i])
            && (HasSeen(s.stages[i]) ==> d in s.stages[i].seen && s.stages[i].seen[d].status.Success?)
  {
    RunInv(plan, f, run);
    hide Inv; hide IsRun;
    var e := StateSafe(plan, f, After(plan, f, run), i, d);
  }

  // ---- Optimal layering ----

  /** Entry `i` was launched in the wave right after the last of its dependencies. */
  ghost predicate TightlyLaunched(plan: Plan, launched: map<nat, nat>, i: nat)
    requires i < |plan|
  {
    && i in launched && launched[i] >= 1
    && (forall e: nat | IsDependency(plan, e, i) :: e in launched && launched[e] < launched[i])
    && (launched[i] > 1 ==> exists e: nat :: IsDependency(plan, e, i) && e in launched && launched[e] == launched[i] - 1)
  }

  predicate IsDependency(plan: Plan, e: nat, i: nat)
    requires i < |plan|
  {
    e < |plan| && plan[e].stepNumber in plan[i].dependsOn
  }

  lemma StateTight(plan: Plan, f: seq<Outcome>, s: State, i: nat)
    requires Inv(plan, f, s) && s.phase == Finished(PlanDone) && i < |plan|
    ensures TightlyLaunched(plan, s.launched, i)
  {
    hide Layer; hide IsReady; hide PastOk; hide CompletedOk; hide ChannelOk; hide ResultsOk; hide ContextsOk; hide CountOk;
    var k := DoneReachesAll(plan, f, s, i);
    forall e: nat | IsDependency(plan, e, i) ensures e in s.launched && s.launched[e] < s.launched[i] {
      var j := DoneReachesAll(plan, f, s, e);
      DependencyEarlier(plan, e, i, j, k);
    }
    if k > 0 {
      var e := TightDependency(plan, i, k);
      assert IsDependency(plan, e, i);
      var j := DoneReachesAll(plan, f, s, e);
      ReadyOnce(plan, e, k - 1, j);
    }
  }

  /** In a completed run each entry starts right after the last of its dependencies. */
  lemma LayeringTight(plan: Plan, f: seq<Outcome>, run: seq<Action>, i: nat)
    requires FinishedRun(plan, f, run) && After(plan, f, run).phase.verdict.PlanDone? && i < |plan|
    ensures TightlyLaunched(plan, After(plan, f, run).launched, i)
  {
    RunInv(plan, f, run);
    hide Inv; hide IsRun; hide After; hide TightlyLaunched;
    StateTight(plan, f, After(plan, f, run), i);
  }

  ghost predicate LongestChain(plan: Plan, w: nat) {
    (forall c :: IsChain(plan, c) ==> |c| <= w) && exists c :: IsChain(plan, c) && |c| == w
  }

  lemma StateLongestChain(plan: Plan, f: seq<Outcome>, s: State)
    requires Inv(plan, f, s) && s.phase == Finished(PlanDone)
    ensures LongestChain(plan, s.wave)
  {
    hide Layer; hide IsReady; hide PastOk; hide CompletedOk; hide ChannelOk; hide ResultsOk; hide ContextsOk; hide CountOk;
    forall c | IsChain(plan, c) && c != [] ensures |c| <= s.wave {
      var k := DoneReachesAll(plan, f, s, c[|c| - 1]);
      ChainBelow(plan, c, k);
    }
    if s.wave == 0 {
      assert IsChain(plan, []);
    } else {
      assert !Settled(plan, s.wave - 1);
      var i :| i in ReadySet(plan, Layer(plan, s.wave - 1));
      assert ReadyAt(plan, i, s.wave - 1);
      var c := ChainTo(plan, i, s.wave - 1);
    }
  }

  /** The number of waves of a completed run is the length of the longest dependency chain. */
  lemma WavesAreLongestChain(plan: Plan, f: seq<Outcome>, run: seq<Action>)
    requires FinishedRun(plan, f, run) && After(plan, f, run).phase.verdict.PlanDone?
    ensures LongestChain(plan, After(plan, f, run).wave)
  {
    RunInv(plan, f, run);
    hide Inv; hide IsRun; hide After; hide LongestChain;
    StateLongestChain(plan, f, After(plan, f, run));
  }

  // ---- Termination and progress ----

  function StageWeight(stage: Stage): nat {
    match stage
    case Idle => 8
    case Spawned => 6
    case Running(_) => 4
    case Sent(_) => 2
    case Collected(_) => 0
  }

  function TotalWeight(stages: seq<Stage>): nat {
    if stages == [] then 0 else TotalWeight(stages[..|stages| - 1]) + StageWeight(stages[|stages| - 1])
  }

  function Rank(s: State): nat {
    TotalWeight(s.stages) + if s.phase.Selecting? then 1 else 0
  }

  /** Lowering some stages lowers the total; a strict drop of two at `i` shows in it. */
  lemma {:induction false} WeightDrops(a: seq<Stage>, b: seq<Stage>, i: nat)
    requires |a| == |b| && forall j: nat | j < |a| :: StageWeight(b[j]) <= StageWeight(a[j])
    ensures TotalWeight(b) <= TotalWeight(a)
    ensures i < |a| && StageWeight(b[i]) + 2 <= StageWeight(a[i]) ==> TotalWeight(b) + 2 <= TotalWeight(a)
  {
    if a != [] {
      WeightDrops(a[..|a| - 1], b[..|b| - 1], i);
    }
  }

  lemma LaunchLowersRank(plan: Plan, f: seq<Outcome>, s: State)
    requires Inv(plan, f, s) && s.phase.Selecting? && ReadySet(plan, s.completed) != {}
    ensures Rank(Launch(plan, s)) < Rank(s)
  {
    hide Layer; hide IsReady; hide PastOk; hide CompletedOk; hide ChannelOk; hide ResultsOk; hide ContextsOk; hide CountOk;
    SelectingCompleted(plan, f, s);
    var t := Launch(plan, s);
    var i :| i in ReadySet(plan, s.completed);
    forall j: nat | j in ReadySet(plan, s.completed) ensures s.stages[j].Idle? {
      assert ReadyAt(plan, j, s.wave);
      LaunchIsFresh(plan, s, j);
    }
    hide LaunchedOk; hide TotalWeight;
    WeightDrops(s.stages, t.stages, i);
  }

  lemma SelectLowersRank(plan: Plan, f: seq<Outcome>, s: State)
    requires Inv(plan, f, s) && s.phase.Selecting?
    ensures Rank(Step(plan, f, s, SelectWave)) < Rank(s)
  {
    hide TotalWeight;
    if |s.completed| < |plan| && ReadySet(plan, s.completed) != {} {
      LaunchLowersRank(plan, f, s);
    }
  }

  lemma CollectLowersRank(plan: Plan, f: seq<Outcome>, s: State)
    requires |f| == |plan| == |s.stages| && Enabled(plan, s, CollectResult)
    ensures Rank(Collect(plan, f, s)) < Rank(s)
  {
    hide TotalWeight;
    var i := s.channel[0];
    MoveLowersWeight(s.stages, i, Collected(s.stages[i].seen));
  }

  /** Every action lowers the rank, so no run can go on forever. */
  lemma StepLowersRank(plan: Plan, f: seq<Outcome>, s: State, a: Action)
    requires Inv(plan, f, s) && Enabled(plan, s, a)
    ensures Rank(Step(plan, f, s, a)) < Rank(s)
  {
    hide ReadySet; hide Layer; hide TotalWeight;
    assert |f| == |plan| == |s.stages|;
    match a
    case SelectWave =>
      hide Inv; hide Launch; hide Rank;
      SelectLowersRank(plan, f, s);
    case BuildContext(i) =>
      hide Inv;
      MoveLowersWeight(s.stages, i, Running(s.results));
    case Deliver(i) =>
      hide Inv;
      MoveLowersWeight(s.stages, i, Sent(s.stages[i].seen));
    case CollectResult =>
      hide Inv; hide Collect; hide Rank;
      CollectLowersRank(plan, f, s);
  }

  lemma MoveLowersWeight(stages: seq<Stage>, i: nat, stage: Stage)
    requires i < |stages| && StageWeight(stage) + 2 <= StageWeight(stages[i])
    ensures TotalWeight(stages[i := stage]) + 2 <= TotalWeight(stages)
  {
    hide TotalWeight;
    WeightDrops(stages, stages[i := stage], i);
  }

  lemma {:induction false} IdleWeight(n: nat)
    ensures TotalWeight(seq(n, _ => Idle)) == 8 * n
  {
    if n > 0 {
      assert seq(n, _ => Idle)[..n - 1] == seq(n - 1, _ => Idle);
      IdleWeight(n - 1);
    }
  }

  /** Every run has at most 8n + 1 actions for a plan of n entries, cyclic or not. */
  lemma {:induction false} RunsEnd(plan: Plan, f: seq<Outcome>, run: seq<Action>)
    requires IsRun(plan, f, run)
    ensures |run| + Rank(After(plan, f, run)) <= 8 * |plan| + 1
  {
    if run == [] {
      IdleWeight(|plan|);
    } else {
      var front := run[..|run| - 1];
      RunsEnd(plan, f, front);
      RunInv(plan, f, front);
      StepLowersRank(plan, f, After(plan, f, front), run[|run| - 1]);
    }
  }

  lemma StateProgress(plan: Plan, f: seq<Outcome>, s: State) returns (a: Action)
    requires Inv(plan, f, s) && !s.phase.Finished?
    ensures Enabled(plan, s, a)
  {
    hide Layer; hide IsReady; hide LaunchedOk; hide PastOk; hide CompletedOk; hide ResultsOk; hide ContextsOk;
    if s.phase.Selecting? {
      a := SelectWave;
    } else {
      var i :| i in OutstandingSet(s.stages);
      a := match s.stages[i] case Spawned => BuildContext(i) case Running(_) => Deliver(i) case _ => CollectResult;
    }
  }

  /** A run that has not finished can always go on: the collector never waits for a result that
      nobody is going to deliver. */
  lemma NoDeadlock(plan: Plan, f: seq<Outcome>, run: seq<Action>)
    requires IsRun(plan, f, run) && !After(plan, f, run).phase.Finished?
    ensures exists a :: IsRun(plan, f, run + [a])
  {
    RunInv(plan, f, run);
    hide Inv;
    var a := StateProgress(plan, f, After(plan, f, run));
    hide Enabled; hide Step;
    Extend(plan, f, run, a);
  }

  /** A wave that can be started completes further numbers. */
  lemma LayerProgress(plan: Plan, k: nat)
    requires !Settled(plan, k)
    ensures |Layer(plan, k)| < |Layer(plan, k + 1)| <= |plan|
  {
    hide IsReady;
    LayerNumbers(plan, k + 1);
    var i :| i in ReadySet(plan, Layer(plan, k));
    assert ReadyAt(plan, i, k);
    ReadyEntersLayer(plan, i, k);
    SubsetSize(Layer(plan, k), Layer(plan, k + 1));
  }

  lemma StepWave(plan: Plan, f: seq<Outcome>, s: State, a: Action)
    requires |f| == |plan| == |s.stages| && Enabled(plan, s, a)
    ensures s.wave <= Step(plan, f, s, a).wave
    ensures s.phase.Finished? ==> Step(plan, f, s, a).phase.Finished?
    ensures a == SelectWave ==> s.wave < Step(plan, f, s, a).wave || Step(plan, f, s, a).phase.Finished?
  {
    hide ReadySet;
  }

  /** Between two visits to the top of the wave loop at least one wave is launched. */
  lemma {:induction false} WaveLaunched(plan: Plan, f: seq<Outcome>, run: seq<Action>, more: seq<Action>)
    requires IsRun(plan, f, run + more) && IsRun(plan, f, run) && After(plan, f, run).phase.Selecting? && more != []
    ensures var s, t := After(plan, f, run), After(plan, f, run + more);
            s.wave < t.wave || (t.phase.Finished? && s.wave <= t.wave)
    decreases |more|
  {
    var front, a := more[..|more| - 1], more[|more| - 1];
    assert run + more == (run + front) + [a];
    assert (run + more)[..|run + front|] == run + front;
    assert IsRun(plan, f, run + front) && Enabled(plan, After(plan, f, run + front), a);
    assert After(plan, f, run + more) == Step(plan, f, After(plan, f, run + front), a);
    hide After; hide IsRun; hide Enabled; hide Step;
    StepWave(plan, f, After(plan, f, run + front), a);
    if front != [] {
      WaveLaunched(plan, f, run, front);
    } else {
      assert run + front == run;
      RunInv(plan, f, run);
      hide Inv;
      SelectingMeansQuiet(plan, f, After(plan, f, run), a);
    }
  }

  /** At the top of the wave loop no goroutine is left to act. */
  lemma SelectingMeansQuiet(plan: Plan, f: seq<Outcome>, s: State, a: Action)
    requires Inv(plan, f, s) && s.phase.Selecting? && Enabled(plan, s, a)
    ensures a == SelectWave
  {
    hide LaunchedOk; hide PastOk; hide CompletedOk; hide ChannelOk; hide ResultsOk; hide ContextsOk;
    forall i: nat | i < |s.stages| ensures !Outstanding(s.stages[i]) {
      assert i !in OutstandingSet(s.stages);
    }
  }

  lemma SelectingLayer(plan: Plan, f: seq<Outcome>, s: State, k: nat)
    requires Inv(plan, f, s) && s.phase.Selecting?
    ensures s.completed == Layer(plan, s.wave) && |Layer(plan, s.wave)| <= |plan|
    ensures k < s.wave ==> !Settled(plan, k)
  {
    hide Layer; hide IsReady; hide PastOk; hide CompletedOk; hide ChannelOk; hide ResultsOk; hide ContextsOk; hide CountOk;
    hide Settled;
    SelectingCompleted(plan, f, s);
    LayerNumbers(plan, s.wave);
  }

  lemma StatesProgress(plan: Plan, f: seq<Outcome>, s: State, t: State)
    requires Inv(plan, f, s) && s.phase.Selecting? && Inv(plan, f, t) && t.phase.Selecting? && s.wave < t.wave
    ensures |s.completed| < |t.completed| <= |plan|
  {
    hide Inv; hide Layer; hide Settled;
    SelectingLayer(plan, f, s, s.wave);
    SelectingLayer(plan, f, t, s.wave);
    LayerProgress(plan, s.wave);
    LayerGrows(plan, s.wave + 1, t.wave);
    SubsetSize(Layer(plan, s.wave + 1), Layer(plan, t.wave));
  }

  /** The count that the wave loop compares with the plan length strictly grows from one visit to the
      top of the loop to any later one of the same run, whatever the plan. */
  lemma WaveProgress(plan: Plan, f: seq<Outcome>, run: seq<Action>, more: seq<Action>)
    requires IsRun(plan, f, run) && IsRun(plan, f, run + more) && more != []
    requires After(plan, f, run).phase.Selecting? && After(plan, f, run + more).phase.Selecting?
    ensures |After(plan, f, run).completed| < |After(plan, f, run + more).completed| <= |plan|
  {
    var s, t := After(plan, f, run), After(plan, f, run + more);
    WaveLaunched(plan, f, run, more);
    RunInv(plan, f, run);
    RunInv(plan, f, run + more);
    hide Inv; hide IsRun; hide After;
    StatesProgress(plan, f, s, t);
  }

  // ---- The entry that stops a run ----

  /** Entry `i` has been collected with a bad outcome. */
  predicate StoppedBy(f: seq<Outcome>, s: State, i: nat) {
    i < |s.stages| && i < |f| && s.stages[i].Collected? && !Good(f[i])
  }

  lemma NoneStopped(plan: Plan, f: seq<Outcome>, s: State, i: nat)
    requires Inv(plan, f, s) && !HasFailed(s)
    ensures !StoppedBy(f, s, i)
  {
    hide LaunchedOk; hide PastOk; hide ChannelOk; hide ResultsOk; hide ContextsOk; hide Layer;
  }

  lemma StepStops(plan: Plan, f: seq<Outcome>, s: State, a: Action, i: nat)
    requires |f| == |plan| == |s.stages| && Enabled(plan, s, a)
    requires StoppedBy(f, Step(plan, f, s, a), i)
    ensures StoppedBy(f, s, i) || (a == CollectResult && !HasFailed(s) && i == s.channel[0])
  {
    hide ReadySet;
  }

  lemma StateOneStopper(plan: Plan, f: seq<Outcome>, s: State, a: Action, i: nat, j: nat)
    requires Inv(plan, f, s) && Enabled(plan, s, a)
    requires StoppedBy(f, s, i) && StoppedBy(f, s, j) ==> i == j
    requires StoppedBy(f, Step(plan, f, s, a), i) && StoppedBy(f, Step(plan, f, s, a), j)
    ensures i == j
  {
    StepStops(plan, f, s, a, i);
    StepStops(plan, f, s, a, j);
    hide Step; hide StoppedBy;
    if !HasFailed(s) {
      NoneStopped(plan, f, s, i);
      NoneStopped(plan, f, s, j);
    }
  }

  /** At most one entry stops a run: nothing is collected after the first bad outcome. */
  lemma {:induction false} OneStopper(plan: Plan, f: seq<Outcome>, run: seq<Action>, i: nat, j: nat)
    requires IsRun(plan, f, run)
    requires StoppedBy(f, After(plan, f, run), i) && StoppedBy(f, After(plan, f, run), j)
    ensures i == j
  {
    if run != [] {
      var front := run[..|run| - 1];
      RunInv(plan, f, front);
      hide Inv; hide Step; hide Enabled; hide StoppedBy;
      if StoppedBy(f, After(plan, f, front), i) && StoppedBy(f, After(plan, f, front), j) {
        OneStopper(plan, f, front, i, j);
      }
      StateOneStopper(plan, f, After(plan, f, front), run[|run| - 1], i, j);
    }
  }

  // ---- What the record holds, failed runs included ----

  lemma StepCompletes(plan: Plan, f: seq<Outcome>, s: State, a: Action, n: int)
    requires |f| == |plan| == |s.stages| && Enabled(plan, s, a)
    requires n in s.completed <==> exists i: nat :: CollectedAs(plan, s.stages, i, n) && Good(f[i])
    requires forall i: nat | i in ReadySet(plan, s.completed) && s.phase.Selecting? :: i < |plan| && s.stages[i].Idle?
    ensures var t := Step(plan, f, s, a);
            n in t.completed <==> exists i: nat :: CollectedAs(plan, t.stages, i, n) && Good(f[i])
  {
    var t := Step(plan, f, s, a);
    hide ReadySet;
    if i: nat :| CollectedAs(plan, s.stages, i, n) && Good(f[i]) {
      assert CollectedAs(plan, t.stages, i, n);
    }
    if a == CollectResult && Good(f[s.channel[0]]) && plan[s.channel[0]].stepNumber == n {
      assert CollectedAs(plan, t.stages, s.channel[0], n);
    }
    if i: nat :| CollectedAs(plan, t.stages, i, n) && Good(f[i]) {
      assert CollectedAs(plan, s.stages, i, n) || (a == CollectResult && i == s.channel[0]);
    }
  }

  lemma ReadyAreIdle(plan: Plan, f: seq<Outcome>, s: State)
    requires Inv(plan, f, s) && s.phase.Selecting?
    ensures forall i: nat | i in ReadySet(plan, s.completed) :: i < |plan| && s.stages[i].Idle?
  {
    hide Layer; hide IsReady; hide PastOk; hide CompletedOk; hide ChannelOk; hide ResultsOk; hide ContextsOk; hide CountOk;
    SelectingCompleted(plan, f, s);
    forall i: nat | i in ReadySet(plan, s.completed) ensures i < |plan| && s.stages[i].Idle? {
      assert ReadyAt(plan, i, s.wave);
      LaunchIsFresh(plan, s, i);
    }
  }

  /** In every reachable state, also of a failed run, the completed numbers are exactly those of the
      entries collected with a good outcome. */
  lemma {:induction false} CompletedExactly(plan: Plan, f: seq<Outcome>, run: seq<Action>, n: int)
    requires IsRun(plan, f, run)
    ensures var s := After(plan, f, run);
            n in s.completed <==> exists i: nat :: CollectedAs(plan, s.stages, i, n) && Good(f[i])
  {
    if run != [] {
      var front, a := run[..|run| - 1], run[|run| - 1];
      CompletedExactly(plan, f, front, n);
      RunInv(plan, f, front);
      var s := After(plan, f, front);
      assert After(plan, f, run) == Step(plan, f, s, a) && Enabled(plan, s, a);
      if s.phase.Selecting? {
        ReadyAreIdle(plan, f, s);
      }
      hide After; hide IsRun; hide Inv; hide Step; hide Enabled; hide ReadySet;
      StepCompletes(plan, f, s, a, n);
    }
  }

  /** In every reachable state the results are exactly those of collected entries, and the current step
      is the number of completed ones. */
  lemma ResultsExactly(plan: Plan, f: seq<Outcome>, run: seq<Action>, n: int)
    requires IsRun(plan, f, run)
    ensures var s := After(plan, f, run);
            && s.currentStep == |s.completed|
            && (n in s.results <==> exists i: nat :: CollectedAs(plan, s.stages, i, n))
            && (n in s.results ==> exists i: nat :: CollectedAs(plan, s.stages, i, n) && s.results[n] == f[i].result)
  {
    RunInv(plan, f, run);
    hide After; hide IsRun; hide Layer; hide LaunchedOk; hide PastOk; hide CompletedOk; hide ChannelOk; hide ContextsOk;
  }
}
