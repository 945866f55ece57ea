/** `Executor.ExecutePlan` (pkg/coordination/executor.go): the collector's wave loop. The outcome of
    each `Execute` call is given by `f`; results of a wave arrive in an arbitrary order. */
module Executor {
  import opened Wrappers
  import opened Protocol
  import opened PlanGraph
  import opened WaveMachine
  import opened WaveTheorems

  /** One goroutine runs from its context to the collector while the channel is empty. */
  lemma DrainOne(plan: Plan, f: seq<Outcome>, run: seq<Action>, i: nat) returns (run': seq<Action>)
    requires IsRun(plan, f, run)
    requires var s := After(plan, f, run);
             s.phase.Collecting? && s.phase.remaining > 0 && s.channel == [] && i < |plan| && s.stages[i].Spawned?
    ensures IsRun(plan, f, run')
    ensures var s, t := After(plan, f, run), After(plan, f, run');
            && var n := plan[i].stepNumber;
            && t.results == s.results[n := f[i].result]
            && t.channel == []
            && t.stages == s.stages[i := Collected(s.results)]
            && if Good(f[i]) then
                 && t.completed == s.completed + {n} && t.currentStep == |t.completed|
                 && t.phase == (if s.phase.remaining == 1 then Selecting else Collecting(s.phase.remaining - 1))
               else
                 && t.completed == s.completed && t.currentStep == s.currentStep
                 && t.phase == Finished(StepFailed(n))
  {
    var s := After(plan, f, run);
    hide IsRun; hide After;
    Extend(plan, f, run, BuildContext(i));
    var s1 := Step(plan, f, s, BuildContext(i));
    Extend(plan, f, run + [BuildContext(i)], Deliver(i));
    var s2 := Step(plan, f, s1, Deliver(i));
    run' := run + [BuildContext(i)] + [Deliver(i)] + [CollectResult];
    Extend(plan, f, run + [BuildContext(i)] + [Deliver(i)], CollectResult);
    assert s2.channel == [i];
  }

  /** The readiness test of one step, as the two nested loops of the source compute it. */
  method DependenciesCompleted(step: PlanStep, completed: set<int>) returns (allDepsReady: bool)
    ensures allDepsReady <==> forall d | d in step.dependsOn :: d in completed
  {
    allDepsReady := true;
    for k := 0 to |step.dependsOn|
      invariant allDepsReady && forall m | 0 <= m < k :: step.dependsOn[m] in completed
    {
      var dep := step.dependsOn[k];
      if dep !in completed {
        assert dep in step.dependsOn;
        allDepsReady := false;
        break;
      }
    }
  }

  method FindReady(plan: Plan, completed: set<int>) returns (ready: seq<nat>)
    ensures forall i: nat :: i in ready <==> i in ReadySet(plan, completed)
    ensures forall j, k | 0 <= j < k < |ready| :: ready[j] < ready[k]
  {
    ready := [];
    for i := 0 to |plan|
      invariant ready == ReadyList(plan, completed, i)
    {
      if plan[i].stepNumber in completed {
        continue;
      }
      var allDepsReady := DependenciesCompleted(plan[i], completed);
      if allDepsReady {
        ready := ready + [i];
      }
    }
  }

  /** The record reflects the machine state. */
  ghost predicate Reflects(execution: PlanExecution, s: State)
    reads execution
  {
    execution.stepResults == s.results && execution.currentStep == s.currentStep
  }

  /** The error fits the verdict. For a failed step it carries the number of the entry that stopped the
      run, and says whether that entry's call failed or which status it returned. */
  ghost predicate ErrorMatches(plan: Plan, f: seq<Outcome>, error: Option<PlanError>, s: State)
    requires s.phase.Finished? && |plan| == |f|
  {
    match s.phase.verdict
    case PlanDone => error == None
    case PlanStuck(incomplete) => error == Some(NoExecutableSteps(incomplete))
    case StepFailed(n) => exists i: nat :: StoppedBy(f, s, i) && plan[i].stepNumber == n && Blames(error, n, f[i])
  }

  predicate Blames(error: Option<PlanError>, n: int, o: Outcome) {
    && error.Some?
    && (error.value.StepErrored? <==> o.failed)
    && (error.value.StepErrored? ==> error.value.step == n)
    && (!error.value.StepErrored? ==>
          error.value.StepReturned? && error.value.step == n && error.value.status == o.result.status)
  }

  lemma ErrorFits(plan: Plan, f: seq<Outcome>, error: Option<PlanError>, s: State, i: nat)
    requires |f| == |plan| == |s.stages| && i < |plan| && s.stages[i].Collected? && !Good(f[i])
    requires s.phase == Finished(StepFailed(plan[i].stepNumber))
    requires Blames(error, plan[i].stepNumber, f[i])
    ensures ErrorMatches(plan, f, error, s)
  {
    assert StoppedBy(f, s, i);
  }

  /** Collects the results of one wave in arrival order until one is bad. */
  method CollectWave(execution: PlanExecution, plan: Plan, f: seq<Outcome>, ready: set<nat>, before: set<int>,
                     ghost start: seq<Action>)
    returns (completed: set<int>, stopped: bool, ghost run: seq<Action>)
    requires |f| == |plan| && IsRun(plan, f, start) && Reflects(execution, After(plan, f, start))
    requires var s := After(plan, f, start);
             && s.phase == Collecting(|ready|) && s.completed == before && s.channel == []
             && forall i | i in ready :: i < |plan| && s.stages[i].Spawned? && plan[i].stepNumber !in before
    requires ready != {} && execution.status == Executing && execution.error == None
    modifies execution
    ensures IsRun(plan, f, run) && Reflects(execution, After(plan, f, run))
    ensures stopped ==> && HasFailed(After(plan, f, run)) && execution.status == Failed
                        && ErrorMatches(plan, f, execution.error, After(plan, f, run))
    ensures !stopped ==> && After(plan, f, run).phase.Selecting? && After(plan, f, run).channel == []
                         && After(plan, f, run).completed == completed && before < completed
                         && execution.status == Executing && execution.error == None
  {
    hide IsRun; hide After; hide ErrorMatches;
    var pending := ready;
    completed, stopped, run := before, false, start;
    while pending != {}
      invariant IsRun(plan, f, run) && Reflects(execution, After(plan, f, run))
      invariant After(plan, f, run).completed == completed && After(plan, f, run).channel == []
      invariant After(plan, f, run).phase == if pending == {} then Selecting else Collecting(|pending|)
      invariant forall i | i in pending :: i < |plan| && After(plan, f, run).stages[i].Spawned?
      invariant pending <= ready && before <= completed
      invariant pending != ready ==> before != completed
      invariant execution.status == Executing && execution.error == None && !stopped
    {
      var i :| i in pending;
      var result := f[i].result;
      var n := plan[i].stepNumber;
      run := DrainOne(plan, f, run, i);
      execution.stepResults := execution.stepResults[n := result];
      if f[i].failed {
        execution.status, execution.error := Failed, Some(StepErrored(n));
        ErrorFits(plan, f, execution.error, After(plan, f, run), i);
        stopped := true;
        return;
      }
      if !result.status.Success? {
        execution.status, execution.error := Failed, Some(StepReturned(n, result.status));
        ErrorFits(plan, f, execution.error, After(plan, f, run), i);
        stopped := true;
        return;
      }
      completed := completed + {n};
      execution.currentStep := |completed|;
      pending := pending - {i};
    }
  }

  class Executor {
    var planExecutions: map<string, PlanExecution>

    constructor ()
      ensures planExecutions == map[]
    {
      planExecutions := map[];
    }

    method ExecutePlan(id: string, plan: Plan, f: seq<Outcome>) returns (execution: PlanExecution, ghost run: seq<Action>)
      requires |f| == |plan|
      modifies this
      ensures fresh(execution) && execution.plan == plan
      ensures planExecutions == old(planExecutions)[id := execution]
      ensures FinishedRun(plan, f, run) && Reflects(execution, After(plan, f, run))
      ensures ErrorMatches(plan, f, execution.error, After(plan, f, run))
      ensures execution.status == if Schedulable(plan) && AllGood(f) then Completed else Failed
      ensures execution.status == Completed ==> HoldsAll(plan, f, execution.stepResults)
    {
      hide IsRun; hide After; hide Schedulable; hide AllGood; hide HoldsAll; hide Spawn;
      execution := new PlanExecution(plan);
      planExecutions := planExecutions[id := execution];
      run := [];
      EmptyRun(plan, f);
      var completed: set<int> := {};
      while |completed| < |plan|
        invariant IsRun(plan, f, run) && Reflects(execution, After(plan, f, run))
        invariant After(plan, f, run).phase.Selecting? && After(plan, f, run).completed == completed
        invariant After(plan, f, run).channel == []
        invariant execution.status == Executing && execution.error == None && fresh(execution)
        invariant planExecutions == old(planExecutions)[id := execution]
        decreases |plan| - |completed|
      {
        var ready := FindReady(plan, completed);
        StartWave(plan, f, run, completed);
        run := run + [SelectWave];
        if |ready| == 0 {
          execution.status, execution.error := Failed, Some(NoExecutableSteps(|plan| - |completed|));
          VerdictExact(plan, f, run);
          return;
        }
        var wave := set i | i in ready;
        assert ready[0] in wave;
        assert wave == ReadySet(plan, completed);
        ghost var before := completed;
        var stopped;
        completed, stopped, run := CollectWave(execution, plan, f, wave, completed, run);
        if stopped {
          VerdictExact(plan, f, run);
          return;
        }
        SubsetSize(before, completed);
      }
      StartWave(plan, f, run, completed);
      run := run + [SelectWave];
      execution.status := Completed;
      VerdictExact(plan, f, run);
      CompletedResults(plan, f, run);
    }
  }

  lemma EmptyRun(plan: Plan, f: seq<Outcome>)
    requires |f| == |plan|
    ensures IsRun(plan, f, []) && After(plan, f, []) == Init(plan)
  {
  }

  /** The selection step as the top of the wave loop takes it. */
  lemma StartWave(plan: Plan, f: seq<Outcome>, run: seq<Action>, completed: set<int>)
    requires IsRun(plan, f, run) && After(plan, f, run).phase.Selecting? && After(plan, f, run).completed == completed
    ensures IsRun(plan, f, run + [SelectWave])
    ensures var s, t := After(plan, f, run), After(plan, f, run + [SelectWave]);
            var ready := ReadySet(plan, completed);
            && t.results == s.results && t.currentStep == s.currentStep && t.completed == completed && t.channel == s.channel
            && if |completed| >= |plan| then t.phase == Finished(PlanDone)
               else if ready == {} then t.phase == Finished(PlanStuck(|plan| - |completed|))
               else t.phase == Collecting(|ready|) &&
                    forall i | i in ready :: i < |plan| && t.stages[i].Spawned? && plan[i].stepNumber !in completed
  {
    Extend(plan, f, run, SelectWave);
  }
}
