/** The plan data exchanged by the two plan executors (pkg/coordination/protocol.go). */
module Protocol {
  import opened Wrappers

  /** `Unset` is the empty status string of a completion message that carries neither result nor error. */
  datatype ResultStatus = Success | Error | Partial | Timeout | Unset

  datatype HandoffResult = HandoffResult(agentName: string, status: ResultStatus, content: string)

  datatype PlanStep = PlanStep(stepNumber: int, agent: string, action: string, dependsOn: seq<int>)

  type Plan = seq<PlanStep>

  /** What one call of `Execute` hands back: a result and whether the error was non-nil. */
  datatype Outcome = Outcome(result: HandoffResult, failed: bool)

  /** The outcome under which an executor marks the step complete. */
  predicate Good(o: Outcome) {
    !o.failed && o.result.status.Success?
  }

  predicate AllGood(f: seq<Outcome>) {
    forall i | 0 <= i < |f| :: Good(f[i])
  }

  /** Every dependency of `step` has a successful result in `results`. */
  predicate DependenciesIn(step: PlanStep, results: map<int, HandoffResult>) {
    forall d | d in step.dependsOn :: d in results && results[d].status.Success?
  }

  /** The results a completed execution must hold: one per step number, that of its entry. */
  predicate HoldsAll(plan: Plan, f: seq<Outcome>, results: map<int, HandoffResult>)
    requires |f| == |plan|
  {
    && results.Keys == Numbers(plan)
    && forall i: nat | i < |plan| ::
         plan[i].stepNumber in results && results[plan[i].stepNumber] == f[i].result && f[i].result.status.Success?
  }

  datatype PlanStatus = Executing | Completed | Failed

  datatype PlanError =
    | NoExecutableSteps(incomplete: int)
    | DependencyNotMet(position: int)
    | StepErrored(step: int)
    | StepReturned(step: int, status: ResultStatus)

  /** The execution record that an executor fills in and returns. */
  class PlanExecution {
    const plan: Plan
    var status: PlanStatus
    var currentStep: nat
    var stepResults: map<int, HandoffResult>
    var error: Option<PlanError>

    constructor (plan: Plan)
      ensures this.plan == plan && status == Executing && currentStep == 0 && stepResults == map[] && error == None
    {
      this.plan := plan;
      status, currentStep, stepResults, error := Executing, 0, map[], None;
    }
  }

  /** Step numbers used by the plan. */
  function Numbers(plan: Plan): set<int> {
    set i | 0 <= i < |plan| :: plan[i].stepNumber
  }

  predicate Distinct(plan: Plan) {
    forall i, j | 0 <= i < j < |plan| :: plan[i].stepNumber != plan[j].stepNumber
  }

  lemma NumbersSnoc(plan: Plan)
    requires plan != []
    ensures Numbers(plan) == Numbers(plan[..|plan| - 1]) + {plan[|plan| - 1].stepNumber}
  {
    var n := |plan| - 1;
    var front := plan[..n];
    assert forall i | 0 <= i < n :: front[i] == plan[i];
    forall x | x in Numbers(plan) ensures x in Numbers(front) + {plan[n].stepNumber} {
      var i :| 0 <= i < |plan| && plan[i].stepNumber == x;
      assert i < n ==> front[i].stepNumber == x;
    }
    forall x | x in Numbers(front) ensures x in Numbers(plan) {
      var i :| 0 <= i < n && front[i].stepNumber == x;
      assert plan[i].stepNumber == x;
    }
  }

  lemma DistinctSnoc(plan: Plan)
    requires plan != []
    ensures var front := plan[..|plan| - 1];
            Distinct(plan) <==> Distinct(front) && plan[|plan| - 1].stepNumber !in Numbers(front)
  {
    var n := |plan| - 1;
    var front := plan[..n];
    assert forall i | 0 <= i < n :: front[i] == plan[i];
    if Distinct(plan) {
      assert forall i | 0 <= i < n :: front[i].stepNumber != plan[n].stepNumber;
    }
    if Distinct(front) && plan[n].stepNumber !in Numbers(front) {
      forall i, j | 0 <= i < j < |plan| ensures plan[i].stepNumber != plan[j].stepNumber {
        assert front[i].stepNumber in Numbers(front);
        assert j < n ==> front[j] == plan[j];
      }
    }
  }

  /** Counting step numbers tells duplicated plans from distinct ones. */
  lemma {:induction false} CountNumbers(plan: Plan)
    ensures |Numbers(plan)| <= |plan|
    ensures |Numbers(plan)| == |plan| <==> Distinct(plan)
  {
    if plan != [] {
      CountNumbers(plan[..|plan| - 1]);
      NumbersSnoc(plan);
      DistinctSnoc(plan);
    }
  }

  lemma SubsetSize<T>(a: set<T>, b: set<T>)
    requires a <= b
    ensures |a| <= |b|
    ensures |a| == |b| ==> a == b
  {
    assert b == a + (b - a);
  }
}
