/** `AsyncExecutor.ExecutePlanAsync` (pkg/coordination/async.go): the same plans run one step at a
    time in list order, and its agreement with the concurrent executor. */
module AsyncExecutor {
  import opened Wrappers
  import opened Protocol
  import opened PlanGraph
  import opened WaveMachine
  import opened WaveTheorems

  datatype Ending = Ending(status: PlanStatus, currentStep: nat, results: map<int, HandoffResult>, error: Option<PlanError>)

  /** How the sequential loop ends when it has come to position `i` holding `results`. */
  function RunFrom(plan: Plan, f: seq<Outcome>, i: nat, results: map<int, HandoffResult>): Ending
    requires |f| == |plan| && i <= |plan|
    decreases |plan| - i
  {
    if i == |plan| then Ending(Completed, i, results, None)
    else if !DependenciesIn(plan[i], results) then Ending(Failed, i, results, Some(DependencyNotMet(i + 1)))
    else if f[i].failed then Ending(Failed, i + 1, results, Some(StepErrored(i + 1)))
    else
      var results' := results[plan[i].stepNumber := f[i].result];
      if !f[i].result.status.Success? then
        Ending(Failed, i + 1, results', Some(StepReturned(i + 1, f[i].result.status)))
      else RunFrom(plan, f, i + 1, results')
  }

  function RunAsync(plan: Plan, f: seq<Outcome>): Ending
    requires |f| == |plan|
  {
    RunFrom(plan, f, 0, map[])
  }

  method ExecutePlanAsync(plan: Plan, f: seq<Outcome>) returns (execution: PlanExecution)
    requires |f| == |plan|
    ensures fresh(execution) && execution.plan == plan
    ensures Ending(execution.status, execution.currentStep, execution.stepResults, execution.error) == RunAsync(plan, f)
  {
    execution := new PlanExecution(plan);
    for i := 0 to |plan|
      invariant fresh(execution) && execution.status == Executing && execution.error == None
      invariant execution.currentStep == i
      invariant RunFrom(plan, f, i, execution.stepResults) == RunAsync(plan, f)
    {
      var canExecute := true;
      for k := 0 to |plan[i].dependsOn|
        invariant canExecute
        invariant forall m | 0 <= m < k :: && plan[i].dependsOn[m] in execution.stepResults
                                           && execution.stepResults[plan[i].dependsOn[m]].status.Success?
      {
        var dep := plan[i].dependsOn[k];
        if dep !in execution.stepResults || !execution.stepResults[dep].status.Success? {
          canExecute := false;
          break;
        }
      }
      assert canExecute <==> DependenciesIn(plan[i], execution.stepResults);
      if !canExecute {
        execution.status, execution.error := Failed, Some(DependencyNotMet(i + 1));
        return;
      }
      execution.currentStep := i + 1;
      if f[i].failed {
        execution.status, execution.error := Failed, Some(StepErrored(i + 1));
        return;
      }
      execution.stepResults := execution.stepResults[plan[i].stepNumber := f[i].result];
      if !f[i].result.status.Success? {
        execution.status, execution.error := Failed, Some(StepReturned(i + 1, f[i].result.status));
        return;
      }
    }
    execution.status := Completed;
  }

  /** Every dependency of entry `k` is the number of an earlier list entry. */
  ghost predicate DependsOnEarlier(plan: Plan, k: nat)
    requires k < |plan|
  {
    forall d | d in plan[k].dependsOn :: exists j :: 0 <= j < k && plan[j].stepNumber == d
  }

  /** The results held before position `i` of a run without failures so far. */
  ghost predicate HoldsPrefix(plan: Plan, i: nat, results: map<int, HandoffResult>)
    requires i <= |plan|
  {
    && (forall j | 0 <= j < i :: plan[j].stepNumber in results)
    && (forall n | n in results :: results[n].status.Success? && exists j :: 0 <= j < i && plan[j].stepNumber == n)
  }

  lemma PrefixDecides(plan: Plan, i: nat, results: map<int, HandoffResult>)
    requires i < |plan| && HoldsPrefix(plan, i, results)
    ensures DependenciesIn(plan[i], results) <==> DependsOnEarlier(plan, i)
  {
    forall d | d in plan[i].dependsOn
      ensures (d in results && results[d].status.Success?) <==> exists j :: 0 <= j < i && plan[j].stepNumber == d
    {
    }
  }

  lemma PrefixGrows(plan: Plan, i: nat, results: map<int, HandoffResult>, result: HandoffResult)
    requires i < |plan| && HoldsPrefix(plan, i, results) && result.status.Success?
    ensures HoldsPrefix(plan, i + 1, results[plan[i].stepNumber := result])
  {
    var results' := results[plan[i].stepNumber := result];
    forall n | n in results' ensures exists j :: 0 <= j < i + 1 && plan[j].stepNumber == n {
      if n == plan[i].stepNumber {
        assert 0 <= i < i + 1 && plan[i].stepNumber == n;
      } else {
        var j :| 0 <= j < i && plan[j].stepNumber == n;
      }
    }
  }

  lemma {:induction false} AsyncCompletes(plan: Plan, f: seq<Outcome>, i: nat, results: map<int, HandoffResult>)
    requires |f| == |plan| && i <= |plan| && HoldsPrefix(plan, i, results)
    ensures RunFrom(plan, f, i, results).status == Completed <==>
            forall k: nat | i <= k < |plan| :: Good(f[k]) && DependsOnEarlier(plan, k)
    ensures RunFrom(plan, f, i, results).status == Completed ==>
            HoldsPrefix(plan, |plan|, RunFrom(plan, f, i, results).results)
    decreases |plan| - i
  {
    hide HoldsPrefix; hide DependsOnEarlier; hide DependenciesIn;
    if i < |plan| {
      PrefixDecides(plan, i, results);
      if DependsOnEarlier(plan, i) && Good(f[i]) {
        PrefixGrows(plan, i, results, f[i].result);
        AsyncCompletes(plan, f, i + 1, results[plan[i].stepNumber := f[i].result]);
      }
    }
  }

  /** The plan's own list order. */
  function ListOrder(plan: Plan): seq<nat> {
    seq(|plan|, i => i)
  }

  lemma EarlierInList(plan: Plan, k: nat, d: int)
    requires k < |plan|
    ensures (exists j :: 0 <= j < k && plan[ListOrder(plan)[j]].stepNumber == d)
            <==> exists j :: 0 <= j < k && plan[j].stepNumber == d
  {
    var order := ListOrder(plan);
    assert forall j | 0 <= j < k :: order[j] == j;
    if j :| 0 <= j < k && plan[order[j]].stepNumber == d {
      assert plan[j].stepNumber == d;
    }
    if j :| 0 <= j < k && plan[j].stepNumber == d {
      assert plan[order[j]].stepNumber == d;
    }
  }

  lemma ListOrderBefore(plan: Plan, k: nat)
    requires k < |plan|
    ensures DependenciesBefore(plan, ListOrder(plan), k) <==> DependsOnEarlier(plan, k)
  {
    var order := ListOrder(plan);
    assert order[k] == k && forall j | 0 <= j <= k :: order[j] < |plan|;
    forall d | d in plan[k].dependsOn
      ensures (exists j :: 0 <= j < k && plan[order[j]].stepNumber == d)
              <==> exists j :: 0 <= j < k && plan[j].stepNumber == d
    {
      EarlierInList(plan, k, d);
    }
  }

  lemma ListOrderTopological(plan: Plan)
    ensures IsTopological(plan, ListOrder(plan)) <==> forall k: nat | k < |plan| :: DependsOnEarlier(plan, k)
  {
    forall k: nat | k < |plan| ensures DependenciesBefore(plan, ListOrder(plan), k) <==> DependsOnEarlier(plan, k) {
      ListOrderBefore(plan, k);
    }
    hide DependenciesBefore; hide DependsOnEarlier;
  }

  /** The sequential executor completes exactly when every outcome is good and the list itself is a
      topological order; repeated step numbers do not matter to it. */
  lemma AsyncVerdict(plan: Plan, f: seq<Outcome>)
    requires |f| == |plan|
    ensures RunAsync(plan, f).status == Completed <==> AllGood(f) && IsTopological(plan, ListOrder(plan))
  {
    AsyncCompletes(plan, f, 0, map[]);
    ListOrderTopological(plan);
  }

  /** Some of the first `m` entries has the number. */
  ghost predicate Used(plan: Plan, m: nat, n: int)
    requires m <= |plan|
  {
    exists j :: 0 <= j < m && plan[j].stepNumber == n
  }

  /** Entry `j` is the last of the first `m` that has its number. */
  ghost predicate LastUse(plan: Plan, m: nat, j: nat)
    requires m <= |plan|
  {
    j < m && forall k | j < k < m :: plan[k].stepNumber != plan[j].stepNumber
  }

  /** `results` holds just the numbers of the first `m` entries, each with the outcome of the last of
      these entries that has it. */
  ghost predicate HoldsLatest(plan: Plan, f: seq<Outcome>, m: nat, results: map<int, HandoffResult>)
    requires |f| == |plan| && m <= |plan|
  {
    && (forall n :: n in results <==> Used(plan, m, n))
    && forall j: nat | LastUse(plan, m, j) :: plan[j].stepNumber in results && results[plan[j].stepNumber] == f[j].result
  }

  lemma UsedGrows(plan: Plan, m: nat, n: int)
    requires m < |plan|
    ensures Used(plan, m + 1, n) <==> Used(plan, m, n) || plan[m].stepNumber == n
  {
    if plan[m].stepNumber == n {
      assert 0 <= m < m + 1 && plan[m].stepNumber == n;
    }
  }

  lemma LastUseGrows(plan: Plan, m: nat, j: nat)
    requires m < |plan| && LastUse(plan, m + 1, j)
    ensures j == m || (LastUse(plan, m, j) && plan[m].stepNumber != plan[j].stepNumber)
  {
  }

  lemma LatestGrows(plan: Plan, f: seq<Outcome>, m: nat, results: map<int, HandoffResult>)
    requires |f| == |plan| && m < |plan| && HoldsLatest(plan, f, m, results)
    ensures HoldsLatest(plan, f, m + 1, results[plan[m].stepNumber := f[m].result])
  {
    var results' := results[plan[m].stepNumber := f[m].result];
    hide Used; hide LastUse;
    forall n ensures n in results' <==> Used(plan, m + 1, n) {
      UsedGrows(plan, m, n);
    }
    forall j: nat | LastUse(plan, m + 1, j)
      ensures j < |plan| && plan[j].stepNumber in results' && results'[plan[j].stepNumber] == f[j].result
    {
      LastUseGrows(plan, m, j);
      LastUseInRange(plan, m + 1, j);
    }
  }

  lemma LastUseInRange(plan: Plan, m: nat, j: nat)
    requires m <= |plan| && LastUse(plan, m, j)
    ensures j < m
  {
  }

  /** Entry `i` can run and ends well. */
  ghost predicate RunsWell(plan: Plan, f: seq<Outcome>, i: nat)
    requires |f| == |plan| && i < |plan|
  {
    DependsOnEarlier(plan, i) && Good(f[i])
  }

  /** The first entry that does not run well, or the length of the plan. */
  ghost predicate StopsAt(plan: Plan, f: seq<Outcome>, stop: nat)
    requires |f| == |plan|
  {
    stop <= |plan| && (stop < |plan| ==> !RunsWell(plan, f, stop)) && forall k | 0 <= k < stop :: RunsWell(plan, f, k)
  }

  /** How a run ends whose first `i` entries run well, and entry `i`, if there is one, does not. */
  ghost predicate EndsAt(plan: Plan, f: seq<Outcome>, i: nat, e: Ending)
    requires |f| == |plan| && i <= |plan|
  {
    if i == |plan| then
      e.status == Completed && e.currentStep == |plan| && e.error == None && HoldsLatest(plan, f, |plan|, e.results)
    else if !DependsOnEarlier(plan, i) then
      && e.status == Failed && e.currentStep == i && HoldsLatest(plan, f, i, e.results)
      && e.error == Some(DependencyNotMet(i + 1))
    else if f[i].failed then
      && e.status == Failed && e.currentStep == i + 1 && HoldsLatest(plan, f, i, e.results)
      && e.error == Some(StepErrored(i + 1))
    else
      && e.status == Failed && e.currentStep == i + 1 && HoldsLatest(plan, f, i + 1, e.results)
      && e.error == Some(StepReturned(i + 1, f[i].result.status))
  }

  lemma {:induction false} RunEnds(plan: Plan, f: seq<Outcome>, i: nat, results: map<int, HandoffResult>) returns (stop: nat)
    requires |f| == |plan| && i <= |plan| && HoldsPrefix(plan, i, results) && HoldsLatest(plan, f, i, results)
    ensures i <= stop <= |plan| && (stop < |plan| ==> !RunsWell(plan, f, stop))
    ensures forall k | i <= k < stop :: RunsWell(plan, f, k)
    ensures EndsAt(plan, f, stop, RunFrom(plan, f, i, results))
    decreases |plan| - i
  {
    hide HoldsPrefix; hide HoldsLatest; hide DependsOnEarlier; hide DependenciesIn;
    stop := i;
    if i < |plan| {
      PrefixDecides(plan, i, results);
      LatestGrows(plan, f, i, results);
      if RunsWell(plan, f, i) {
        PrefixGrows(plan, i, results, f[i].result);
        stop := RunEnds(plan, f, i + 1, results[plan[i].stepNumber := f[i].result]);
      }
    }
  }

  /** The whole record of a sequential run. It stops at the first entry that has a dependency which is
      not the number of an earlier entry, or whose outcome is bad, and reports which of the two failures,
      or which status, it was. It holds the results of all entries before, and that of the entry itself
      when the call returned without an error; of equal numbers the later entry wins. */
  lemma AsyncEnding(plan: Plan, f: seq<Outcome>)
    requires |f| == |plan|
    ensures exists stop: nat :: StopsAt(plan, f, stop) && EndsAt(plan, f, stop, RunAsync(plan, f))
  {
    NothingHeld(plan, f);
    hide HoldsLatest; hide HoldsPrefix; hide RunsWell; hide EndsAt; hide RunFrom;
    var stop := RunEnds(plan, f, 0, map[]);
    assert StopsAt(plan, f, stop);
  }

  lemma NothingHeld(plan: Plan, f: seq<Outcome>)
    requires |f| == |plan|
    ensures HoldsPrefix(plan, 0, map[]) && HoldsLatest(plan, f, 0, map[])
  {
  }

  lemma {:induction false} AsyncHolds(plan: Plan, f: seq<Outcome>, i: nat, results: map<int, HandoffResult>)
    requires |f| == |plan| && i <= |plan| && Distinct(plan)
    requires forall j: nat | j < i :: plan[j].stepNumber in results && results[plan[j].stepNumber] == f[j].result
    requires RunFrom(plan, f, i, results).status == Completed
    ensures var r := RunFrom(plan, f, i, results).results;
            forall j: nat | j < |plan| :: plan[j].stepNumber in r && r[plan[j].stepNumber] == f[j].result
    decreases |plan| - i
  {
    if i < |plan| {
      AsyncHolds(plan, f, i + 1, results[plan[i].stepNumber := f[i].result]);
    }
  }

  /** For distinct step numbers and the same outcomes, the sequential executor completes exactly when
      the concurrent one does and the list order is itself topological, and both then hold the same
      results. */
  lemma SchedulersAgree(plan: Plan, f: seq<Outcome>, run: seq<Action>)
    requires Distinct(plan) && FinishedRun(plan, f, run)
    ensures RunAsync(plan, f).status == Completed <==>
            After(plan, f, run).phase.verdict.PlanDone? && IsTopological(plan, ListOrder(plan))
    ensures RunAsync(plan, f).status == Completed ==>
            RunAsync(plan, f).results == After(plan, f, run).results && HoldsAll(plan, f, RunAsync(plan, f).results)
  {
    AsyncVerdict(plan, f);
    VerdictExact(plan, f, run);
    var r := RunAsync(plan, f);
    hide IsRun; hide After; hide IsTopological;
    if r.status == Completed {
      CompletedResults(plan, f, run);
      AsyncCompletes(plan, f, 0, map[]);
      AsyncHolds(plan, f, 0, map[]);
      SameResults(plan, f, r.results, After(plan, f, run).results);
    }
  }

  lemma SameResults(plan: Plan, f: seq<Outcome>, r: map<int, HandoffResult>, r': map<int, HandoffResult>)
    requires |f| == |plan| && HoldsPrefix(plan, |plan|, r) && HoldsAll(plan, f, r')
    requires forall j: nat | j < |plan| :: plan[j].stepNumber in r && r[plan[j].stepNumber] == f[j].result
    ensures r == r'
  {
    forall n ensures n in r <==> n in r' {
      if n in r' {
        assert n in Numbers(plan);
        var j :| 0 <= j < |plan| && plan[j].stepNumber == n;
      }
    }
    forall n | n in r ensures r[n] == r'[n] {
      var j :| 0 <= j < |plan| && plan[j].stepNumber == n;
    }
  }
}
