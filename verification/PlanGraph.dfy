/** The dependency graph of a plan: which entries become ready in which wave, topological
    orders of the plan and dependency chains. */
module PlanGraph {
  import opened Protocol

  /** The readiness test of the wave loop: not completed, and every dependency completed. */
  predicate IsReady(step: PlanStep, done: set<int>) {
    step.stepNumber !in done && forall d | d in step.dependsOn :: d in done
  }

  function ReadySet(plan: Plan, done: set<int>): set<nat> {
    set i: nat | i < |plan| && IsReady(plan[i], done)
  }

  function ReadyNumbers(plan: Plan, done: set<int>): set<int> {
    set i | i in ReadySet(plan, done) :: plan[i].stepNumber
  }

  /** Step numbers completed after `k` waves in which every started step succeeded. */
  function Layer(plan: Plan, k: nat): set<int> {
    if k == 0 then {} else Layer(plan, k - 1) + ReadyNumbers(plan, Layer(plan, k - 1))
  }

  /** Entry `i` is started by the wave that follows `k` completed waves. */
  predicate ReadyAt(plan: Plan, i: nat, k: nat) {
    i < |plan| && IsReady(plan[i], Layer(plan, k))
  }

  ghost predicate StartedBefore(plan: Plan, i: nat, w: nat) {
    exists k: nat :: k < w && ReadyAt(plan, i, k)
  }

  /** Entry `i` is started by the plan when every step succeeds. */
  ghost predicate Reachable(plan: Plan, i: nat) {
    exists k: nat :: ReadyAt(plan, i, k)
  }

  /** No wave can be started after `k` waves. */
  predicate Settled(plan: Plan, k: nat) {
    ReadySet(plan, Layer(plan, k)) == {}
  }

  lemma {:induction false} LayerGrows(plan: Plan, j: nat, k: nat)
    requires j <= k
    ensures Layer(plan, j) <= Layer(plan, k)
    decreases k - j
  {
    if j < k {
      LayerGrows(plan, j + 1, k);
    }
  }

  lemma ReadyEntersLayer(plan: Plan, i: nat, k: nat)
    requires ReadyAt(plan, i, k)
    ensures plan[i].stepNumber in Layer(plan, k + 1) && plan[i].stepNumber !in Layer(plan, k)
  {
    assert i in ReadySet(plan, Layer(plan, k));
  }

  /** An entry is ready in at most one wave. */
  lemma ReadyOnce(plan: Plan, i: nat, j: nat, k: nat)
    requires ReadyAt(plan, i, j) && ReadyAt(plan, i, k)
    ensures j == k
  {
    if j < k {
      NotReadyLater(plan, i, j, k);
    } else if k < j {
      NotReadyLater(plan, i, k, j);
    }
  }

  lemma NotReadyLater(plan: Plan, i: nat, j: nat, k: nat)
    requires ReadyAt(plan, i, j) && j < k
    ensures !ReadyAt(plan, i, k)
  {
    ReadyEntersLayer(plan, i, j);
    LayerGrows(plan, j + 1, k);
  }

  /** Every completed number belongs to an entry started in some earlier wave. */
  lemma {:induction false} LayerOrigin(plan: Plan, n: int, k: nat) returns (i: nat, j: nat)
    requires n in Layer(plan, k)
    ensures j < k && ReadyAt(plan, i, j) && plan[i].stepNumber == n
  {
    if n in Layer(plan, k - 1) {
      i, j := LayerOrigin(plan, n, k - 1);
    } else {
      i :| i in ReadySet(plan, Layer(plan, k - 1)) && plan[i].stepNumber == n;
      j := k - 1;
    }
  }

  lemma LayerNumbers(plan: Plan, k: nat)
    ensures Layer(plan, k) <= Numbers(plan)
    ensures |Layer(plan, k)| <= |plan|
    ensures |Layer(plan, k)| == |plan| <==> Layer(plan, k) == Numbers(plan) && Distinct(plan)
  {
    forall n | n in Layer(plan, k) ensures n in Numbers(plan) {
      var i, _ := LayerOrigin(plan, n, k);
    }
    CountNumbers(plan);
    SubsetSize(Layer(plan, k), Numbers(plan));
  }

  lemma SettledStep(plan: Plan, k: nat)
    requires Settled(plan, k)
    ensures Layer(plan, k + 1) == Layer(plan, k)
  {
    hide ReadySet;
    assert ReadyNumbers(plan, Layer(plan, k)) == {};
  }

  /** Once no entry is ready, no later wave starts anything. */
  lemma {:induction false} SettledForever(plan: Plan, k: nat, m: nat)
    requires Settled(plan, k) && k <= m
    ensures Layer(plan, m) == Layer(plan, k) && Settled(plan, m)
    decreases m - k
  {
    hide ReadySet;
    if k < m {
      SettledStep(plan, k);
      hide Layer;
      SettledForever(plan, k + 1, m);
    }
  }

  lemma SettledStarts(plan: Plan, k: nat, i: nat, j: nat)
    requires Settled(plan, k) && ReadyAt(plan, i, j)
    ensures j < k
  {
    assert i in ReadySet(plan, Layer(plan, j));
    if k <= j {
      SettledForever(plan, k, j);
    }
  }

  // ---- Topological orders ----

  /** `order` lists every entry once, and each dependency number before its dependents. */
  ghost predicate IsTopological(plan: Plan, order: seq<nat>) {
    && |order| == |plan|
    && (forall k | 0 <= k < |order| :: order[k] < |plan|)
    && (forall j, k | 0 <= j < k < |order| :: order[j] != order[k])
    && forall k | 0 <= k < |order| :: DependenciesBefore(plan, order, k)
  }

  ghost predicate DependenciesBefore(plan: Plan, order: seq<nat>, k: nat)
    requires k < |order| && forall j | 0 <= j <= k :: order[j] < |plan|
  {
    forall d | d in plan[order[k]].dependsOn :: exists j :: 0 <= j < k && plan[order[j]].stepNumber == d
  }

  ghost predicate Schedulable(plan: Plan) {
    Distinct(plan) && exists order :: IsTopological(plan, order)
  }

  /** A topological order forces every entry into the settled layer. */
  lemma {:induction false} OrderFillsLayer(plan: Plan, order: seq<nat>, w: nat, k: nat)
    requires IsTopological(plan, order) && Settled(plan, w) && k <= |order|
    ensures forall j | 0 <= j < k :: plan[order[j]].stepNumber in Layer(plan, w)
  {
    if k > 0 {
      OrderFillsLayer(plan, order, w, k - 1);
      var step := plan[order[k - 1]];
      assert DependenciesBefore(plan, order, k - 1);
      forall d | d in step.dependsOn ensures d in Layer(plan, w) {
        var j :| 0 <= j < k - 1 && plan[order[j]].stepNumber == d;
      }
      assert order[k - 1] !in ReadySet(plan, Layer(plan, w));
    }
  }

  /** An injective list of |plan| entry indices hits every entry. */
  lemma Covers(order: seq<nat>, n: nat, i: nat)
    requires |order| == n && i < n
    requires forall k | 0 <= k < n :: order[k] < n
    requires forall j, k | 0 <= j < k < n :: order[j] != order[k]
    ensures i in order
  {
    DistinctSize(order);
    SubsetSize(Members(order), UpTo(n));
    assert i in UpTo(n) && Members(order) == UpTo(n);
  }

  function Members(order: seq<nat>): set<nat> {
    set k | k in order
  }

  function UpTo(n: nat): (r: set<nat>)
    ensures forall k :: k in r <==> 0 <= k < n
    ensures |r| == n
  {
    if n == 0 then {} else UpTo(n - 1) + {n - 1}
  }

  lemma {:induction false} DistinctSize(order: seq<nat>)
    requires forall j, k | 0 <= j < k < |order| :: order[j] != order[k]
    ensures |Members(order)| == |order|
  {
    if order != [] {
      var n := |order| - 1;
      DistinctSize(order[..n]);
      assert Members(order) == Members(order[..n]) + {order[n]} by {
        assert order == order[..n] + [order[n]];
      }
    }
  }

  /** The entries of a wave in list order, as the scan of the plan collects them. */
  function ReadyList(plan: Plan, done: set<int>, n: nat): (r: seq<nat>)
    requires n <= |plan|
    ensures forall i :: i in r <==> 0 <= i < n && IsReady(plan[i], done)
    ensures forall j, k | 0 <= j < k < |r| :: r[j] < r[k]
  {
    if n == 0 then [] else
    var front := ReadyList(plan, done, n - 1);
    assert forall k | 0 <= k < |front| :: front[k] in front;
    if IsReady(plan[n - 1], done) then front + [n - 1] else front
  }

  /** The waves laid end to end. */
  function WaveOrder(plan: Plan, k: nat): seq<nat> {
    if k == 0 then [] else WaveOrder(plan, k - 1) + ReadyList(plan, Layer(plan, k - 1), |plan|)
  }

  lemma {:induction false} WaveOrderMembers(plan: Plan, w: nat)
    ensures forall i :: i in WaveOrder(plan, w) <==> 0 <= i < |plan| && StartedBefore(plan, i, w)
  {
    if w > 0 {
      WaveOrderMembers(plan, w - 1);
      forall i | 0 <= i < |plan|
        ensures i in WaveOrder(plan, w) <==> StartedBefore(plan, i, w)
      {
        assert StartedBefore(plan, i, w) <==> StartedBefore(plan, i, w - 1) || ReadyAt(plan, i, w - 1);
      }
    }
  }

  lemma {:induction false} WaveOrderDistinct(plan: Plan, w: nat)
    ensures forall j, k | 0 <= j < k < |WaveOrder(plan, w)| :: WaveOrder(plan, w)[j] != WaveOrder(plan, w)[k]
  {
    hide Layer; hide IsReady;
    if w > 0 {
      WaveOrderDistinct(plan, w - 1);
      var earlier, wave := WaveOrder(plan, w - 1), ReadyList(plan, Layer(plan, w - 1), |plan|);
      forall j, k | 0 <= j < |earlier| && 0 <= k < |wave| ensures earlier[j] != wave[k] {
        assert earlier[j] in earlier && wave[k] in wave;
        WaveOrderMembers(plan, w - 1);
        var m: nat :| m < w - 1 && ReadyAt(plan, earlier[j], m);
        NotReadyLater(plan, earlier[j], m, w - 1);
      }
    }
  }

  /** The dependencies of a wave's entries lie in the earlier part of the order. */
  lemma EarlierDependency(plan: Plan, w: nat, i: nat, d: int) returns (j: nat)
    requires ReadyAt(plan, i, w) && d in plan[i].dependsOn
    ensures j < |WaveOrder(plan, w)| && WaveOrder(plan, w)[j] < |plan|
    ensures plan[WaveOrder(plan, w)[j]].stepNumber == d
  {
    var e, m := LayerOrigin(plan, d, w);
    assert StartedBefore(plan, e, w);
    WaveOrderMembers(plan, w);
    assert e in WaveOrder(plan, w);
    j :| 0 <= j < |WaveOrder(plan, w)| && WaveOrder(plan, w)[j] == e;
  }

  lemma {:induction false} WaveOrderInRange(plan: Plan, w: nat)
    ensures forall k | 0 <= k < |WaveOrder(plan, w)| :: WaveOrder(plan, w)[k] < |plan|
  {
    WaveOrderMembers(plan, w);
    forall k | 0 <= k < |WaveOrder(plan, w)| ensures WaveOrder(plan, w)[k] < |plan| {
      assert WaveOrder(plan, w)[k] in WaveOrder(plan, w);
    }
  }

  lemma NewEntryRespects(plan: Plan, w: nat, i: nat, d: int)
    requires w > 0 && ReadyAt(plan, i, w - 1) && d in plan[i].dependsOn
    ensures exists j :: && 0 <= j < |WaveOrder(plan, w - 1)| <= |WaveOrder(plan, w)|
                        && WaveOrder(plan, w)[j] < |plan| && plan[WaveOrder(plan, w)[j]].stepNumber == d
  {
    var j := EarlierDependency(plan, w - 1, i, d);
    assert WaveOrder(plan, w)[j] == WaveOrder(plan, w - 1)[j];
  }

  lemma {:induction false} WaveOrderRespects(plan: Plan, w: nat, k: nat)
    requires k < |WaveOrder(plan, w)|
    requires forall j | 0 <= j <= k :: WaveOrder(plan, w)[j] < |plan|
    ensures DependenciesBefore(plan, WaveOrder(plan, w), k)
    decreases w
  {
    hide Layer; hide IsReady;
    var order, earlier := WaveOrder(plan, w), WaveOrder(plan, w - 1);
    var wave := ReadyList(plan, Layer(plan, w - 1), |plan|);
    assert forall j | 0 <= j < |earlier| :: order[j] == earlier[j];
    if k < |earlier| {
      WaveOrderRespects(plan, w - 1, k);
    } else {
      assert order[k] == wave[k - |earlier|];
      assert ReadyAt(plan, order[k], w - 1);
      forall d | d in plan[order[k]].dependsOn
        ensures exists j :: 0 <= j < k && plan[order[j]].stepNumber == d
      {
        NewEntryRespects(plan, w, order[k], d);
      }
    }
  }

  lemma SchedulableFills(plan: Plan, w: nat)
    requires Settled(plan, w) && Schedulable(plan)
    ensures Layer(plan, w) == Numbers(plan)
  {
    hide Layer; hide IsReady;
    LayerNumbers(plan, w);
    var order :| IsTopological(plan, order);
    OrderFillsLayer(plan, order, w, |order|);
    forall n | n in Numbers(plan) ensures n in Layer(plan, w) {
      var i :| 0 <= i < |plan| && plan[i].stepNumber == n;
      Covers(order, |plan|, i);
    }
  }

  lemma WaveOrderTopological(plan: Plan, w: nat)
    requires Distinct(plan) && Layer(plan, w) == Numbers(plan)
    ensures IsTopological(plan, WaveOrder(plan, w))
  {
    hide Layer; hide IsReady; hide WaveOrder;
    var order := WaveOrder(plan, w);
    WaveOrderDistinct(plan, w);
    WaveOrderInRange(plan, w);
    forall k | 0 <= k < |order| ensures DependenciesBefore(plan, order, k) {
      WaveOrderRespects(plan, w, k);
    }
    WaveOrderMembers(plan, w);
    forall i: nat | i < |plan| ensures i in order {
      assert plan[i].stepNumber in Numbers(plan);
      var e, k := LayerOrigin(plan, plan[i].stepNumber, w);
      assert e == i;
      assert StartedBefore(plan, i, w);
    }
    DistinctSize(order);
    assert Members(order) == UpTo(|plan|);
  }

  /** Filling the layers is possible exactly for distinct numbers with a topological order. */
  lemma SchedulableIffLayersFill(plan: Plan, w: nat)
    requires Settled(plan, w)
    ensures |Layer(plan, w)| == |plan| <==> Schedulable(plan)
  {
    hide Layer; hide IsReady; hide IsTopological;
    LayerNumbers(plan, w);
    if Schedulable(plan) {
      SchedulableFills(plan, w);
    }
    if |Layer(plan, w)| == |plan| {
      WaveOrderTopological(plan, w);
    }
  }

  // ---- Dependency chains ----

  /** Each entry of a chain is a dependency of the next one. */
  ghost predicate IsChain(plan: Plan, c: seq<nat>) {
    && (forall k | 0 <= k < |c| :: c[k] < |plan|)
    && forall k | 0 < k < |c| :: plan[c[k - 1]].stepNumber in plan[c[k]].dependsOn
  }

  /** A dependency is started in a strictly earlier wave. */
  lemma DependencyEarlier(plan: Plan, e: nat, i: nat, j: nat, k: nat)
    requires ReadyAt(plan, e, j) && ReadyAt(plan, i, k)
    requires plan[e].stepNumber in plan[i].dependsOn
    ensures j < k
  {
    if k <= j {
      LayerGrows(plan, k, j);
    }
  }

  /** An entry of a wave other than the first has a dependency started one wave earlier. */
  lemma TightDependency(plan: Plan, i: nat, k: nat) returns (e: nat)
    requires ReadyAt(plan, i, k) && k > 0
    ensures ReadyAt(plan, e, k - 1) && plan[e].stepNumber in plan[i].dependsOn
  {
    LayerGrows(plan, k - 1, k);
    assert plan[i].stepNumber !in Layer(plan, k - 1);
    var d :| d in plan[i].dependsOn && d !in Layer(plan, k - 1);
    e :| e in ReadySet(plan, Layer(plan, k - 1)) && plan[e].stepNumber == d;
  }

  lemma {:induction false} ChainBelow(plan: Plan, c: seq<nat>, k: nat)
    requires IsChain(plan, c) && c != [] && ReadyAt(plan, c[|c| - 1], k)
    requires Distinct(plan)
    ensures |c| <= k + 1
  {
    if |c| > 1 {
      var front := c[..|c| - 1];
      var d := plan[front[|front| - 1]].stepNumber;
      assert d in plan[c[|c| - 1]].dependsOn;
      var e, j := LayerOrigin(plan, d, k);
      assert e == front[|front| - 1];
      ChainBelow(plan, front, j);
    }
  }

  lemma {:induction false} ChainTo(plan: Plan, i: nat, k: nat) returns (c: seq<nat>)
    requires ReadyAt(plan, i, k)
    ensures IsChain(plan, c) && |c| == k + 1 && c[k] == i
    decreases k
  {
    hide Layer; hide IsReady;
    if k == 0 {
      c := [i];
    } else {
      var e := TightDependency(plan, i, k);
      c := ChainTo(plan, e, k - 1);
      c := c + [i];
    }
  }
}
