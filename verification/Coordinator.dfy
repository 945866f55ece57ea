/** Task routing and failover of the coordination agent (internal/coordination/agent.go). */
module Coordinator {
  import opened Wrappers

  datatype Status = Pending | Assigned | Running | Completed | Failed | Cancelled

  datatype Task = Task(id: string, status: Status, retryCount: int, maxRetries: int, timeout: int,
                       startedAt: Option<int>, assignedAgent: string, error: string)

  /** What routing a task comes to: no suitable agent, or an agent whose assignment message is or is
      not published. The task is stored before the message is sent. */
  datatype Route = Unroutable | Published(agent: string) | PublishFailed(agent: string)

  datatype Coord = Coord(pending: map<string, Task>, assignments: map<string, string>)

  const DEFAULT_MAX_RETRIES := 3
  const DEFAULT_TIMEOUT := 300_000_000_000

  function Defaulted(t: Task): (r: Task)
    ensures r.id == t.id
  {
    t.(maxRetries := if t.maxRetries == 0 then DEFAULT_MAX_RETRIES else t.maxRetries,
       timeout := if t.timeout == 0 then DEFAULT_TIMEOUT else t.timeout,
       status := Pending)
  }

  function Routed(t: Task, agent: string, now: int): Task {
    t.(assignedAgent := agent, status := Assigned, startedAt := Some(now))
  }

  function Store(c: Coord, t: Task, route: Route, now: int): Coord {
    if route.Unroutable? then c
    else Coord(c.pending[t.id := Routed(t, route.agent, now)], c.assignments[t.id := route.agent])
  }

  function RouteFor(routes: map<string, Route>, id: string): Route {
    if id in routes then routes[id] else Unroutable
  }

  predicate Affected(c: Coord, id: string, agent: string) {
    id in c.assignments && c.assignments[id] == agent && id in c.pending
  }

  /** Whether a failover routes the task once more. */
  predicate Reroutes(t: Task, route: Route) {
    t.retryCount + 1 <= t.maxRetries && !route.Unroutable?
  }

  /** The stored task after a failover of its agent. A failed publish marks only the copy that is no
      longer stored. */
  function Retried(t: Task, route: Route, now: int): Task {
    var u := t.(retryCount := t.retryCount + 1);
    if u.retryCount > u.maxRetries then u.(status := Failed, error := "MAX_RETRIES")
    else if route.Unroutable? then u.(assignedAgent := "", status := Failed, error := "FAILOVER_FAILED")
    else Routed(u, route.agent, now)
  }

  function AffectedIds(c: Coord, agent: string): set<string> {
    set id | id in c.assignments && Affected(c, id, agent)
  }

  /** Handles the named tasks of the failed agent, each by its own route. */
  function FailoverOf(c: Coord, ids: set<string>, routes: map<string, Route>, now: int): Coord {
    Coord(map id | id in c.pending ::
            if id in ids then Retried(c.pending[id], RouteFor(routes, id), now) else c.pending[id],
          map id | id in c.assignments ::
            if id in ids && id in c.pending && Reroutes(c.pending[id], RouteFor(routes, id)) then RouteFor(routes, id).agent
            else c.assignments[id])
  }

  function Failover(c: Coord, agent: string, routes: map<string, Route>, now: int): Coord {
    FailoverOf(c, AffectedIds(c, agent), routes, now)
  }

  predicate Overdue(t: Task, now: int) {
    t.startedAt.Some? && now - t.startedAt.value > t.timeout
  }

  function TimedOut(t: Task): Task {
    t.(status := Failed, error := "TIMEOUT")
  }

  function Expire(c: Coord, now: int): Coord {
    Coord(map id | id in c.pending :: if Overdue(c.pending[id], now) then TimedOut(c.pending[id]) else c.pending[id],
          map id | id in c.assignments && !(id in c.pending && Overdue(c.pending[id], now)) :: c.assignments[id])
  }

  function Finish(c: Coord, id: string): Coord {
    if id in c.pending then Coord(c.pending - {id}, c.assignments - {id}) else c
  }

  function Report(c: Coord, id: string, status: Status): Coord {
    if id in c.pending then c.(pending := c.pending[id := c.pending[id].(status := status)]) else c
  }

  // ---- Runs: handlers are atomic, a submission is a capacity check and a later insertion ----

  /** `passed` are submissions between their check and their insertion, `submitted` every task that ever
      passed the check, as it was then. */
  datatype System = System(coord: Coord, passed: map<string, Task>, submitted: map<string, Task>)

  datatype Event =
    | Check(task: Task)
    | Insert(id: string, route: Route, now: int)
    | AgentFailed(agent: string, routes: map<string, Route>, now: int)
    | TaskDone(id: string)
    | TimeoutsChecked(now: int)
    | StatusReported(id: string, status: Status)

  datatype Limits = Limits(maxPending: int, submitters: nat)

  const START := System(Coord(map[], map[]), map[], map[])

  function Next(s: System, e: Event, limits: Limits): System {
    match e
    case Check(t) =>
      if |s.coord.pending| >= limits.maxPending then s
      else s.(passed := s.passed[t.id := Defaulted(t)], submitted := s.submitted[t.id := Defaulted(t)])
    case Insert(id, route, now) =>
      if id !in s.passed then s
      else s.(coord := Store(s.coord, s.passed[id], route, now), passed := s.passed - {id})
    case AgentFailed(agent, routes, now) => s.(coord := Failover(s.coord, agent, routes, now))
    case TaskDone(id) => s.(coord := Finish(s.coord, id))
    case TimeoutsChecked(now) => s.(coord := Expire(s.coord, now))
    case StatusReported(id, status) => s.(coord := Report(s.coord, id, status))
  }

  /** Identifiers are fresh, and no more than the given number of submitters are at work at once. */
  predicate Legal(s: System, e: Event, limits: Limits) {
    e.Check? ==> e.task.id !in s.submitted && |s.passed| < limits.submitters
  }

  predicate IsRun(s: System, events: seq<Event>, limits: Limits)
    decreases |events|
  {
    events == [] || (Legal(s, events[0], limits) && IsRun(Next(s, events[0], limits), events[1..], limits))
  }

  function After(s: System, events: seq<Event>, limits: Limits): System
    decreases |events|
  {
    if events == [] then s else After(Next(s, events[0], limits), events[1..], limits)
  }

  lemma {:induction false} RunConcat(s: System, a: seq<Event>, b: seq<Event>, limits: Limits)
    requires IsRun(s, a, limits) && IsRun(After(s, a, limits), b, limits)
    ensures IsRun(s, a + b, limits) && After(s, a + b, limits) == After(After(s, a, limits), b, limits)
    decreases |a|
  {
    hide Next; hide Legal;
    if a == [] {
      assert a + b == b;
    } else {
      assert (a + b)[1..] == a[1..] + b;
      RunConcat(Next(s, a[0], limits), a[1..], b, limits);
    }
  }

  lemma AfterCons(s: System, e: Event, rest: seq<Event>, limits: Limits)
    ensures After(s, [e] + rest, limits) == After(Next(s, e, limits), rest, limits)
    ensures IsRun(s, [e] + rest, limits) <==> Legal(s, e, limits) && IsRun(Next(s, e, limits), rest, limits)
  {
    assert ([e] + rest)[1..] == rest;
  }

  lemma AfterNone(s: System, limits: Limits)
    ensures After(s, [], limits) == s && IsRun(s, [], limits)
  {
  }

  /** A task as a client submits it, with all defaults open. */
  function Fresh(id: string): (r: Task)
    ensures r.id == id
  {
    Task(id, Pending, 0, 0, 0, None, "", "")
  }

  /** Whether the event stores the task with a new assignment. */
  predicate Routes(s: System, e: Event, id: string) {
    match e
    case Insert(other, route, _) => other == id && id in s.passed && !route.Unroutable?
    case AgentFailed(agent, routes, _) =>
      Affected(s.coord, id, agent) && Reroutes(s.coord.pending[id], RouteFor(routes, id))
    case _ => false
  }

  /** How often the task is routed in the run. */
  function Routings(s: System, events: seq<Event>, limits: Limits, id: string): nat
    decreases |events|
  {
    if events == [] then 0
    else (if Routes(s, events[0], id) then 1 else 0) + Routings(Next(s, events[0], limits), events[1..], limits, id)
  }

  function Max(a: int, b: int): int {
    if a >= b then a else b
  }

  /** The invariant that all results rest on. */
  predicate Inv(s: System) {
    && s.coord.assignments.Keys <= s.coord.pending.Keys
    && s.passed.Keys <= s.submitted.Keys
    && s.coord.pending.Keys <= s.submitted.Keys
    && s.passed.Keys !! s.coord.pending.Keys
    && (forall id | id in s.passed :: s.passed[id].id == id && s.passed[id] == s.submitted[id])
    && (forall id | id in s.coord.pending ::
          && s.coord.pending[id].id == id
          && s.coord.pending[id].maxRetries == s.submitted[id].maxRetries
          && s.coord.pending[id].retryCount >= s.submitted[id].retryCount)
    && (forall id | id in s.coord.assignments :: Matches(s.coord.pending[id], s.coord.assignments[id]))
  }

  /** The assignment agrees with the task, save that a failover without a suitable agent clears it in
      the task alone. */
  predicate Matches(t: Task, agent: string) {
    t.assignedAgent == agent || t.assignedAgent == ""
  }

  predicate Keeps(t: Task, u: Task) {
    u.id == t.id && u.maxRetries == t.maxRetries && u.retryCount >= t.retryCount
  }

  lemma RetriedFits(t: Task, route: Route, now: int, holder: string)
    requires Matches(t, holder)
    ensures var u := Retried(t, route, now);
            && u.id == t.id && u.maxRetries == t.maxRetries && u.retryCount == t.retryCount + 1
            && Matches(u, if Reroutes(t, route) then route.agent else holder)
  {
  }

  lemma FailoverEntry(c: Coord, agent: string, routes: map<string, Route>, now: int, id: string)
    requires id in c.pending
    ensures var d := Failover(c, agent, routes, now);
            && id in d.pending && Keeps(c.pending[id], d.pending[id])
            && (id in c.assignments && Matches(c.pending[id], c.assignments[id]) ==>
                  id in d.assignments && Matches(d.pending[id], d.assignments[id]))
  {
    if id in c.assignments && Matches(c.pending[id], c.assignments[id]) {
      RetriedFits(c.pending[id], RouteFor(routes, id), now, c.assignments[id]);
    }
    hide Matches;
  }

  lemma FailoverInv(s: System, agent: string, routes: map<string, Route>, now: int)
    requires Inv(s)
    ensures Inv(s.(coord := Failover(s.coord, agent, routes, now)))
  {
    var c, d := s.coord, Failover(s.coord, agent, routes, now);
    assert d.pending.Keys == c.pending.Keys && d.assignments.Keys == c.assignments.Keys;
    hide Failover; hide Matches;
    forall id | id in c.pending
      ensures Keeps(c.pending[id], d.pending[id])
      ensures id in c.assignments ==> Matches(d.pending[id], d.assignments[id])
    {
      FailoverEntry(c, agent, routes, now, id);
    }
  }

  lemma FinishInv(s: System, id: string)
    requires Inv(s)
    ensures Inv(s.(coord := Finish(s.coord, id)))
  {
  }

  lemma ReportInv(s: System, id: string, status: Status)
    requires Inv(s)
    ensures Inv(s.(coord := Report(s.coord, id, status)))
  {
  }

  lemma ExpireInv(s: System, now: int)
    requires Inv(s)
    ensures Inv(s.(coord := Expire(s.coord, now)))
  {
  }

  lemma InsertInv(s: System, id: string, route: Route, now: int)
    requires Inv(s) && id in s.passed
    ensures Inv(System(Store(s.coord, s.passed[id], route, now), s.passed - {id}, s.submitted))
  {
  }

  lemma NextInv(s: System, e: Event, limits: Limits)
    requires Inv(s) && Legal(s, e, limits)
    ensures Inv(Next(s, e, limits))
  {
    match e
    case Check(_) => hide Matches;
    case Insert(id, route, now) => hide Inv; hide Store; if id in s.passed { InsertInv(s, id, route, now); }
    case AgentFailed(agent, routes, now) => hide Inv; hide Failover; FailoverInv(s, agent, routes, now);
    case TaskDone(id) => hide Inv; hide Finish; FinishInv(s, id);
    case TimeoutsChecked(now) => hide Inv; hide Expire; ExpireInv(s, now);
    case StatusReported(id, status) => hide Inv; hide Report; ReportInv(s, id, status);
  }

  /** In every run the assignments are those of pending tasks, and agree with them. */
  lemma {:induction false} RunInv(s: System, events: seq<Event>, limits: Limits)
    requires Inv(s) && IsRun(s, events, limits)
    ensures Inv(After(s, events, limits))
    decreases |events|
  {
    hide Inv; hide Next; hide Legal;
    if events != [] {
      NextInv(s, events[0], limits);
      RunInv(Next(s, events[0], limits), events[1..], limits);
    }
  }

  /** The `k`-th event of the run is a failure of the agent of this task that finds no other agent for it
      although a retry is left. */
  predicate LostAt(s: System, events: seq<Event>, limits: Limits, k: nat, id: string) {
    k < |events| && Loses(After(s, events[..k], limits).coord, events[k], id)
  }

  predicate Loses(c: Coord, e: Event, id: string) {
    e.AgentFailed? && Affected(c, id, e.agent) && RouteFor(e.routes, id).Unroutable?
    && c.pending[id].retryCount + 1 <= c.pending[id].maxRetries
  }

  predicate Agrees(c: Coord, id: string) {
    id in c.assignments && id in c.pending ==> c.pending[id].assignedAgent == c.assignments[id]
  }

  lemma AgreesUntilLost(s: System, e: Event, limits: Limits, id: string)
    requires Inv(s) && Agrees(s.coord, id) && !Loses(s.coord, e, id)
    ensures Agrees(Next(s, e, limits).coord, id)
  {
    match e
    case AgentFailed(agent, routes, now) => hide Inv; hide Failover; FailoverAgrees(s.coord, agent, routes, now, id);
    case _ =>
  }

  lemma FailoverAgrees(c: Coord, agent: string, routes: map<string, Route>, now: int, id: string)
    requires Agrees(c, id) && !Loses(c, AgentFailed(agent, routes, now), id)
    ensures Agrees(Failover(c, agent, routes, now), id)
  {
    hide RouteFor;
  }

  lemma LostLater(s: System, events: seq<Event>, limits: Limits, k: nat, id: string)
    requires events != [] && LostAt(Next(s, events[0], limits), events[1..], limits, k, id)
    ensures LostAt(s, events, limits, k + 1, id)
  {
    hide Loses; hide Next;
    assert events[..k + 1][1..] == events[1..][..k] && events[..k + 1][0] == events[0];
  }

  lemma {:induction false} AgreesOrLost(s: System, events: seq<Event>, limits: Limits, id: string)
    requires Inv(s) && IsRun(s, events, limits) && Agrees(s.coord, id)
    ensures Agrees(After(s, events, limits).coord, id) || exists k: nat :: LostAt(s, events, limits, k, id)
    decreases |events|
  {
    hide Inv; hide Next; hide Legal; hide Agrees; hide Loses;
    if events != [] {
      var t := Next(s, events[0], limits);
      NextInv(s, events[0], limits);
      if Loses(s.coord, events[0], id) {
        assert LostAt(s, events, limits, 0, id);
      } else {
        AgreesUntilLost(s, events[0], limits, id);
        AgreesOrLost(t, events[1..], limits, id);
        hide LostAt;
        if k: nat :| LostAt(t, events[1..], limits, k, id) {
          LostLater(s, events, limits, k, id);
        }
      }
    }
  }

  /** Every assignment is that of a pending task. It names the agent in the record of the task, unless
      some earlier failover of the task found no agent and cleared the record alone. */
  lemma AssignmentsPending(events: seq<Event>, limits: Limits, id: string)
    requires IsRun(START, events, limits) && id in After(START, events, limits).coord.assignments
    ensures var c := After(START, events, limits).coord;
            && id in c.pending
            && (c.pending[id].assignedAgent == c.assignments[id]
                || (c.pending[id].assignedAgent == "" && exists k: nat :: LostAt(START, events, limits, k, id)))
  {
    RunInv(START, events, limits);
    AgreesOrLost(START, events, limits, id);
    hide After; hide IsRun; hide LostAt;
  }

  // ---- What each event does to each task ----

  predicate SameEntry(c: Coord, d: Coord, id: string) {
    && (id in d.pending <==> id in c.pending) && (id in c.pending ==> d.pending[id] == c.pending[id])
    && (id in d.assignments <==> id in c.assignments) && (id in c.assignments ==> d.assignments[id] == c.assignments[id])
  }

  /** Whether the event is about the task. */
  predicate Concerns(s: System, e: Event, id: string) {
    match e
    case Check(_) => false
    case Insert(other, route, _) => other == id && id in s.passed && !route.Unroutable?
    case AgentFailed(agent, _, _) => id in s.coord.pending && id in s.coord.assignments && s.coord.assignments[id] == agent
    case TaskDone(other) => other == id && id in s.coord.pending
    case TimeoutsChecked(now) =>
      id in s.coord.pending && s.coord.pending[id].startedAt.Some?
      && now - s.coord.pending[id].startedAt.value > s.coord.pending[id].timeout
    case StatusReported(other, _) => other == id && id in s.coord.pending
  }

  /** An event leaves every task alone that it is not about. */
  lemma OthersUntouched(s: System, e: Event, limits: Limits, id: string)
    requires Inv(s) && !Concerns(s, e, id)
    ensures SameEntry(s.coord, Next(s, e, limits).coord, id)
  {
    match e
    case AgentFailed(agent, routes, now) =>
      hide Inv; hide Failover;
      FailoverOthers(s.coord, agent, routes, now, id);
    case TimeoutsChecked(now) =>
      hide Inv; hide Expire;
      ExpireOthers(s.coord, now, id);
    case Insert(other, _, _) =>
      assert other in s.passed ==> s.passed[other].id == other;
      hide Inv; hide Routed;
    case _ => hide Inv;
  }

  lemma FailoverOthers(c: Coord, agent: string, routes: map<string, Route>, now: int, id: string)
    requires !(id in c.pending && id in c.assignments && c.assignments[id] == agent)
    ensures SameEntry(c, Failover(c, agent, routes, now), id)
  {
    hide Retried; hide Reroutes;
  }

  lemma ExpireOthers(c: Coord, now: int, id: string)
    requires id in c.assignments ==> id in c.pending
    requires id in c.pending && c.pending[id].startedAt.Some? ==> now - c.pending[id].startedAt.value <= c.pending[id].timeout
    ensures SameEntry(c, Expire(c, now), id)
  {
    hide TimedOut;
  }

  /** What it does to a task that it is about. */
  lemma EventEffect(s: System, e: Event, limits: Limits, id: string)
    requires Inv(s) && Concerns(s, e, id)
    ensures var c, d := s.coord, Next(s, e, limits).coord;
            match e
            case Check(_) => true
            case Insert(_, route, now) =>
              && id in d.pending && id in d.assignments && d.assignments[id] == route.agent
              && d.pending[id] == s.passed[id].(assignedAgent := route.agent, status := Assigned, startedAt := Some(now))
            case AgentFailed(agent, routes, now) =>
              var t, route := c.pending[id], if id in routes then routes[id] else Unroutable;
              && id in d.pending && id in d.assignments
              && d.pending[id].retryCount == t.retryCount + 1
              && d.pending[id].maxRetries == t.maxRetries && d.pending[id].timeout == t.timeout
              && if t.retryCount < t.maxRetries && !route.Unroutable?
                 then && d.assignments[id] == d.pending[id].assignedAgent == route.agent
                      && d.pending[id].status == Assigned && d.pending[id].startedAt == Some(now)
                 else && d.assignments[id] == agent && d.pending[id].status == Failed
                      && d.pending[id].startedAt == t.startedAt
            case TaskDone(_) => id !in d.pending && id !in d.assignments
            case TimeoutsChecked(_) =>
              && id in d.pending && d.pending[id] == c.pending[id].(status := Failed, error := "TIMEOUT")
              && id !in d.assignments
            case StatusReported(_, status) =>
              && id in d.pending && d.pending[id] == c.pending[id].(status := status)
              && (id in d.assignments <==> id in c.assignments)
              && (id in c.assignments ==> d.assignments[id] == c.assignments[id])
  {
  }

  /** A check below capacity lets the task pass with its gaps filled in: three retries, five minutes. */
  lemma CheckFillsIn(s: System, t: Task, limits: Limits)
    ensures var after := Next(s, Check(t), limits);
            if |s.coord.pending| < limits.maxPending then
              && after.coord == s.coord && t.id in after.passed && t.id in after.submitted
              && after.passed[t.id] == after.submitted[t.id]
              && after.passed[t.id].maxRetries == (if t.maxRetries == 0 then 3 else t.maxRetries)
              && after.passed[t.id].timeout == (if t.timeout == 0 then 5 * 60 * 1_000_000_000 else t.timeout)
              && after.passed[t.id].retryCount == t.retryCount && after.passed[t.id].status == Pending
            else after == s
  {
  }

  /** The time of the event if it routes the task. */
  function RoutedBy(s: System, e: Event, id: string, before: Option<int>): Option<int> {
    if !Routes(s, e, id) then before
    else match e
      case Insert(_, _, now) => Some(now)
      case AgentFailed(_, _, now) => Some(now)
      case _ => before
  }

  /** The time of the last routing of the task in the run, or `before` if there is none. */
  function LastRouted(s: System, events: seq<Event>, limits: Limits, id: string, before: Option<int>): Option<int>
    decreases |events|
  {
    if events == [] then before
    else LastRouted(Next(s, events[0], limits), events[1..], limits, id, RoutedBy(s, events[0], id, before))
  }

  /** A pending task started when it was last routed, and keeps the timeout it was submitted with. */
  predicate Clocked(s: System, id: string, routed: Option<int>) {
    id in s.coord.pending ==>
      && routed.Some? && s.coord.pending[id].startedAt == routed
      && id in s.submitted && s.coord.pending[id].timeout == s.submitted[id].timeout
  }

  lemma StepClocked(s: System, e: Event, limits: Limits, id: string, before: Option<int>)
    requires Inv(s) && Legal(s, e, limits) && Clocked(s, id, before)
    ensures Clocked(Next(s, e, limits), id, RoutedBy(s, e, id, before))
  {
    SubmittedKept(s, e, limits, id);
    hide Next; hide Inv; hide Legal;
    if Concerns(s, e, id) {
      EventEffect(s, e, limits, id);
    } else {
      OthersUntouched(s, e, limits, id);
    }
  }

  lemma SubmittedKept(s: System, e: Event, limits: Limits, id: string)
    requires Inv(s) && Legal(s, e, limits)
    ensures id in s.submitted ==> id in Next(s, e, limits).submitted && Next(s, e, limits).submitted[id] == s.submitted[id]
    ensures id in s.passed ==> id in s.submitted && s.passed[id] == s.submitted[id]
  {
    hide Store; hide Failover; hide Expire; hide Defaulted; hide Matches;
  }

  lemma {:induction false} RunClocked(s: System, events: seq<Event>, limits: Limits, id: string, before: Option<int>)
    requires Inv(s) && IsRun(s, events, limits) && Clocked(s, id, before)
    ensures Clocked(After(s, events, limits), id, LastRouted(s, events, limits, id, before))
    decreases |events|
  {
    hide Inv; hide Next; hide Legal; hide Clocked; hide RoutedBy;
    if events != [] {
      var e := events[0];
      NextInv(s, e, limits);
      StepClocked(s, e, limits, id, before);
      RunClocked(Next(s, e, limits), events[1..], limits, id, RoutedBy(s, e, id, before));
    }
  }

  /** A timeout check fails exactly those pending tasks whose last routing lies longer ago than the
      timeout they were submitted with, and takes their assignment away; all others stay as they are. */
  lemma TimeoutsExact(events: seq<Event>, limits: Limits, id: string, now: int)
    requires IsRun(START, events, limits) && id in After(START, events, limits).coord.pending
    ensures var s := After(START, events, limits);
            var d := Next(s, TimeoutsChecked(now), limits).coord;
            var routed := LastRouted(START, events, limits, id, None);
            && routed.Some? && id in s.submitted
            && if now - routed.value > s.submitted[id].timeout
               then && id in d.pending && d.pending[id].status == Failed && d.pending[id].error == "TIMEOUT"
                    && id !in d.assignments
               else SameEntry(s.coord, d, id)
  {
    RunInv(START, events, limits);
    RunClocked(START, events, limits, id, None);
    hide After; hide IsRun; hide LastRouted; hide Next; hide Inv; hide SameEntry; hide Clocked;
    ClockedTimeout(After(START, events, limits), limits, id, now, LastRouted(START, events, limits, id, None));
  }

  lemma ClockedTimeout(s: System, limits: Limits, id: string, now: int, routed: Option<int>)
    requires Inv(s) && Clocked(s, id, routed) && id in s.coord.pending
    ensures var d := Next(s, TimeoutsChecked(now), limits).coord;
            && routed.Some? && id in s.submitted
            && if now - routed.value > s.submitted[id].timeout
               then && id in d.pending && d.pending[id].status == Failed && d.pending[id].error == "TIMEOUT"
                    && id !in d.assignments
               else SameEntry(s.coord, d, id)
  {
    hide Next; hide Inv; hide SameEntry;
    if Concerns(s, TimeoutsChecked(now), id) {
      EventEffect(s, TimeoutsChecked(now), limits, id);
    } else {
      OthersUntouched(s, TimeoutsChecked(now), limits, id);
    }
  }

  // ---- What the failure paths leave behind ----

  /** A failover leaves the task with the failed agent exactly when it does not reroute it, because no
      agent suits or no retry is left, or routes it back to that agent. */
  lemma StillAssignedIff(c: Coord, agent: string, routes: map<string, Route>, now: int, id: string)
    requires Affected(c, id, agent)
    ensures var d := Failover(c, agent, routes, now);
            var t, route := c.pending[id], RouteFor(routes, id);
            && id in d.pending && id in d.assignments
            && (d.assignments[id] == agent <==> !Reroutes(t, route) || route.agent == agent)
            && (!Reroutes(t, route) ==> d.pending[id].status == Failed)
  {
    hide RouteFor;
  }

  /** A run in which a task stays with its failed agent because no other agent suits. */
  lemma UnroutableStaysAssigned(id: string, agent: string, limits: Limits)
    requires limits.maxPending >= 1 && limits.submitters >= 1
    ensures var events := [Check(Fresh(id)), Insert(id, Published(agent), 0), AgentFailed(agent, map[], 0)];
            var c := After(START, events, limits).coord;
            && IsRun(START, events, limits) && Affected(c, id, agent)
            && c.pending[id].error == "FAILOVER_FAILED" && c.pending[id].assignedAgent == ""
  {
    FailedOnce(Fresh(id), agent, map[], limits);
  }

  /** A run in which it does so because its retries are used up, whatever agents there are. */
  lemma ExhaustedStaysAssigned(id: string, agent: string, routes: map<string, Route>, limits: Limits)
    requires limits.maxPending >= 1 && limits.submitters >= 1
    ensures var task := Fresh(id).(retryCount := DEFAULT_MAX_RETRIES);
            var events := [Check(task), Insert(id, Published(agent), 0), AgentFailed(agent, routes, 0)];
            var c := After(START, events, limits).coord;
            && IsRun(START, events, limits) && Affected(c, id, agent)
            && c.pending[id].error == "MAX_RETRIES" && c.pending[id].assignedAgent == agent
  {
    FailedOnce(Fresh(id).(retryCount := DEFAULT_MAX_RETRIES), agent, routes, limits);
  }

  lemma FailedOnce(task: Task, agent: string, routes: map<string, Route>, limits: Limits)
    requires limits.maxPending >= 1 && limits.submitters >= 1
    ensures var events := [Check(task), Insert(task.id, Published(agent), 0), AgentFailed(agent, routes, 0)];
            var stored := Routed(Defaulted(task), agent, 0);
            && IsRun(START, events, limits)
            && After(START, events, limits).coord
               == Failover(Coord(map[task.id := stored], map[task.id := agent]), agent, routes, 0)
  {
    var e0, e1, e2 := Check(task), Insert(task.id, Published(agent), 0), AgentFailed(agent, routes, 0);
    var s1 := Next(START, e0, limits);
    hide Routed; hide Failover;
    var s2 := Next(s1, e1, limits);
    assert s2.coord == Coord(map[task.id := Routed(Defaulted(task), agent, 0)], map[task.id := agent]);
    TwoEvents(START, e0, e1, limits);
    AfterCons(s2, e2, [], limits);
    AfterNone(Next(s2, e2, limits), limits);
    RunConcat(START, [e0, e1], [e2], limits);
    assert [e2] + [] == [e2] && [e0, e1] + [e2] == [e0, e1, e2];
  }

  lemma TwoEvents(s: System, d: Event, e: Event, limits: Limits)
    requires Legal(s, d, limits) && Legal(Next(s, d, limits), e, limits)
    ensures IsRun(s, [d, e], limits) && After(s, [d, e], limits) == Next(Next(s, d, limits), e, limits)
  {
    var t := Next(s, d, limits);
    hide Next; hide Legal;
    AfterNone(Next(t, e, limits), limits);
    AfterCons(t, e, [], limits);
    AfterCons(s, d, [e], limits);
    assert [e] + [] == [e] && [d] + [e] == [d, e];
  }

  /** A submission that no other one overlaps. */
  function Submit(c: Coord, t: Task, route: Route, now: int, maxPending: int): Coord {
    if |c.pending| >= maxPending then c else Store(c, Defaulted(t), route, now)
  }

  /** Whether it is reported as a success. */
  predicate Accepted(c: Coord, route: Route, maxPending: int) {
    |c.pending| < maxPending && route.Published?
  }

  /** It is what a check makes of the state when its insertion follows at once. */
  lemma SubmitIsCheckThenInsert(s: System, t: Task, route: Route, now: int, limits: Limits)
    requires t.id !in s.passed
    ensures After(s, [Check(t), Insert(t.id, route, now)], limits).coord == Submit(s.coord, t, route, now, limits.maxPending)
  {
    var d, e := Check(t), Insert(t.id, route, now);
    AfterNone(Next(Next(s, d, limits), e, limits), limits);
    AfterCons(Next(s, d, limits), e, [], limits);
    AfterCons(s, d, [e], limits);
    assert [e] + [] == [e] && [d] + [e] == [d, e];
    hide After; hide Store; hide Defaulted;
  }

  /** A submission that reports an error changes nothing, exactly unless there was room for it and its
      message could not be published: then the task is stored and assigned all the same. */
  lemma ErrorHarmlessIff(c: Coord, t: Task, route: Route, now: int, maxPending: int)
    requires t.id !in c.pending && !Accepted(c, route, maxPending)
    ensures var d := Submit(c, t, route, now, maxPending);
            var stored := |c.pending| < maxPending && route.PublishFailed?;
            (d == c <==> !stored) && (stored ==> t.id in d.pending && t.id in d.assignments && d.assignments[t.id] == route.agent)
  {
  }

  /** A run in which a submission reports an error and leaves its task behind. */
  lemma PublishFailureStores(id: string, agent: string, now: int, limits: Limits)
    requires limits.maxPending >= 1 && limits.submitters >= 1
    ensures var events := [Check(Fresh(id)), Insert(id, PublishFailed(agent), now)];
            && IsRun(START, events, limits) && !Accepted(START.coord, PublishFailed(agent), limits.maxPending)
            && Affected(After(START, events, limits).coord, id, agent)
  {
    TwoEvents(START, Check(Fresh(id)), Insert(id, PublishFailed(agent), now), limits);
  }

  // ---- How often a task is routed ----

  /** The routings still possible for a task in this state. */
  function Budget(s: System, id: string): nat {
    if id in s.passed then 1 + Max(0, s.passed[id].maxRetries - s.passed[id].retryCount)
    else if id in s.coord.assignments && id in s.coord.pending
    then Max(0, s.coord.pending[id].maxRetries - s.coord.pending[id].retryCount)
    else 0
  }

  lemma FailoverBudget(s: System, agent: string, routes: map<string, Route>, now: int, limits: Limits, id: string)
    requires Inv(s) && id in s.submitted
    ensures var e := AgentFailed(agent, routes, now);
            (if Routes(s, e, id) then 1 else 0) + Budget(Next(s, e, limits), id) <= Budget(s, id)
  {
  }

  lemma InsertBudget(s: System, other: string, route: Route, now: int, limits: Limits, id: string)
    requires Inv(s) && id in s.submitted
    ensures var e := Insert(other, route, now);
            (if Routes(s, e, id) then 1 else 0) + Budget(Next(s, e, limits), id) <= Budget(s, id)
  {
  }

  /** A routing uses up one unit of the budget, and nothing but a first check adds to it. */
  lemma BudgetFalls(s: System, e: Event, limits: Limits, id: string)
    requires Inv(s) && Legal(s, e, limits) && id in s.submitted
    ensures (if Routes(s, e, id) then 1 else 0) + Budget(Next(s, e, limits), id) <= Budget(s, id)
    ensures id in Next(s, e, limits).submitted && Next(s, e, limits).submitted[id] == s.submitted[id]
  {
    match e
    case Insert(other, route, now) =>
      hide Inv; hide Budget; hide Store;
      InsertBudget(s, other, route, now, limits, id);
    case AgentFailed(agent, routes, now) =>
      hide Inv; hide Budget; hide Failover;
      FailoverBudget(s, agent, routes, now, limits, id);
    case _ =>
  }

  lemma {:induction false} RoutingsWithinBudget(s: System, events: seq<Event>, limits: Limits, id: string)
    requires Inv(s) && IsRun(s, events, limits) && id in s.submitted
    ensures Routings(s, events, limits, id) <= Budget(s, id)
    ensures id in After(s, events, limits).submitted && After(s, events, limits).submitted[id] == s.submitted[id]
    decreases |events|
  {
    hide Inv; hide Next; hide Legal; hide Budget; hide Routes;
    if events != [] {
      NextInv(s, events[0], limits);
      BudgetFalls(s, events[0], limits, id);
      RoutingsWithinBudget(Next(s, events[0], limits), events[1..], limits, id);
    }
  }

  lemma UnsubmittedStep(s: System, e: Event, limits: Limits, id: string)
    requires Inv(s) && id !in s.submitted
    ensures !Routes(s, e, id)
    ensures var t := Next(s, e, limits);
            id in t.submitted ==> Budget(t, id) == 1 + Max(0, t.submitted[id].maxRetries - t.submitted[id].retryCount)
  {
  }

  lemma {:induction false} RoutingsOfNew(s: System, events: seq<Event>, limits: Limits, id: string)
    requires Inv(s) && IsRun(s, events, limits) && id !in s.submitted
    ensures var end := After(s, events, limits);
            if id in end.submitted
            then Routings(s, events, limits, id) <= 1 + Max(0, end.submitted[id].maxRetries - end.submitted[id].retryCount)
            else Routings(s, events, limits, id) == 0
    decreases |events|
  {
    hide Inv; hide Next; hide Legal; hide Budget; hide Routes; hide Max;
    if events != [] {
      var t := Next(s, events[0], limits);
      NextInv(s, events[0], limits);
      UnsubmittedStep(s, events[0], limits, id);
      if id in t.submitted {
        RoutingsWithinBudget(t, events[1..], limits, id);
      } else {
        RoutingsOfNew(t, events[1..], limits, id);
      }
    }
  }

  /** Whatever happens, a task is routed at most once and once more for each retry it is allowed. */
  lemma RoutingBound(events: seq<Event>, limits: Limits, id: string)
    requires IsRun(START, events, limits)
    ensures var end := After(START, events, limits);
            if id in end.submitted
            then Routings(START, events, limits, id) <= 1 + Max(0, end.submitted[id].maxRetries - end.submitted[id].retryCount)
            else Routings(START, events, limits, id) == 0
  {
    RoutingsOfNew(START, events, limits, id);
  }

  /** Completed, timed out or found unroutable when submitted: submitted, but neither on its way in nor
      assigned. */
  predicate Settled(s: System, id: string) {
    id in s.submitted && id !in s.passed && id !in s.coord.assignments
  }

  /** Completion and timeout settle a task. */
  lemma Settles(s: System, id: string, now: int, limits: Limits)
    requires Inv(s) && id in s.coord.pending
    ensures Settled(Next(s, TaskDone(id), limits), id)
    ensures Overdue(s.coord.pending[id], now) ==> Settled(Next(s, TimeoutsChecked(now), limits), id)
  {
  }

  /** A settled task is never routed again. */
  lemma SettledForever(s: System, events: seq<Event>, limits: Limits, id: string)
    requires Inv(s) && IsRun(s, events, limits) && Settled(s, id)
    ensures Routings(s, events, limits, id) == 0
  {
    RoutingsWithinBudget(s, events, limits, id);
  }

  // ---- The bound on pending tasks ----

  /** The most tasks that can be pending. */
  function Ceiling(limits: Limits): int {
    if limits.maxPending <= 0 || limits.submitters == 0 then 0 else limits.maxPending + limits.submitters - 1
  }

  lemma InsertSize(s: System, id: string, route: Route, now: int)
    requires Inv(s) && id in s.passed
    ensures |(s.passed - {id})| == |s.passed| - 1
    ensures |Store(s.coord, s.passed[id], route, now).pending| <= |s.coord.pending| + 1
  {
    assert s.passed.Keys == (s.passed - {id}).Keys + {id};
  }

  lemma FinishSize(c: Coord, id: string)
    ensures |Finish(c, id).pending| <= |c.pending|
  {
    if id in c.pending {
      assert c.pending.Keys == (c.pending - {id}).Keys + {id};
    }
  }

  lemma SameSize(before: map<string, Task>, after: map<string, Task>)
    requires forall id :: id in before <==> id in after
    ensures |before| == |after|
  {
    assert before.Keys == after.Keys;
  }

  lemma SizeStep(s: System, e: Event, limits: Limits)
    requires Inv(s) && Legal(s, e, limits)
    requires |s.coord.pending| + |s.passed| <= Ceiling(limits) && |s.passed| <= limits.submitters
    ensures var t := Next(s, e, limits);
            |t.coord.pending| + |t.passed| <= Ceiling(limits) && |t.passed| <= limits.submitters
  {
    match e
    case Check(_) => hide Inv;
    case Insert(id, route, now) => hide Inv; hide Store; if id in s.passed { InsertSize(s, id, route, now); }
    case AgentFailed(agent, routes, now) => hide Inv; SameSize(s.coord.pending, Failover(s.coord, agent, routes, now).pending);
    case TaskDone(id) => hide Inv; hide Finish; FinishSize(s.coord, id);
    case TimeoutsChecked(now) => hide Inv; SameSize(s.coord.pending, Expire(s.coord, now).pending);
    case StatusReported(id, status) => hide Inv; SameSize(s.coord.pending, Report(s.coord, id, status).pending);
  }

  lemma {:induction false} SizeRun(s: System, events: seq<Event>, limits: Limits)
    requires Inv(s) && IsRun(s, events, limits)
    requires |s.coord.pending| + |s.passed| <= Ceiling(limits) && |s.passed| <= limits.submitters
    ensures |After(s, events, limits).coord.pending| <= Ceiling(limits)
    decreases |events|
  {
    hide Inv; hide Next; hide Legal;
    if events != [] {
      NextInv(s, events[0], limits);
      SizeStep(s, events[0], limits);
      SizeRun(Next(s, events[0], limits), events[1..], limits);
    }
  }

  /** With K submitters at once, at most K - 1 tasks get past the capacity limit. */
  lemma CapacityBound(events: seq<Event>, limits: Limits)
    requires IsRun(START, events, limits)
    ensures |After(START, events, limits).coord.pending| <= Ceiling(limits)
  {
    SizeRun(START, events, limits);
  }

  // ---- Both bounds are reached ----

  function Checks(ids: seq<string>): seq<Event> {
    if ids == [] then [] else [Check(Fresh(ids[0]))] + Checks(ids[1..])
  }

  function Inserts(ids: seq<string>, agent: string): seq<Event> {
    if ids == [] then [] else [Insert(ids[0], Published(agent), 0)] + Inserts(ids[1..], agent)
  }

  predicate Distinct(ids: seq<string>) {
    forall i, j | 0 <= i < j < |ids| :: ids[i] != ids[j]
  }

  predicate Unused(s: System, ids: seq<string>) {
    Distinct(ids) && forall i | 0 <= i < |ids| :: ids[i] !in s.submitted
  }

  predicate AllPassed(s: System, ids: seq<string>) {
    Distinct(ids) && forall i | 0 <= i < |ids| :: ids[i] in s.passed
  }

  lemma HeadOrTail(ids: seq<string>, id: string)
    requires ids != []
    ensures id in ids <==> id == ids[0] || id in ids[1..]
  {
    assert ids == [ids[0]] + ids[1..];
  }

  lemma CheckPasses(s: System, ids: seq<string>, limits: Limits)
    requires Inv(s) && ids != [] && Unused(s, ids)
    requires |s.coord.pending| < limits.maxPending && |s.passed| + |ids| <= limits.submitters
    ensures var e := Check(Fresh(ids[0]));
            var t := Next(s, e, limits);
            && Legal(s, e, limits) && t.coord == s.coord && |t.passed| == |s.passed| + 1
            && t.passed == s.passed[ids[0] := Defaulted(Fresh(ids[0]))]
            && t.submitted == s.submitted[ids[0] := Defaulted(Fresh(ids[0]))]
            && Unused(t, ids[1..])
  {
    hide Defaulted; hide Fresh;
    assert ids[0] !in s.submitted && ids[0] !in s.passed;
    hide Inv;
    assert s.passed[ids[0] := Defaulted(Fresh(ids[0]))].Keys == s.passed.Keys + {ids[0]};
  }

  /** A group of submitters of unused identifiers all pass the check, as long as one of them would. */
  lemma {:induction false} ChecksPass(s: System, ids: seq<string>, limits: Limits)
    requires Inv(s) && Unused(s, ids)
    requires |s.coord.pending| < limits.maxPending && |s.passed| + |ids| <= limits.submitters
    ensures IsRun(s, Checks(ids), limits) && After(s, Checks(ids), limits).coord == s.coord
    decreases |ids|
  {
    hide After; hide IsRun;
    AfterNone(s, limits);
    if ids != [] {
      var e := Check(Fresh(ids[0]));
      CheckPasses(s, ids, limits);
      NextInv(s, e, limits);
      hide Next; hide Legal; hide Inv; hide Unused;
      ChecksPass(Next(s, e, limits), ids[1..], limits);
      AfterCons(s, e, Checks(ids[1..]), limits);
    }
  }

  lemma {:induction false} ChecksEnd(s: System, ids: seq<string>, limits: Limits, id: string)
    requires Inv(s) && Unused(s, ids)
    requires |s.coord.pending| < limits.maxPending && |s.passed| + |ids| <= limits.submitters
    ensures var end := After(s, Checks(ids), limits);
            && (id in end.passed <==> id in s.passed || id in ids)
            && (id in end.submitted <==> id in s.submitted || id in ids)
    decreases |ids|
  {
    hide After; hide IsRun;
    AfterNone(s, limits);
    if ids != [] {
      var e := Check(Fresh(ids[0]));
      CheckPasses(s, ids, limits);
      NextInv(s, e, limits);
      hide Next; hide Legal; hide Inv; hide Unused; hide Defaulted; hide Fresh;
      ChecksEnd(Next(s, e, limits), ids[1..], limits, id);
      HeadOrTail(ids, id);
      AfterCons(s, e, Checks(ids[1..]), limits);
    }
  }

  lemma InsertStores(s: System, ids: seq<string>, agent: string, limits: Limits)
    requires Inv(s) && ids != [] && AllPassed(s, ids)
    ensures var e := Insert(ids[0], Published(agent), 0);
            var t := Next(s, e, limits);
            && Legal(s, e, limits) && t.submitted == s.submitted && t.passed == s.passed - {ids[0]}
            && |t.coord.pending| == |s.coord.pending| + 1 && AllPassed(t, ids[1..])
  {
    var id := ids[0];
    var stored := s.coord.pending[id := Routed(s.passed[id], agent, 0)];
    assert id !in s.coord.pending && s.passed[id].id == id;
    hide Routed; hide Inv;
    assert Next(s, Insert(id, Published(agent), 0), limits).coord.pending == stored;
    assert stored.Keys == s.coord.pending.Keys + {id};
  }

  lemma {:induction false} InsertsStore(s: System, ids: seq<string>, agent: string, limits: Limits)
    requires Inv(s) && AllPassed(s, ids)
    ensures var end := After(s, Inserts(ids, agent), limits);
            && IsRun(s, Inserts(ids, agent), limits) && end.submitted == s.submitted
            && |end.coord.pending| == |s.coord.pending| + |ids|
    decreases |ids|
  {
    hide After; hide IsRun;
    AfterNone(s, limits);
    if ids != [] {
      var e := Insert(ids[0], Published(agent), 0);
      InsertStores(s, ids, agent, limits);
      NextInv(s, e, limits);
      hide Next; hide Legal; hide Inv; hide AllPassed;
      InsertsStore(Next(s, e, limits), ids[1..], agent, limits);
      AfterCons(s, e, Inserts(ids[1..], agent), limits);
    }
  }

  lemma {:induction false} InsertsEnd(s: System, ids: seq<string>, agent: string, limits: Limits, id: string)
    requires Inv(s) && AllPassed(s, ids)
    ensures id in After(s, Inserts(ids, agent), limits).passed <==> id in s.passed && id !in ids
    decreases |ids|
  {
    hide After; hide IsRun;
    AfterNone(s, limits);
    if ids != [] {
      var e := Insert(ids[0], Published(agent), 0);
      InsertStores(s, ids, agent, limits);
      NextInv(s, e, limits);
      hide Next; hide Legal; hide Inv; hide AllPassed;
      InsertsEnd(Next(s, e, limits), ids[1..], agent, limits, id);
      HeadOrTail(ids, id);
      AfterCons(s, e, Inserts(ids[1..], agent), limits);
    }
  }

  /** All of a group of submitters check before any of them inserts. */
  function Together(ids: seq<string>, agent: string): seq<Event> {
    Checks(ids) + Inserts(ids, agent)
  }

  predicate Quiet(s: System) {
    s.passed == map[] && Inv(s)
  }

  lemma TogetherStores(s: System, ids: seq<string>, agent: string, limits: Limits)
    requires Quiet(s) && Unused(s, ids) && |s.coord.pending| < limits.maxPending && |ids| <= limits.submitters
    ensures var end := After(s, Together(ids, agent), limits);
            && IsRun(s, Together(ids, agent), limits) && Quiet(end)
            && |end.coord.pending| == |s.coord.pending| + |ids|
            && (forall id :: id in end.submitted <==> id in s.submitted || id in ids)
  {
    var mid := After(s, Checks(ids), limits);
    ChecksPass(s, ids, limits);
    RunInv(s, Checks(ids), limits);
    forall id ensures id in mid.passed <==> id in ids
              ensures id in mid.submitted <==> id in s.submitted || id in ids
    {
      ChecksEnd(s, ids, limits, id);
    }
    hide Inv; hide After; hide IsRun;
    InsertsStore(mid, ids, agent, limits);
    RunInv(mid, Inserts(ids, agent), limits);
    RunConcat(s, Checks(ids), Inserts(ids, agent), limits);
    var end := After(mid, Inserts(ids, agent), limits);
    forall id ensures id !in end.passed {
      InsertsEnd(mid, ids, agent, limits, id);
    }
    assert end.passed == map[];
  }

  /** Submissions one after the other, except for the last `k`, which overlap. */
  function Flood(ids: seq<string>, agent: string, k: nat): seq<Event>
    decreases |ids|
  {
    if |ids| <= k then Together(ids, agent) else Together([ids[0]], agent) + Flood(ids[1..], agent, k)
  }

  lemma {:induction false} FloodStores(s: System, ids: seq<string>, agent: string, limits: Limits)
    requires Quiet(s) && limits.submitters >= 1
    requires |s.coord.pending| + |ids| <= limits.maxPending + limits.submitters - 1 && |s.coord.pending| < limits.maxPending
    requires Unused(s, ids)
    ensures IsRun(s, Flood(ids, agent, limits.submitters), limits)
    ensures |After(s, Flood(ids, agent, limits.submitters), limits).coord.pending| == |s.coord.pending| + |ids|
    decreases |ids|
  {
    hide Together; hide Quiet; hide IsRun; hide After;
    if |ids| <= limits.submitters {
      TogetherStores(s, ids, agent, limits);
    } else {
      var first := Together([ids[0]], agent);
      TogetherStores(s, [ids[0]], agent, limits);
      var t := After(s, first, limits);
      assert Unused(t, ids[1..]);
      FloodStores(t, ids[1..], agent, limits);
      RunConcat(s, first, Flood(ids[1..], agent, limits.submitters), limits);
    }
  }

  /** The ceiling is reached by some run: the capacity check does not keep the limit itself as soon as
      two submitters overlap. */
  lemma CapacityBoundTight(ids: seq<string>, agent: string, limits: Limits)
    requires limits.maxPending >= 1 && limits.submitters >= 1
    requires Distinct(ids) && |ids| == Ceiling(limits)
    ensures IsRun(START, Flood(ids, agent, limits.submitters), limits)
    ensures |After(START, Flood(ids, agent, limits.submitters), limits).coord.pending| == Ceiling(limits)
  {
    hide Flood;
    FloodStores(START, ids, agent, limits);
  }

  /** The same agent fails `n` times, and each time the task is routed back to it. */
  function Failures(agent: string, id: string, n: nat): seq<Event> {
    if n == 0 then [] else [AgentFailed(agent, map[id := Published(agent)], 0)] + Failures(agent, id, n - 1)
  }

  lemma OneFailure(s: System, agent: string, id: string, limits: Limits)
    requires Affected(s.coord, id, agent) && s.coord.pending[id].retryCount + 1 <= s.coord.pending[id].maxRetries
    ensures var e := AgentFailed(agent, map[id := Published(agent)], 0);
            var t := Next(s, e, limits);
            && Legal(s, e, limits) && Routes(s, e, id) && Affected(t.coord, id, agent)
            && t.coord.pending[id].retryCount == s.coord.pending[id].retryCount + 1
            && t.coord.pending[id].maxRetries == s.coord.pending[id].maxRetries
  {
  }

  lemma {:induction false} FailuresRoute(s: System, agent: string, id: string, n: nat, limits: Limits)
    requires Affected(s.coord, id, agent) && s.coord.pending[id].retryCount + n <= s.coord.pending[id].maxRetries
    ensures IsRun(s, Failures(agent, id, n), limits) && Routings(s, Failures(agent, id, n), limits, id) == n
    decreases n
  {
    hide Next; hide Routes; hide Legal;
    if n > 0 {
      var e := AgentFailed(agent, map[id := Published(agent)], 0);
      assert Failures(agent, id, n)[1..] == Failures(agent, id, n - 1);
      OneFailure(s, agent, id, limits);
      FailuresRoute(Next(s, e, limits), agent, id, n - 1, limits);
    }
  }

  /** The routing bound is reached by a task whose agent keeps failing. */
  lemma RoutingBoundTight(task: Task, agent: string, limits: Limits)
    requires limits.maxPending >= 1 && limits.submitters >= 1
    ensures var t := Defaulted(task);
            var n := Max(0, t.maxRetries - t.retryCount);
            var events := [Check(task), Insert(task.id, Published(agent), 0)] + Failures(agent, task.id, n);
            IsRun(START, events, limits) && Routings(START, events, limits, task.id) == 1 + n
  {
    var t := Defaulted(task);
    var n := Max(0, t.maxRetries - t.retryCount);
    var e0, e1 := Check(task), Insert(task.id, Published(agent), 0);
    var rest := Failures(agent, task.id, n);
    var events := [e0, e1] + rest;
    var s1 := Next(START, e0, limits);
    var s2 := Next(s1, e1, limits);
    assert events[1..] == [e1] + rest && events[1..][1..] == rest;
    if n > 0 {
      FailuresRoute(s2, agent, task.id, n, limits);
    }
    assert Routings(s1, events[1..], limits, task.id) == 1 + Routings(s2, rest, limits, task.id);
  }

  // ---- The agent object ----

  class CoordinationAgent {
    var pendingTasks: map<string, Task>
    var taskAssignments: map<string, string>
    const maxPendingTasks: int

    constructor (maxPendingTasks: int)
      ensures Valid() && View() == Coord(map[], map[]) && this.maxPendingTasks == maxPendingTasks
    {
      this.maxPendingTasks := maxPendingTasks;
      pendingTasks, taskAssignments := map[], map[];
    }

    function View(): Coord
      reads this
    {
      Coord(pendingTasks, taskAssignments)
    }

    /** Fails without an effect when no agent suits, and with the task stored when publishing fails. */
    method RouteTask(task: Task, route: Route, now: int) returns (ok: bool)
      requires Valid()
      modifies this
      ensures Valid() && ok == route.Published?
      ensures View() == Store(old(View()), task, route, now)
    {
      if route.Unroutable? {
        return false;
      }
      var t := task.(assignedAgent := route.agent, status := Assigned, startedAt := Some(now));
      pendingTasks := pendingTasks[t.id := t];
      taskAssignments := taskAssignments[t.id := route.agent];
      return route.Published?;
    }

    /** A submission that no other one overlaps: the check and the insertion in one go. */
    method SubmitTask(task: Task, freshId: string, route: Route, now: int) returns (id: Option<string>)
      requires Valid()
      modifies this
      ensures Valid()
      ensures var t := task.(id := if task.id == "" then freshId else task.id);
              && View() == Submit(old(View()), t, route, now, maxPendingTasks)
              && id == if Accepted(old(View()), route, maxPendingTasks) then Some(t.id) else None
    {
      var t := task;
      if t.id == "" {
        t := t.(id := freshId);
      }
      if t.maxRetries == 0 {
        t := t.(maxRetries := 3);
      }
      if t.timeout == 0 {
        t := t.(timeout := 300_000_000_000);
      }
      t := t.(status := Pending);
      if |pendingTasks| >= maxPendingTasks {
        return None;
      }
      var ok := RouteTask(t, route, now);
      if !ok {
        return None;
      }
      return Some(t.id);
    }

    ghost predicate Valid()
      reads this
    {
      forall id | id in pendingTasks :: pendingTasks[id].id == id
    }

    method CollectTasks(agent: string) returns (tasks: seq<Task>)
      requires Valid()
      ensures forall i | 0 <= i < |tasks| :: tasks[i].id in AffectedIds(View(), agent) && tasks[i] == pendingTasks[tasks[i].id]
      ensures forall i, j | 0 <= i < j < |tasks| :: tasks[i].id != tasks[j].id
      ensures forall id | id in AffectedIds(View(), agent) :: exists i :: 0 <= i < |tasks| && tasks[i].id == id
      ensures |tasks| == |AffectedIds(View(), agent)|
    {
      tasks := [];
      var ids := taskAssignments.Keys;
      while ids != {}
        invariant ids <= taskAssignments.Keys
        invariant forall i | 0 <= i < |tasks| ::
                    Affected(View(), tasks[i].id, agent) && tasks[i] == pendingTasks[tasks[i].id] && tasks[i].id !in ids
        invariant forall i, j | 0 <= i < j < |tasks| :: tasks[i].id != tasks[j].id
        invariant forall id | id in taskAssignments && id !in ids && Affected(View(), id, agent) ::
                    exists i :: 0 <= i < |tasks| && tasks[i].id == id
        decreases ids
      {
        var id :| id in ids;
        ghost var before := tasks;
        if taskAssignments[id] == agent {
          if id in pendingTasks {
            tasks := tasks + [pendingTasks[id]];
            assert tasks[|before|].id == id;
          }
        }
        assert forall i | 0 <= i < |before| :: tasks[i] == before[i];
        ids := ids - {id};
      }
      CountTasks(tasks, AffectedIds(View(), agent));
    }

    method FailOverTask(task: Task, route: Route, now: int)
      requires Valid() && task.id in pendingTasks
      modifies this
      ensures Valid() && pendingTasks == old(pendingTasks)[task.id := Retried(task, route, now)]
      ensures taskAssignments ==
              if Reroutes(task, route) then old(taskAssignments)[task.id := route.agent] else old(taskAssignments)
    {
      var t := task.(retryCount := task.retryCount + 1);
      if t.retryCount <= t.maxRetries {
        t := t.(status := Pending, assignedAgent := "");
        var ok := RouteTask(t, route, now);
        if route.Unroutable? {
          pendingTasks := pendingTasks[t.id := t.(status := Failed, error := "FAILOVER_FAILED")];
        }
      } else {
        pendingTasks := pendingTasks[t.id := t.(status := Failed, error := "MAX_RETRIES")];
      }
    }

    /** The tasks of the failed agent are collected first and then handled one by one. */
    method HandleFailover(failedAgent: string, routes: map<string, Route>, now: int) returns (affected: nat)
      requires Valid()
      modifies this
      ensures Valid() && View() == Failover(old(View()), failedAgent, routes, now)
      ensures affected == |AffectedIds(old(View()), failedAgent)|
    {
      ghost var start := View();
      var tasks := CollectTasks(failedAgent);
      affected := |tasks|;
      ghost var done := {};
      FailoverOfNone(start, routes, now);
      for i := 0 to |tasks|
        invariant Valid() && View() == FailoverOf(start, done, routes, now)
        invariant done <= AffectedIds(start, failedAgent)
        invariant forall k | 0 <= k < |tasks| :: tasks[k].id in done <==> k < i
      {
        var id := tasks[i].id;
        FailoverOfOne(start, done, id, routes, now);
        hide FailoverOf; hide Retried; hide Reroutes;
        FailOverTask(tasks[i], RouteFor(routes, id), now);
        done := done + {id};
      }
      assert done == AffectedIds(start, failedAgent);
    }

    method HandleTaskComplete(taskID: string)
      requires Valid()
      modifies this
      ensures Valid() && View() == Finish(old(View()), taskID)
    {
      if taskID in pendingTasks {
        pendingTasks := pendingTasks - {taskID};
        taskAssignments := taskAssignments - {taskID};
      }
    }

    method HandleTaskStatus(taskID: string, status: Status)
      requires Valid()
      modifies this
      ensures Valid() && View() == Report(old(View()), taskID, status)
    {
      if taskID in pendingTasks {
        pendingTasks := pendingTasks[taskID := pendingTasks[taskID].(status := status)];
      }
    }

    /** Visits the pending tasks in arbitrary order; a task that has timed out stays pending as failed
        and loses its assignment. */
    method CheckTaskTimeouts(now: int)
      requires Valid()
      modifies this
      ensures Valid() && View() == Expire(old(View()), now)
    {
      ghost var start, done := View(), {};
      ExpireOfNone(start, now);
      var ids := pendingTasks.Keys;
      while ids != {}
        invariant Valid() && ids + done == start.pending.Keys && ids !! done
        invariant View() == ExpireOf(start, done, now)
        decreases ids
      {
        var id :| id in ids;
        ExpireOfOne(start, done, id, now);
        var task := pendingTasks[id];
        if task.startedAt.Some? && now - task.startedAt.value > task.timeout {
          pendingTasks := pendingTasks[id := task.(status := Failed, error := "TIMEOUT")];
          taskAssignments := taskAssignments - {id};
        }
        ids, done := ids - {id}, done + {id};
      }
      ExpireOfAll(start, done, now);
    }
  }

  lemma {:induction false} CountTasks(tasks: seq<Task>, ids: set<string>)
    requires forall i | 0 <= i < |tasks| :: tasks[i].id in ids
    requires forall i, j | 0 <= i < j < |tasks| :: tasks[i].id != tasks[j].id
    requires forall id | id in ids :: exists i :: 0 <= i < |tasks| && tasks[i].id == id
    ensures |tasks| == |ids|
  {
    if tasks == [] {
      assert ids == {};
    } else {
      var rest := tasks[1..];
      assert forall i | 0 < i < |tasks| :: tasks[i] == rest[i - 1];
      CountTasks(rest, ids - {tasks[0].id});
    }
  }

  lemma FailoverOfNone(c: Coord, routes: map<string, Route>, now: int)
    ensures FailoverOf(c, {}, routes, now) == c
  {
    assert FailoverOf(c, {}, routes, now).pending == c.pending;
    assert FailoverOf(c, {}, routes, now).assignments == c.assignments;
  }

  lemma FailoverOfOne(c: Coord, ids: set<string>, id: string, routes: map<string, Route>, now: int)
    requires id !in ids && id in c.pending && id in c.assignments
    ensures var before, after := FailoverOf(c, ids, routes, now), FailoverOf(c, ids + {id}, routes, now);
            var t, route := c.pending[id], RouteFor(routes, id);
            && before.pending[id] == t && before.assignments[id] == c.assignments[id]
            && after.pending == before.pending[id := Retried(t, route, now)]
            && after.assignments == if Reroutes(t, route) then before.assignments[id := route.agent] else before.assignments
  {
  }

  function ExpireOf(c: Coord, ids: set<string>, now: int): Coord {
    Coord(map id | id in c.pending :: if id in ids && Overdue(c.pending[id], now) then TimedOut(c.pending[id]) else c.pending[id],
          map id | id in c.assignments && !(id in ids && id in c.pending && Overdue(c.pending[id], now)) :: c.assignments[id])
  }

  lemma ExpireOfNone(c: Coord, now: int)
    ensures ExpireOf(c, {}, now) == c
  {
    assert ExpireOf(c, {}, now).pending == c.pending;
    assert ExpireOf(c, {}, now).assignments == c.assignments;
  }

  lemma ExpireOfAll(c: Coord, ids: set<string>, now: int)
    requires ids == c.pending.Keys
    ensures ExpireOf(c, ids, now) == Expire(c, now)
  {
  }

  lemma ExpireOfOne(c: Coord, ids: set<string>, id: string, now: int)
    requires id !in ids && id in c.pending
    ensures var before, after, t := ExpireOf(c, ids, now), ExpireOf(c, ids + {id}, now), c.pending[id];
            && before.pending[id] == t
            && after == if Overdue(t, now) then Coord(before.pending[id := TimedOut(t)], before.assignments - {id}) else before
  {
    var before, after := ExpireOf(c, ids, now), ExpireOf(c, ids + {id}, now);
    if Overdue(c.pending[id], now) {
      assert after.pending == before.pending[id := TimedOut(c.pending[id])];
      assert after.assignments == before.assignments - {id};
    } else {
      assert after.pending == before.pending;
      assert after.assignments == before.assignments;
    }
  }
}
