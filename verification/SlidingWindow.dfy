/** The per-tool sliding-window limiter `RateLimitHandler` of pkg/hooks/builtin.go, against the
    full log of admitted calls. Times are integer nanoseconds. */
module SlidingWindow {

  datatype Config = Config(windowSize: int, maxOperations: int)

  type History = map<string, seq<int>>

  function Times(h: History, tool: string): seq<int> {
    if tool in h then h[tool] else []
  }

  /** The entries after the cutoff, in order. */
  function Recent(times: seq<int>, cutoff: int): seq<int> {
    if times == [] then [] else
    var kept, last := Recent(times[..|times| - 1], cutoff), times[|times| - 1];
    if last > cutoff then kept + [last] else kept
  }

  predicate Blocks(c: Config, h: History, tool: string, now: int) {
    |Recent(Times(h, tool), now - c.windowSize)| >= c.maxOperations
  }

  /** A blocked call leaves the stored list unpruned. */
  function AfterExecute(c: Config, h: History, tool: string, now: int): History {
    if Blocks(c, h, tool, now) then h else h[tool := Recent(Times(h, tool), now - c.windowSize) + [now]]
  }

  // ---- Runs ----

  datatype Call = Call(at: int, tool: string)

  /** `log` holds every admitted call of the run, never pruned. */
  datatype System = System(history: History, log: seq<Call>)

  function Step(c: Config, s: System, call: Call): System {
    System(AfterExecute(c, s.history, call.tool, call.at),
           if Blocks(c, s.history, call.tool, call.at) then s.log else s.log + [call])
  }

  function Run(c: Config, calls: seq<Call>): System {
    if calls == [] then System(map[], []) else Step(c, Run(c, calls[..|calls| - 1]), calls[|calls| - 1])
  }

  predicate Monotone(calls: seq<Call>) {
    forall i, j | 0 <= i < j < |calls| :: calls[i].at <= calls[j].at
  }

  /** Times at which the log admitted calls of one tool. */
  function Admissions(log: seq<Call>, tool: string): seq<int> {
    if log == [] then [] else
    var earlier, last := Admissions(log[..|log| - 1], tool), log[|log| - 1];
    if last.tool == tool then earlier + [last.at] else earlier
  }

  /** How many of `times` lie in (lo, hi]. */
  function CountIn(times: seq<int>, lo: int, hi: int): nat {
    if times == [] then 0 else
    CountIn(times[..|times| - 1], lo, hi) + if lo < times[|times| - 1] <= hi then 1 else 0
  }

  lemma RecentSnoc(times: seq<int>, t: int, cutoff: int)
    ensures Recent(times + [t], cutoff) == if t > cutoff then Recent(times, cutoff) + [t] else Recent(times, cutoff)
  {
    assert (times + [t])[..|times|] == times;
  }

  /** Pruning at an earlier cutoff first changes nothing. */
  lemma {:induction false} PruneTwice(times: seq<int>, early: int, late: int)
    requires early <= late
    ensures Recent(Recent(times, early), late) == Recent(times, late)
  {
    if times != [] {
      var front, t := times[..|times| - 1], times[|times| - 1];
      PruneTwice(front, early, late);
      RecentSnoc(Recent(front, early), t, late);
      assert t <= early ==> Recent(times, early) == Recent(front, early);
    }
  }

  lemma AdmissionsSnoc(log: seq<Call>, call: Call, tool: string)
    ensures Admissions(log + [call], tool) ==
            if call.tool == tool then Admissions(log, tool) + [call.at] else Admissions(log, tool)
  {
    assert (log + [call])[..|log|] == log;
  }

  lemma CountSnoc(times: seq<int>, t: int, lo: int, hi: int)
    ensures CountIn(times + [t], lo, hi) == CountIn(times, lo, hi) + if lo < t <= hi then 1 else 0
  {
    assert (times + [t])[..|times|] == times;
  }

  /** One admission extends both the stored list and the log. */
  lemma AdmitAgrees(c: Config, s: System, call: Call, tool: string, cutoff: int)
    requires cutoff >= call.at - c.windowSize
    requires Recent(Times(s.history, tool), cutoff) == Recent(Admissions(s.log, tool), cutoff)
    ensures var t := Step(c, s, call);
            Recent(Times(t.history, tool), cutoff) == Recent(Admissions(t.log, tool), cutoff)
  {
    hide Recent; hide Admissions;
    AdmissionsSnoc(s.log, call, tool);
    if call.tool == tool {
      PruneTwice(Times(s.history, tool), call.at - c.windowSize, cutoff);
      RecentSnoc(Recent(Times(s.history, tool), call.at - c.windowSize), call.at, cutoff);
      RecentSnoc(Admissions(s.log, tool), call.at, cutoff);
    }
  }

  /** The stored list and the full log agree on every cutoff that can still be asked for. */
  lemma {:induction false} StoredListSuffices(c: Config, calls: seq<Call>, tool: string, cutoff: int)
    requires Monotone(calls)
    requires calls != [] ==> cutoff >= calls[|calls| - 1].at - c.windowSize
    ensures var s := Run(c, calls);
            Recent(Times(s.history, tool), cutoff) == Recent(Admissions(s.log, tool), cutoff)
  {
    if calls != [] {
      var front, call := calls[..|calls| - 1], calls[|calls| - 1];
      assert Run(c, calls) == Step(c, Run(c, front), call);
      hide Run; hide Recent; hide Admissions; hide Step;
      StoredListSuffices(c, front, tool, cutoff);
      AdmitAgrees(c, Run(c, front), call, tool, cutoff);
    }
  }

  lemma {:induction false} AdmissionsInPast(c: Config, calls: seq<Call>, tool: string, now: int)
    requires forall i | 0 <= i < |calls| :: calls[i].at <= now
    ensures forall t | t in Admissions(Run(c, calls).log, tool) :: t <= now
  {
    if calls != [] {
      var front := calls[..|calls| - 1];
      AdmissionsInPast(c, front, tool, now);
      AdmissionsSnoc(Run(c, front).log, calls[|calls| - 1], tool);
    }
  }

  lemma {:induction false} RecentIsCount(times: seq<int>, cutoff: int, now: int)
    requires forall t | t in times :: t <= now
    ensures |Recent(times, cutoff)| == CountIn(times, cutoff, now)
  {
    if times != [] {
      var front := times[..|times| - 1];
      forall t | t in front ensures t in times {
      }
      assert times[|times| - 1] in times;
      RecentIsCount(front, cutoff, now);
    }
  }

  lemma {:induction false} CountShrinks(times: seq<int>, lo: int, hi: int, cutoff: int)
    requires cutoff <= lo
    ensures CountIn(times, lo, hi) <= |Recent(times, cutoff)|
  {
    if times != [] {
      CountShrinks(times[..|times| - 1], lo, hi, cutoff);
    }
  }

  lemma AdmitKeepsLimit(c: Config, sys: System, call: Call, tool: string, s: int)
    requires Recent(Times(sys.history, tool), call.at - c.windowSize) == Recent(Admissions(sys.log, tool), call.at - c.windowSize)
    requires CountIn(Admissions(sys.log, tool), s, s + c.windowSize) <= if c.maxOperations > 0 then c.maxOperations else 0
    ensures CountIn(Admissions(Step(c, sys, call).log, tool), s, s + c.windowSize)
            <= if c.maxOperations > 0 then c.maxOperations else 0
  {
    hide Recent; hide Admissions; hide CountIn;
    if call.tool != tool || Blocks(c, sys.history, tool, call.at) {
      AdmissionsSnoc(sys.log, call, tool);
    } else {
      var times := Admissions(sys.log, tool);
      AdmissionsSnoc(sys.log, call, tool);
      CountSnoc(times, call.at, s, s + c.windowSize);
      if s < call.at <= s + c.windowSize {
        CountShrinks(times, s, s + c.windowSize, call.at - c.windowSize);
      }
    }
  }

  /** Every window (s, s + windowSize] of every tool holds at most maxOperations admitted calls. */
  lemma {:induction false} WindowLimit(c: Config, calls: seq<Call>, tool: string, s: int)
    requires Monotone(calls)
    ensures CountIn(Admissions(Run(c, calls).log, tool), s, s + c.windowSize)
            <= if c.maxOperations > 0 then c.maxOperations else 0
  {
    if calls != [] {
      var front, call := calls[..|calls| - 1], calls[|calls| - 1];
      assert Run(c, calls) == Step(c, Run(c, front), call);
      assert Monotone(front);
      hide Run; hide Recent; hide Admissions; hide CountIn; hide Step; hide Monotone;
      WindowLimit(c, front, tool, s);
      StoredListSuffices(c, front, tool, call.at - c.windowSize);
      AdmitKeepsLimit(c, Run(c, front), call, tool, s);
    }
  }

  /** A call is blocked exactly when maxOperations admitted calls of its tool lie in the window that
      ends now, counted in the full log. */
  lemma BlockedExactly(c: Config, calls: seq<Call>, tool: string, now: int)
    requires Monotone(calls) && forall i | 0 <= i < |calls| :: calls[i].at <= now
    ensures var s := Run(c, calls);
            var inWindow := CountIn(Admissions(s.log, tool), now - c.windowSize, now);
            && (Blocks(c, s.history, tool, now) <==> inWindow >= c.maxOperations)
            && (c.maxOperations >= 0 ==> (Blocks(c, s.history, tool, now) <==> inWindow == c.maxOperations))
  {
    hide Run; hide Recent; hide Admissions; hide CountIn;
    var s := Run(c, calls);
    StoredListSuffices(c, calls, tool, now - c.windowSize);
    AdmissionsInPast(c, calls, tool, now);
    RecentIsCount(Admissions(s.log, tool), now - c.windowSize, now);
    WindowLimit(c, calls, tool, now - c.windowSize);
  }

  // ---- Tools do not interfere ----

  function OnlyTool(calls: seq<Call>, tool: string): seq<Call> {
    if calls == [] then [] else
    var earlier, last := OnlyTool(calls[..|calls| - 1], tool), calls[|calls| - 1];
    if last.tool == tool then earlier + [last] else earlier
  }

  /** The stored list and the admissions of a tool depend on that tool's calls alone. */
  lemma {:induction false} ToolsIndependent(c: Config, calls: seq<Call>, tool: string)
    ensures var s, alone := Run(c, calls), Run(c, OnlyTool(calls, tool));
            && Times(s.history, tool) == Times(alone.history, tool)
            && Admissions(s.log, tool) == Admissions(alone.log, tool)
  {
    if calls != [] {
      var front, call := calls[..|calls| - 1], calls[|calls| - 1];
      var alone := OnlyTool(front, tool);
      assert Run(c, calls) == Step(c, Run(c, front), call);
      assert Run(c, alone + [call]) == Step(c, Run(c, alone), call) by { assert (alone + [call])[..|alone|] == alone; }
      assert OnlyTool(calls, tool) == if call.tool == tool then alone + [call] else alone;
      hide Run; hide Recent; hide Admissions; hide OnlyTool;
      ToolsIndependent(c, front, tool);
      AdmissionsSnoc(Run(c, front).log, call, tool);
      AdmissionsSnoc(Run(c, alone).log, call, tool);
    }
  }

  // ---- The handler object ----

  class RateLimitHandler {
    const config: Config
    var history: History

    constructor (config: Config)
      ensures this.config == config && history == map[]
    {
      this.config := config;
      history := map[];
    }

    method Execute(tool: string, now: int) returns (blocked: bool)
      modifies this
      ensures blocked == Blocks(config, old(history), tool, now)
      ensures history == AfterExecute(config, old(history), tool, now)
    {
      var cutoff := now - config.windowSize;
      var stored := if tool in history then history[tool] else [];
      var recent: seq<int> := [];
      for i := 0 to |stored|
        invariant recent == Recent(stored[..i], cutoff) && history == old(history)
      {
        RecentSnoc(stored[..i], stored[i], cutoff);
        assert stored[..i + 1] == stored[..i] + [stored[i]];
        if stored[i] > cutoff {
          recent := recent + [stored[i]];
        }
      }
      assert stored[..|stored|] == stored;
      hide Recent;
      if |recent| >= config.maxOperations {
        return true;
      }
      history := history[tool := recent + [now]];
      return false;
    }
  }
}
