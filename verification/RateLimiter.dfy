/** The token bucket of pkg/resilience/rate_limiter.go. Times are integer nanoseconds, as in Go;
    token quantities are reals. */
module RateLimiter {

  const SECOND: real := 1000000000.0

  datatype Bucket = Bucket(rate: real, size: int, tokens: real, lastUpdate: int)

  /** Tokens earned between two instants. */
  function Gain(rate: real, since: int, now: int): real {
    (now - since) as real / SECOND * rate
  }

  function Refill(b: Bucket, now: int): Bucket {
    var tokens := b.tokens + Gain(b.rate, b.lastUpdate, now);
    b.(tokens := if tokens > b.size as real then b.size as real else tokens, lastUpdate := now)
  }

  predicate Grants(b: Bucket, now: int, n: int) {
    Refill(b, now).tokens >= n as real
  }

  function AfterAllow(b: Bucket, now: int, n: int): Bucket {
    var r := Refill(b, now);
    if Grants(b, now, n) then r.(tokens := r.tokens - n as real) else r
  }

  /** Conversion of a float to an integer duration: truncation toward zero. */
  function Truncate(x: real): int {
    if x >= 0.0 then x.Floor else -(-x).Floor
  }

  /** With a rate of zero the quotient is infinite, and `overflow` is what its conversion to an integer
      comes to. */
  function WaitTime(b: Bucket, now: int, n: int, overflow: int): int {
    if Grants(b, now, n) then 0
    else if b.rate == 0.0 then overflow
    else Truncate((n as real - Refill(b, now).tokens) / b.rate * SECOND)
  }

  // ---- Runs ----

  datatype Call = AllowN(n: int) | Query

  datatype Event = Event(at: int, call: Call)

  /** A `Query` is a call of `Tokens` or `waitTime`: it refills and takes nothing. */
  function Apply(b: Bucket, e: Event): Bucket {
    match e.call
    case AllowN(n) => AfterAllow(b, e.at, n)
    case Query => Refill(b, e.at)
  }

  predicate Granted(b: Bucket, e: Event) {
    e.call.AllowN? && Grants(b, e.at, e.call.n)
  }

  function Run(b: Bucket, events: seq<Event>): (r: Bucket)
    ensures r.rate == b.rate && r.size == b.size
    decreases |events|
  {
    if events == [] then b else Run(Apply(b, events[0]), events[1..])
  }

  /** Clock readings never go back. */
  predicate Monotone(since: int, events: seq<Event>)
    decreases |events|
  {
    events == [] || (since <= events[0].at && Monotone(events[0].at, events[1..]))
  }

  predicate NonNegative(events: seq<Event>) {
    forall i | 0 <= i < |events| && events[i].call.AllowN? :: events[i].call.n >= 0
  }

  predicate Valid(b: Bucket) {
    b.rate >= 0.0 && b.size >= 0 && 0.0 <= b.tokens <= b.size as real
  }

  // ---- Refill arithmetic ----

  lemma GainAdds(rate: real, a: int, b: int, c: int)
    ensures Gain(rate, a, b) + Gain(rate, b, c) == Gain(rate, a, c)
  {
    var x, y := (b - a) as real / SECOND, (c - b) as real / SECOND;
    assert (c - a) as real / SECOND == x + y;
    assert (x + y) * rate == x * rate + y * rate;
  }

  lemma GainNonNegative(rate: real, a: int, b: int)
    requires rate >= 0.0 && a <= b
    ensures Gain(rate, a, b) >= 0.0
  {
  }

  /** Clamping in two sub-intervals equals clamping once. */
  lemma RefillComposes(b: Bucket, t: int, u: int)
    requires b.rate >= 0.0 && t <= u
    ensures Refill(Refill(b, t), u) == Refill(b, u)
  {
    GainAdds(b.rate, b.lastUpdate, t, u);
    GainNonNegative(b.rate, t, u);
    hide Gain;
  }

  lemma ApplyValid(b: Bucket, e: Event)
    requires Valid(b) && b.lastUpdate <= e.at && (e.call.AllowN? ==> e.call.n >= 0)
    ensures Valid(Apply(b, e)) && Apply(b, e).lastUpdate == e.at
  {
    GainNonNegative(b.rate, b.lastUpdate, e.at);
    hide Gain;
  }

  /** In every run the token count stays between zero and the bucket size. */
  lemma {:induction false} TokensInRange(b: Bucket, events: seq<Event>)
    requires Valid(b) && Monotone(b.lastUpdate, events) && NonNegative(events)
    ensures Valid(Run(b, events))
    decreases |events|
  {
    if events != [] {
      ApplyValid(b, events[0]);
      TokensInRange(Apply(b, events[0]), events[1..]);
    }
  }

  // ---- The window bound ----

  /** Total granted to calls made in the interval (s, t]. */
  function GrantedIn(b: Bucket, events: seq<Event>, s: int, t: int): int
    decreases |events|
  {
    if events == [] then 0 else
    var e := events[0];
    (if Granted(b, e) && s < e.at <= t then e.call.n else 0) + GrantedIn(Apply(b, e), events[1..], s, t)
  }

  /** What a bucket can still grant inside (s, t], seen from its last update. */
  function Budget(b: Bucket, s: int, t: int): real {
    if b.lastUpdate > t then 0.0
    else if b.lastUpdate > s then b.tokens + Gain(b.rate, b.lastUpdate, t)
    else b.size as real + Gain(b.rate, s, t)
  }

  /** One call spends no more than the budget it takes away. */
  lemma BudgetSpent(b: Bucket, e: Event, s: int, t: int)
    requires Valid(b) && b.lastUpdate <= e.at && (e.call.AllowN? ==> e.call.n >= 0) && s <= t
    ensures (if Granted(b, e) && s < e.at <= t then e.call.n as real else 0.0) + Budget(Apply(b, e), s, t)
            <= Budget(b, s, t)
  {
    var u := e.at;
    GainAdds(b.rate, b.lastUpdate, u, t);
    GainAdds(b.rate, s, u, t);
    GainNonNegative(b.rate, b.lastUpdate, u);
    GainNonNegative(b.rate, s, t);
    if s <= u { GainNonNegative(b.rate, s, u); }
    if b.lastUpdate <= t { GainNonNegative(b.rate, b.lastUpdate, t); }
    hide Gain;
  }

  lemma {:induction false} WithinBudget(b: Bucket, events: seq<Event>, s: int, t: int)
    requires Valid(b) && Monotone(b.lastUpdate, events) && NonNegative(events) && s <= t
    ensures GrantedIn(b, events, s, t) as real <= Budget(b, s, t)
    decreases |events|
  {
    if events == [] {
      GainNonNegative(b.rate, s, t);
      if b.lastUpdate <= t { GainNonNegative(b.rate, b.lastUpdate, t); }
    } else {
      BudgetSpent(b, events[0], s, t);
      ApplyValid(b, events[0]);
      WithinBudget(Apply(b, events[0]), events[1..], s, t);
    }
  }

  /** Any window (s, t] of any run grants at most one full bucket plus what the rate earns in it. */
  lemma WindowBound(b: Bucket, events: seq<Event>, s: int, t: int)
    requires Valid(b) && Monotone(b.lastUpdate, events) && NonNegative(events) && s <= t
    ensures GrantedIn(b, events, s, t) as real <= b.size as real + Gain(b.rate, s, t)
  {
    WithinBudget(b, events, s, t);
    GainNonNegative(b.rate, s, t);
    if s < b.lastUpdate <= t {
      GainAdds(b.rate, s, b.lastUpdate, t);
      GainNonNegative(b.rate, s, b.lastUpdate);
    }
  }

  // ---- Query transparency ----

  /** Two buckets that hold the same tokens when looked at from time `t` on. */
  predicate SameFrom(a: Bucket, b: Bucket, t: int) {
    a.rate == b.rate && a.size == b.size && a.lastUpdate <= t && b.lastUpdate <= t && Refill(a, t) == Refill(b, t)
  }

  lemma SameLater(a: Bucket, b: Bucket, t: int, u: int)
    requires SameFrom(a, b, t) && a.rate >= 0.0 && t <= u
    ensures SameFrom(a, b, u)
  {
    RefillComposes(a, t, u);
    RefillComposes(b, t, u);
  }

  /** A shared call leaves equal buckets; a call that takes nothing leaves the caller's future alone. */
  lemma ApplySame(a: Bucket, b: Bucket, e: Event)
    requires SameFrom(a, b, e.at) && a.rate >= 0.0
    ensures Granted(a, e) == Granted(b, e)
    ensures Apply(a, e) == Apply(b, e) && SameFrom(Apply(a, e), Apply(a, e), e.at)
    ensures !Granted(a, e) ==> SameFrom(Apply(a, e), b, e.at)
  {
    RefillComposes(a, e.at, e.at);
  }

  /** The grant decisions of a run, one per event; queries count as not granted. */
  function Decisions(b: Bucket, events: seq<Event>): (r: seq<bool>)
    ensures |r| == |events|
    decreases |events|
  {
    if events == [] then [] else [Granted(b, events[0])] + Decisions(Apply(b, events[0]), events[1..])
  }

  /** The calls of a run that took tokens. */
  function Takers(b: Bucket, events: seq<Event>): seq<Event>
    decreases |events|
  {
    if events == [] then [] else
    (if Granted(b, events[0]) then [events[0]] else []) + Takers(Apply(b, events[0]), events[1..])
  }

  lemma {:induction false} SameDecisions(a: Bucket, b: Bucket, t: int, events: seq<Event>)
    requires SameFrom(a, b, t) && a.rate >= 0.0 && Monotone(t, events)
    ensures Decisions(a, events) == Decisions(b, events)
    decreases |events|
  {
    if events != [] {
      SameLater(a, b, t, events[0].at);
      assert Apply(a, events[0]) == Apply(b, events[0]);
      hide Refill;
      SameDecisions(Apply(a, events[0]), Apply(b, events[0]), events[0].at, events[1..]);
    }
  }

  function EndTime(since: int, events: seq<Event>): int {
    if events == [] then since else events[|events| - 1].at
  }

  lemma {:induction false} OnlyTakersMatter(a: Bucket, b: Bucket, t: int, events: seq<Event>)
    requires SameFrom(a, b, t) && a.rate >= 0.0 && Monotone(t, events)
    ensures SameFrom(Run(a, events), Run(b, Takers(a, events)), EndTime(t, events))
    decreases |events|
  {
    if events != [] {
      var e, rest := events[0], events[1..];
      SameLater(a, b, t, e.at);
      var a' := Apply(a, e);
      ApplySame(a, b, e);
      RefillComposes(a, e.at, e.at);
      hide Refill; hide Apply;
      assert EndTime(t, events) == EndTime(e.at, rest);
      if Granted(a, e) {
        assert Takers(a, events)[1..] == Takers(a', rest);
        OnlyTakersMatter(a', Apply(b, e), e.at, rest);
      } else {
        assert Takers(a, events) == Takers(a', rest);
        OnlyTakersMatter(a', b, e.at, rest);
      }
    }
  }

  /** Queries and denied calls, however many and wherever they are made, change no later decision:
      a run and the run of its granted calls alone leave the same future. */
  lemma QueriesTransparent(b: Bucket, events: seq<Event>, later: seq<Event>)
    requires b.rate >= 0.0 && Monotone(b.lastUpdate, events) && Monotone(EndTime(b.lastUpdate, events), later)
    ensures Decisions(Run(b, events), later) == Decisions(Run(b, Takers(b, events)), later)
  {
    var end := EndTime(b.lastUpdate, events);
    OnlyTakersMatter(b, b, b.lastUpdate, events);
    hide Refill; hide Run; hide Takers; hide SameFrom; hide Decisions; hide Monotone;
    SameDecisions(Run(b, events), Run(b, Takers(b, events)), end, later);
  }

  // ---- What a grant costs ----

  /** A grant takes exactly `n`: a later request is met just when it fits what was there, less `n`, plus
      what has been earned since, up to a full bucket. */
  lemma GrantTakesExactly(b: Bucket, t: int, n: int, u: int, m: int)
    requires b.rate >= 0.0 && t <= u && Grants(b, t, n)
    ensures var left := Refill(b, t).tokens - n as real + Gain(b.rate, t, u);
            Grants(AfterAllow(b, t, n), u, m) <==> m <= b.size && m as real <= left
  {
    hide Gain;
  }

  function Cost(e: Event): int {
    if e.call.AllowN? then e.call.n else 0
  }

  /** What the calls from the `i`-th to the `j`-th ask for together. */
  function Demand(events: seq<Event>, i: nat, j: int): int
    requires j < |events|
    decreases j - i
  {
    if i > j then 0 else Cost(events[i]) + Demand(events, i + 1, j)
  }

  lemma {:induction false} DemandOfTail(events: seq<Event>, i: nat, j: int)
    requires events != [] && -1 <= j < |events| - 1
    ensures Demand(events[1..], i, j) == Demand(events, i + 1, j + 1)
    decreases j - i
  {
    if i <= j {
      DemandOfTail(events, i + 1, j);
    }
  }

  /** The demand up to each call fits what the bucket holds and earns until then. */
  predicate FitsBucket(b: Bucket, events: seq<Event>) {
    forall j | 0 <= j < |events| ::
      Demand(events, 0, j) as real <= b.tokens + Gain(b.rate, b.lastUpdate, events[j].at)
  }

  /** The demand of every stretch of the run fits a full bucket and what is earned during the stretch. */
  predicate FitsWindows(rate: real, size: int, events: seq<Event>) {
    forall i: nat, j | i <= j < |events| ::
      Demand(events, i, j) as real <= size as real + Gain(rate, events[i].at, events[j].at)
  }

  predicate AllGranted(b: Bucket, events: seq<Event>) {
    forall k | 0 <= k < |events| && events[k].call.AllowN? :: Decisions(b, events)[k]
  }

  lemma AllGrantedCons(b: Bucket, events: seq<Event>)
    requires events != []
    ensures AllGranted(b, events) <==>
            (events[0].call.AllowN? ==> Granted(b, events[0])) && AllGranted(Apply(b, events[0]), events[1..])
  {
    var e, rest := events[0], events[1..];
    assert Decisions(b, events) == [Granted(b, e)] + Decisions(Apply(b, e), rest);
    hide Granted; hide Apply; hide Decisions;
    assert forall k | 0 < k < |events| ::
        events[k] == rest[k - 1] && Decisions(b, events)[k] == Decisions(Apply(b, e), rest)[k - 1];
    if AllGranted(b, events) {
      assert forall k | 0 <= k < |rest| ::
          rest[k] == events[k + 1] && Decisions(b, events)[k + 1] == Decisions(Apply(b, e), rest)[k];
    }
  }

  lemma MonotoneLater(since: int, events: seq<Event>, j: nat)
    requires Monotone(since, events) && j < |events|
    ensures since <= events[j].at
    decreases |events|
  {
    if j > 0 {
      MonotoneLater(events[0].at, events[1..], j - 1);
    }
  }

  /** After a first call that is met, the demand still to come fits the bucket left over exactly when the
      demand with that call fits both the bucket before and a full one. */
  lemma FirstCallShifts(b: Bucket, events: seq<Event>, j: nat)
    requires Valid(b) && events != [] && Monotone(b.lastUpdate, events) && j < |events| - 1
    requires Cost(events[0]) as real <= Refill(b, events[0].at).tokens
    ensures var e, c := events[0], Apply(b, events[0]);
            Demand(events[1..], 0, j) as real <= c.tokens + Gain(c.rate, c.lastUpdate, events[1..][j].at)
            <==> && Demand(events, 0, j + 1) as real <= b.tokens + Gain(b.rate, b.lastUpdate, events[j + 1].at)
                 && Demand(events, 0, j + 1) as real <= b.size as real + Gain(b.rate, e.at, events[j + 1].at)
  {
    DemandOfTail(events, 0, j);
    assert Demand(events, 0, j + 1) == Cost(events[0]) + Demand(events, 1, j + 1);
    GainAdds(b.rate, b.lastUpdate, events[0].at, events[j + 1].at);
    hide Gain; hide Demand;
  }

  /** The first call is met exactly when it fits both the bucket and its own window. */
  lemma FirstCallFits(b: Bucket, events: seq<Event>)
    requires Valid(b) && events != [] && Monotone(b.lastUpdate, events)
    ensures (events[0].call.AllowN? ==> Granted(b, events[0])) <==> Cost(events[0]) as real <= Refill(b, events[0].at).tokens
    ensures Cost(events[0]) as real <= Refill(b, events[0].at).tokens <==>
            && Demand(events, 0, 0) as real <= b.tokens + Gain(b.rate, b.lastUpdate, events[0].at)
            && Demand(events, 0, 0) as real <= b.size as real + Gain(b.rate, events[0].at, events[0].at)
  {
    GainNonNegative(b.rate, b.lastUpdate, events[0].at);
    assert Gain(b.rate, events[0].at, events[0].at) == 0.0;
    assert Demand(events, 0, 0) == Cost(events[0]) + Demand(events, 1, 0);
    hide Gain;
  }

  lemma FitsAfterFirst(b: Bucket, events: seq<Event>)
    requires Valid(b) && events != [] && Monotone(b.lastUpdate, events)
    requires Cost(events[0]) as real <= Refill(b, events[0].at).tokens
    ensures FitsBucket(b, events) && FitsWindows(b.rate, b.size, events) <==>
            FitsBucket(Apply(b, events[0]), events[1..]) && FitsWindows(b.rate, b.size, events[1..])
  {
    var c, rest := Apply(b, events[0]), events[1..];
    FirstCallFits(b, events);
    forall j: nat | j < |rest|
      ensures Demand(rest, 0, j) as real <= c.tokens + Gain(c.rate, c.lastUpdate, rest[j].at)
              <==> && Demand(events, 0, j + 1) as real <= b.tokens + Gain(b.rate, b.lastUpdate, events[j + 1].at)
                   && Demand(events, 0, j + 1) as real <= b.size as real + Gain(b.rate, events[0].at, events[j + 1].at)
    {
      FirstCallShifts(b, events, j);
    }
    forall i: nat, j: nat | i <= j < |rest| ensures Demand(rest, i, j) == Demand(events, i + 1, j + 1) {
      DemandOfTail(events, i, j);
    }
    hide Apply; hide Refill; hide Demand; hide Cost; hide Gain;
    if FitsBucket(c, rest) && FitsWindows(b.rate, b.size, rest) {
      forall j: nat | j < |events|
        ensures Demand(events, 0, j) as real <= b.tokens + Gain(b.rate, b.lastUpdate, events[j].at)
        ensures Demand(events, 0, j) as real <= b.size as real + Gain(b.rate, events[0].at, events[j].at)
      {
        if j > 0 {
          assert Demand(rest, 0, j - 1) as real <= c.tokens + Gain(c.rate, c.lastUpdate, rest[j - 1].at);
        }
      }
      forall i: nat, j: nat | i <= j < |events|
        ensures Demand(events, i, j) as real <= b.size as real + Gain(b.rate, events[i].at, events[j].at)
      {
        if i > 0 {
          assert Demand(rest, i - 1, j - 1) == Demand(events, i, j);
        }
      }
    }
    if FitsBucket(b, events) && FitsWindows(b.rate, b.size, events) {
      forall j: nat | j < |rest|
        ensures Demand(rest, 0, j) as real <= c.tokens + Gain(c.rate, c.lastUpdate, rest[j].at)
      {
        assert Demand(events, 0, j + 1) as real <= b.size as real + Gain(b.rate, events[0].at, events[j + 1].at);
      }
      forall i: nat, j: nat | i <= j < |rest|
        ensures Demand(rest, i, j) as real <= b.size as real + Gain(b.rate, rest[i].at, rest[j].at)
      {
        assert Demand(events, i + 1, j + 1) as real <= b.size as real + Gain(b.rate, events[i + 1].at, events[j + 1].at);
      }
    }
  }

  /** No request of a run is denied if and only if the demand up to every call fits the bucket found at
      the start, and the demand of every stretch fits a full bucket and the earnings of the stretch. */
  lemma {:induction false} NeverDeniedIff(b: Bucket, events: seq<Event>)
    requires Valid(b) && Monotone(b.lastUpdate, events) && NonNegative(events)
    ensures AllGranted(b, events) <==> FitsBucket(b, events) && FitsWindows(b.rate, b.size, events)
    decreases |events|
  {
    if events != [] {
      var e, rest := events[0], events[1..];
      var c := Apply(b, e);
      AllGrantedCons(b, events);
      FirstCallFits(b, events);
      ApplyValid(b, e);
      assert NonNegative(rest) && c.rate == b.rate && c.size == b.size;
      NeverDeniedIff(c, rest);
      if Cost(e) as real <= Refill(b, e.at).tokens {
        FitsAfterFirst(b, events);
      }
      hide Apply; hide Refill; hide Granted; hide AllGranted; hide Demand; hide Cost; hide Gain;
    }
  }

  // ---- Waiting ----

  /** With no other consumer, a denied request for `n` is granted exactly from the instant at which
      the missing tokens have been earned; `waitTime` is that delay with its fraction of a nanosecond
      cut off. */
  lemma WaitExact(b: Bucket, now: int, n: int, t: int, overflow: int)
    requires b.rate > 0.0 && n <= b.size && !Grants(b, now, n) && now <= t
    ensures var r := Refill(b, now);
            var delay := (n as real - r.tokens) / b.rate * SECOND;
            var wait := WaitTime(b, now, n, overflow);
            && (Grants(r, t, n) <==> (t - now) as real >= delay)
            && 0 <= wait && wait as real <= delay < (wait + 1) as real
            && (t < now + wait ==> !Grants(r, t, n))
            && (t > now + wait ==> Grants(r, t, n))
  {
    var r := Refill(b, now);
    var needed := n as real - r.tokens;
    EarnedIff(b.rate, needed, now, t);
    QuotientPositive(needed, b.rate);
  }

  lemma QuotientPositive(needed: real, rate: real)
    requires rate > 0.0 && needed > 0.0
    ensures needed / rate * SECOND > 0.0
  {
  }

  lemma EarnedIff(rate: real, needed: real, now: int, t: int)
    requires rate > 0.0
    ensures Gain(rate, now, t) >= needed <==> (t - now) as real >= needed / rate * SECOND
  {
    var d := (t - now) as real / SECOND;
    var q := needed / rate;
    assert q * rate == needed;
    if d >= q { assert (d - q) * rate >= 0.0; } else { assert (q - d) * rate > 0.0; }
  }

  /** A request above the bucket size is never granted, in any run. */
  lemma {:induction false} OversizeNeverGranted(b: Bucket, events: seq<Event>, i: nat)
    requires Valid(b) && Monotone(b.lastUpdate, events) && NonNegative(events)
    requires i < |events| && events[i].call.AllowN? && events[i].call.n > b.size
    ensures !Decisions(b, events)[i]
    decreases |events|
  {
    if i > 0 {
      ApplyValid(b, events[0]);
      OversizeNeverGranted(Apply(b, events[0]), events[1..], i - 1);
    }
  }

  // ---- The retry loop ----

  /** One round of `WaitN`: two cancellation checks and the clock readings of its two calls. */
  datatype Round = Round(cancelled: bool, allowAt: int, waitAt: int, overflow: int, cancelledAsleep: bool)

  datatype WaitResult = Admitted | Cancelled | StillWaiting

  /** How the loop ends when nobody else takes tokens between its rounds. */
  function WaitOutcome(b: Bucket, n: int, rounds: seq<Round>): WaitResult
    decreases |rounds|
  {
    if rounds == [] then StillWaiting
    else
      var r := rounds[0];
      if r.cancelled then Cancelled
      else if Grants(b, r.allowAt, n) then Admitted
      else
        var denied := Refill(b, r.allowAt);
        if WaitTime(denied, r.waitAt, n, r.overflow) > 0 && r.cancelledAsleep then Cancelled
        else WaitOutcome(Refill(denied, r.waitAt), n, rounds[1..])
  }

  predicate Ordered(rounds: seq<Round>) {
    && (forall i | 0 <= i < |rounds| :: rounds[i].allowAt <= rounds[i].waitAt)
    && forall i, j | 0 <= i < j < |rounds| :: rounds[i].waitAt <= rounds[j].allowAt
  }

  predicate Uncancelled(rounds: seq<Round>) {
    forall i | 0 <= i < |rounds| :: !rounds[i].cancelled && !rounds[i].cancelledAsleep
  }

  /** Without a cancellation the loop succeeds exactly when the bucket as it was found at the start
      would grant the request at the instant of some round; its own denied calls change nothing. */
  lemma {:induction false} WaitAdmittedIff(b: Bucket, n: int, rounds: seq<Round>)
    requires b.rate >= 0.0 && Ordered(rounds) && Uncancelled(rounds)
    ensures WaitOutcome(b, n, rounds) == Admitted <==>
            exists i :: 0 <= i < |rounds| && Grants(b, rounds[i].allowAt, n)
    decreases |rounds|
  {
    if rounds != [] {
      var r, rest := rounds[0], rounds[1..];
      var later := Refill(Refill(b, r.allowAt), r.waitAt);
      RefillComposes(b, r.allowAt, r.waitAt);
      WaitAdmittedIff(later, n, rest);
      forall i | 0 < i < |rounds| ensures Grants(later, rounds[i].allowAt, n) == Grants(b, rounds[i].allowAt, n) {
        RefillComposes(b, r.waitAt, rounds[i].allowAt);
      }
      hide Refill; hide WaitTime;
      if i :| 0 <= i < |rest| && Grants(later, rest[i].allowAt, n) {
        assert rounds[i + 1] == rest[i];
      }
      if i :| 0 < i < |rounds| && Grants(b, rounds[i].allowAt, n) {
        assert rest[i - 1] == rounds[i];
      }
    }
  }

  /** The round neither succeeds nor notices a cancellation, which is looked for before each request and,
      when there is time to wait, during the sleep. */
  predicate Passes(b: Bucket, n: int, r: Round) {
    && !r.cancelled && !Grants(b, r.allowAt, n)
    && (r.cancelledAsleep ==> WaitTime(b, r.waitAt, n, r.overflow) <= 0)
  }

  /** The first round that does not pass decides, in terms of the bucket as it was found. */
  lemma {:induction false} WaitDecides(b: Bucket, n: int, rounds: seq<Round>, k: nat)
    requires b.rate >= 0.0 && Ordered(rounds) && k <= |rounds|
    requires forall i | 0 <= i < k :: Passes(b, n, rounds[i])
    requires k < |rounds| ==> !Passes(b, n, rounds[k])
    ensures WaitOutcome(b, n, rounds) ==
            if k == |rounds| then StillWaiting
            else if !rounds[k].cancelled && Grants(b, rounds[k].allowAt, n) then Admitted
            else Cancelled
    decreases |rounds|
  {
    if rounds != [] {
      var r, rest := rounds[0], rounds[1..];
      var denied, later := Refill(b, r.allowAt), Refill(Refill(b, r.allowAt), r.waitAt);
      RefillComposes(b, r.allowAt, r.waitAt);
      assert Refill(denied, r.waitAt) == Refill(b, r.waitAt);
      if k > 0 {
        forall i | 0 <= i < |rest|
          ensures rest[i] == rounds[i + 1]
          ensures Passes(later, n, rest[i]) == Passes(b, n, rest[i])
          ensures Grants(later, rest[i].allowAt, n) == Grants(b, rest[i].allowAt, n)
        {
          RefillComposes(b, r.waitAt, rest[i].allowAt);
          RefillComposes(b, r.waitAt, rest[i].waitAt);
        }
        assert Passes(b, n, rounds[0]);
        assert WaitOutcome(b, n, rounds) == WaitOutcome(later, n, rest);
        hide Passes; hide Grants; hide Refill;
        WaitDecides(later, n, rest, k - 1);
      }
    }
  }

  /** A round strictly later than the wait computed in an earlier one is admitted, so the loop succeeds
      after sleeping once for the computed time and the nanosecond that the conversion cut off. */
  lemma WaitSucceeds(b: Bucket, n: int, rounds: seq<Round>, k: nat, l: nat)
    requires b.rate > 0.0 && n <= b.size && Ordered(rounds) && Uncancelled(rounds) && k < l < |rounds|
    requires rounds[l].allowAt > rounds[k].waitAt + WaitTime(b, rounds[k].waitAt, n, rounds[k].overflow)
    ensures WaitOutcome(b, n, rounds) == Admitted
  {
    var asked, again := rounds[k].waitAt, rounds[l].allowAt;
    RefillComposes(b, asked, again);
    if Grants(b, asked, n) {
      GainNonNegative(b.rate, asked, again);
    } else {
      WaitExact(b, asked, n, again, rounds[k].overflow);
    }
    assert Grants(b, again, n);
    hide Grants; hide WaitTime;
    WaitAdmittedIff(b, n, rounds);
  }

  // ---- The limiter object ----

  lemma {:induction false} RunSnoc(b: Bucket, events: seq<Event>, e: Event)
    ensures Run(b, events + [e]) == Apply(Run(b, events), e)
    ensures Takers(b, events + [e]) == Takers(b, events) + if Granted(Run(b, events), e) then [e] else []
    decreases |events|
  {
    if events == [] {
      assert [e][1..] == [];
      assert [] + [e] == [e];
    } else {
      assert (events + [e])[1..] == events[1..] + [e];
      RunSnoc(Apply(b, events[0]), events[1..], e);
    }
  }

  class RateLimiter {
    const rate: real
    const bucketSize: int
    var tokens: real
    var lastUpdate: int

    function State(): Bucket
      reads this
    {
      Bucket(rate, bucketSize, tokens, lastUpdate)
    }

    constructor (rate: real, bucketSize: int, now: int)
      ensures State() == Bucket(rate, bucketSize, bucketSize as real, now)
    {
      this.rate, this.bucketSize, tokens, lastUpdate := rate, bucketSize, bucketSize as real, now;
    }

    method DoRefill(now: int)
      modifies this
      ensures State() == Refill(old(State()), now)
    {
      var elapsed := (now - lastUpdate) as real / SECOND;
      lastUpdate := now;
      tokens := tokens + elapsed * rate;
      if tokens > bucketSize as real {
        tokens := bucketSize as real;
      }
    }

    method TryAllowN(now: int, n: int) returns (allowed: bool)
      modifies this
      ensures allowed == Grants(old(State()), now, n)
      ensures State() == AfterAllow(old(State()), now, n)
    {
      DoRefill(now);
      if tokens >= n as real {
        tokens := tokens - n as real;
        return true;
      }
      return false;
    }

    method ReadWaitTime(now: int, n: int, overflow: int) returns (wait: int)
      modifies this
      ensures wait == WaitTime(old(State()), now, n, overflow)
      ensures State() == Refill(old(State()), now)
    {
      DoRefill(now);
      if tokens >= n as real {
        return 0;
      }
      var needed := n as real - tokens;
      if rate == 0.0 {
        return overflow;
      }
      wait := Truncate(needed / rate * SECOND);
    }

    method ReadTokens(now: int) returns (available: real)
      modifies this
      ensures available == Refill(old(State()), now).tokens
      ensures State() == Refill(old(State()), now)
    {
      DoRefill(now);
      return tokens;
    }

    /** The retry loop, for as many rounds as `rounds` lists. It takes tokens at most once, in its
        last call, and only when it reports success. */
    method WaitN(n: int, rounds: seq<Round>) returns (result: WaitResult, ghost trace: seq<Event>)
      modifies this
      ensures result == WaitOutcome(old(State()), n, rounds)
      ensures State() == Run(old(State()), trace)
      ensures result == Admitted ==> trace != [] && trace[|trace| - 1].call == AllowN(n)
      ensures Takers(old(State()), trace) == if result == Admitted then [trace[|trace| - 1]] else []
      ensures forall k | 0 <= k < |trace| :: trace[k].call == AllowN(n) || trace[k].call == Query
    {
      trace := [];
      for k := 0 to |rounds|
        invariant State() == Run(old(State()), trace) && Takers(old(State()), trace) == []
        invariant WaitOutcome(old(State()), n, rounds) == WaitOutcome(State(), n, rounds[k..])
        invariant forall k | 0 <= k < |trace| :: trace[k].call == AllowN(n) || trace[k].call == Query
      {
        assert rounds[k..][1..] == rounds[k + 1..];
        hide Refill; hide WaitTime;
        if rounds[k].cancelled {
          return Cancelled, trace;
        }
        RunSnoc(old(State()), trace, Event(rounds[k].allowAt, AllowN(n)));
        trace := trace + [Event(rounds[k].allowAt, AllowN(n))];
        var allowed := TryAllowN(rounds[k].allowAt, n);
        if allowed {
          return Admitted, trace;
        }
        RunSnoc(old(State()), trace, Event(rounds[k].waitAt, Query));
        trace := trace + [Event(rounds[k].waitAt, Query)];
        var wait := ReadWaitTime(rounds[k].waitAt, n, rounds[k].overflow);
        if wait <= 0 {
          continue;
        }
        if rounds[k].cancelledAsleep {
          return Cancelled, trace;
        }
      }
      return StillWaiting, trace;
    }
  }
}
