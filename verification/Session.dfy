/** The session manager's incremental log (pkg/session/manager.go) over an append-only store. */
module Session {
  import opened Wrappers

  datatype Message = Message(role: string, content: string)

  datatype StoredMessage = StoredMessage(sessionId: string, index: int, timestamp: int, message: Message, agent: string)

  type Log = seq<StoredMessage>

  /** `logs` holds one entry per existing session. */
  datatype State = State(logs: map<string, Log>, current: Option<string>, lastSaved: nat)

  function LogOf(logs: map<string, Log>, id: string): Log {
    if id in logs then logs[id] else []
  }

  function Contents(log: Log): (r: seq<Message>)
    ensures |r| == |log|
  {
    seq(|log|, i requires 0 <= i < |log| => log[i].message)
  }

  /** The stored form of the messages from `from` on. */
  function Pack(id: string, history: seq<Message>, from: nat, agent: string, now: int): Log
    requires from <= |history|
  {
    seq(|history| - from, i requires 0 <= i < |history| - from =>
      StoredMessage(id, from + i, now, history[from + i], agent))
  }

  function Relabel(log: Log, id: string): Log {
    seq(|log|, i requires 0 <= i < |log| => log[i].(sessionId := id))
  }

  datatype Op =
    | Create(id: string)
    | Load(id: string)
    /** `written` messages reach the file; fewer than all of them means the store reported an error. */
    | Append(history: seq<Message>, agent: string, now: int, written: nat)
    /** `written` messages of the copy reach the file. */
    | Fork(id: string, written: nat)
    | Delete(id: string)

  /** What an append hands to the store. */
  function Pending(s: State, op: Op): Log
    requires op.Append?
  {
    if s.current.None? || |op.history| <= s.lastSaved then []
    else Pack(s.current.value, op.history, s.lastSaved, op.agent, op.now)
  }

  function AppendTo(s: State, op: Op): State
    requires op.Append?
  {
    var pending := Pending(s, op);
    if pending == [] then s else
    var id := s.current.value;
    var written := if op.written < |pending| then pending[..op.written] else pending;
    s.(logs := s.logs[id := LogOf(s.logs, id) + written],
       lastSaved := if op.written < |pending| then s.lastSaved else |op.history|)
  }

  /** A copy that fails half-way leaves the new session stored, but not current. */
  function ForkTo(s: State, op: Op): State
    requires op.Fork?
  {
    if s.current.None? then s else
    var copy := Relabel(LogOf(s.logs, s.current.value), op.id);
    if op.written < |copy| then s.(logs := s.logs[op.id := LogOf(s.logs, op.id) + copy[..op.written]])
    else State(s.logs[op.id := LogOf(s.logs, op.id) + copy], Some(op.id), |copy|)
  }

  function Step(s: State, op: Op): State {
    match op
    case Create(id) => State(s.logs[id := LogOf(s.logs, id)], Some(id), 0)
    case Load(id) => if id in s.logs then s.(current := Some(id), lastSaved := |s.logs[id]|) else s
    case Append(_, _, _, _) => AppendTo(s, op)
    case Fork(id, _) => ForkTo(s, op)
    case Delete(id) => s.(logs := s.logs - {id})
  }

  /** New sessions get fresh identifiers; the current session is not deleted; the store writes an
      append whole or not at all. */
  predicate Legal(s: State, op: Op) {
    match op
    case Create(id) => id !in s.logs
    case Fork(id, _) => id !in s.logs && s.current != Some(id)
    case Load(_) => true
    case Append(_, _, _, written) => written == 0 || written >= |Pending(s, op)|
    case Delete(id) => s.current != Some(id)
  }

  predicate IsRun(s: State, ops: seq<Op>)
    decreases |ops|
  {
    ops == [] || (Legal(s, ops[0]) && IsRun(Step(s, ops[0]), ops[1..]))
  }

  function Run(s: State, ops: seq<Op>): State
    decreases |ops|
  {
    if ops == [] then s else Run(Step(s, ops[0]), ops[1..])
  }

  predicate WellIndexed(log: Log, id: string) {
    forall i | 0 <= i < |log| :: log[i].index == i && log[i].sessionId == id
  }

  /** The saved index is the length of the current log, and all logs are indexed from zero. */
  predicate Inv(s: State) {
    && (s.current.Some? ==> s.lastSaved == |LogOf(s.logs, s.current.value)|)
    && forall id | id in s.logs :: WellIndexed(s.logs[id], id)
  }

  lemma StepInv(s: State, op: Op)
    requires Inv(s) && Legal(s, op)
    ensures Inv(Step(s, op))
  {
  }

  /** In every legal run `lastSavedIndex` is the length of the current session's log and every log
      carries the indices 0..n-1. */
  lemma {:induction false} RunInv(s: State, ops: seq<Op>)
    requires Inv(s) && IsRun(s, ops)
    ensures Inv(Run(s, ops))
    decreases |ops|
  {
    if ops != [] {
      StepInv(s, ops[0]);
      hide Inv; hide Step;
      RunInv(Step(s, ops[0]), ops[1..]);
    }
  }

  /** The two ways to lose the invariant, exactly: a partial write, and deleting a current session
      that has saved messages. */
  lemma InvLostExactly(s: State, op: Op)
    requires Inv(s) && (op.Append? || op.Delete?)
    ensures op.Append? ==> (Inv(Step(s, op)) <==> op.written == 0 || op.written >= |Pending(s, op)|)
    ensures op.Delete? ==> (Inv(Step(s, op)) <==> s.current != Some(op.id) || s.lastSaved == 0)
  {
    if op.Append? && 0 < op.written < |Pending(s, op)| {
      assert |LogOf(Step(s, op).logs, s.current.value)| == s.lastSaved + op.written;
    }
  }

  /** A write that fails after its first message, tried again, logs that message twice. */
  lemma RetryDuplicates(id: string, a: Message, b: Message, agent: string, now: int)
    ensures var ops := [Create(id), Append([a, b], agent, now, 1), Append([a, b], agent, now, 2)];
            var s := Run(State(map[], None, 0), ops);
            s.current == Some(id) && Contents(LogOf(s.logs, id)) == [a, a, b]
  {
    var e0, e1, e2 := Create(id), Append([a, b], agent, now, 1), Append([a, b], agent, now, 2);
    var first, second := StoredMessage(id, 0, now, a, agent), StoredMessage(id, 1, now, b, agent);
    var s1 := Step(State(map[], None, 0), e0);
    assert Pack(id, [a, b], 0, agent, now) == [first, second];
    hide Pack;
    assert [first, second][..1] == [first];
    var s2 := Step(s1, e1);
    assert s2.logs[id] == [] + [first] == [first];
    var s3 := Step(s2, e2);
    assert s3.logs[id] == [first] + [first, second] == [first, first, second];
    assert Contents(s3.logs[id]) == [a, a, b];
    hide Step; hide Contents;
    RunCons(s2, e2, []);
    RunCons(s1, e1, [e2]);
    RunCons(State(map[], None, 0), e0, [e1, e2]);
    assert [e2] + [] == [e2] && [e1] + [e2] == [e1, e2] && [e0] + [e1, e2] == [e0, e1, e2];
    assert Run(s3, []) == s3;
  }

  lemma RunCons(s: State, op: Op, rest: seq<Op>)
    ensures Run(s, [op] + rest) == Run(Step(s, op), rest)
  {
    assert ([op] + rest)[1..] == rest;
  }

  // ---- The log against the full history ----

  lemma PackContents(id: string, log: Log, history: seq<Message>, agent: string, now: int)
    requires |log| <= |history|
    ensures Contents(log + Pack(id, history, |log|, agent, now)) == Contents(log) + history[|log|..]
  {
  }

  lemma PrefixIff(a: seq<Message>, b: seq<Message>)
    requires |a| <= |b|
    ensures a + b[|a|..] == b <==> a <= b
  {
    if a + b[|a|..] == b {
      assert (a + b[|a|..])[..|a|] == a;
    }
    assert b == b[..|a|] + b[|a|..];
  }

  /** An append leaves the log equal to the whole history exactly when what was logged before is a
      prefix of that history. */
  lemma AppendMatchesIff(s: State, op: Op)
    requires Inv(s) && s.current.Some? && op.Append? && op.written >= |Pending(s, op)|
    ensures var id := s.current.value;
            Contents(LogOf(Step(s, op).logs, id)) == op.history <==> Contents(LogOf(s.logs, id)) <= op.history
  {
    var log := LogOf(s.logs, s.current.value);
    if |op.history| > s.lastSaved {
      PackContents(s.current.value, log, op.history, op.agent, op.now);
      hide Contents; hide Pack; hide WellIndexed;
      PrefixIff(Contents(log), op.history);
    }
  }

  predicate Extending(earlier: seq<Message>, ops: seq<Op>)
    decreases |ops|
  {
    ops == [] || (ops[0].Append? && earlier <= ops[0].history && Extending(ops[0].history, ops[1..]))
  }

  function LastHistory(earlier: seq<Message>, ops: seq<Op>): seq<Message>
    decreases |ops|
  {
    if ops == [] || !ops[0].Append? then earlier else LastHistory(ops[0].history, ops[1..])
  }

  predicate Complete(s: State, ops: seq<Op>)
    decreases |ops|
  {
    ops == [] || (ops[0].Append? && ops[0].written >= |Pending(s, ops[0])| && Complete(Step(s, ops[0]), ops[1..]))
  }

  /** When each saved history extends the previous one, the incremental log is always the latest
      full history. */
  lemma {:induction false} IncrementalEqualsFull(s: State, ops: seq<Op>)
    requires Inv(s) && s.current.Some? && Complete(s, ops)
    requires Extending(Contents(LogOf(s.logs, s.current.value)), ops)
    ensures var id := s.current.value;
            && Run(s, ops).current == Some(id)
            && Contents(LogOf(Run(s, ops).logs, id)) == LastHistory(Contents(LogOf(s.logs, id)), ops)
    decreases |ops|
  {
    if ops != [] {
      var id, t, rest := s.current.value, Step(s, ops[0]), ops[1..];
      AppendMatchesIff(s, ops[0]);
      StepInv(s, ops[0]);
      assert t.current == Some(id);
      hide Step; hide Inv; hide Contents; hide LogOf; hide Pending;
      IncrementalEqualsFull(t, rest);
    }
  }

  /** A loaded session becomes the current one, and what is appended next goes to the end of its log:
      the part of the history beyond what was logged, with position, time and agent. A missing session
      changes nothing. */
  lemma LoadContinues(s: State, id: string, history: seq<Message>, agent: string, now: int)
    ensures var t := Step(s, Load(id));
            var u := Step(t, Append(history, agent, now, |history|));
            if id !in s.logs then t == s
            else
              && t.logs == s.logs && t.current == u.current == Some(id) && t.lastSaved == |s.logs[id]|
              && u.logs.Keys == s.logs.Keys
              && (forall other | other in s.logs && other != id :: u.logs[other] == s.logs[other])
              && s.logs[id] <= u.logs[id]
              && |u.logs[id]| == u.lastSaved == (if |history| > |s.logs[id]| then |history| else |s.logs[id]|)
              && forall k | |s.logs[id]| <= k < |u.logs[id]| ::
                   k < |history| && u.logs[id][k] == StoredMessage(id, k, now, history[k], agent)
  {
  }

  // ---- Fork and isolation ----

  /** A fork starts from an equal log under its own identifier and leaves the original alone. */
  lemma ForkCopies(s: State, id: string, written: nat)
    requires Inv(s) && s.current.Some? && Legal(s, Fork(id, written)) && written >= s.lastSaved
    ensures var t := Step(s, Fork(id, written));
            && t.current == Some(id)
            && Contents(LogOf(t.logs, id)) == Contents(LogOf(s.logs, s.current.value))
            && WellIndexed(LogOf(t.logs, id), id)
            && (forall k | 0 <= k < |t.logs[id]| :: t.logs[id][k] == LogOf(s.logs, s.current.value)[k].(sessionId := id))
            && LogOf(t.logs, s.current.value) == LogOf(s.logs, s.current.value)
  {
    if s.current.value in s.logs {
      assert WellIndexed(s.logs[s.current.value], s.current.value);
    }
  }

  /** A fork whose copy fails half-way leaves the current session and its index alone, and a new session
      behind that holds what was copied. */
  lemma ForkLeavesOrphan(s: State, id: string, written: nat)
    requires Inv(s) && s.current.Some? && Legal(s, Fork(id, written)) && written < s.lastSaved
    ensures var t := Step(s, Fork(id, written));
            && t.current == s.current && t.lastSaved == s.lastSaved
            && id in t.logs && |t.logs[id]| == written
            && (forall k | 0 <= k < written :: t.logs[id][k] == LogOf(s.logs, s.current.value)[k].(sessionId := id))
            && forall other | other in s.logs :: other in t.logs && t.logs[other] == s.logs[other]
  {
  }

  /** A new session is current and empty, and all others are as they were. */
  lemma CreateStarts(s: State, id: string)
    requires Legal(s, Create(id))
    ensures var t := Step(s, Create(id));
            && t.current == Some(id) && t.lastSaved == 0 && t.logs.Keys == s.logs.Keys + {id} && t.logs[id] == []
            && forall other | other in s.logs :: t.logs[other] == s.logs[other]
  {
  }

  /** What one operation appends to session `id`: a whole append made while it is current. */
  function OwnAppend(s: State, op: Op, id: string): Log {
    if op.Append? && s.current == Some(id) && op.written >= |Pending(s, op)| then Pending(s, op) else []
  }

  function OwnAppends(s: State, ops: seq<Op>, id: string): Log
    decreases |ops|
  {
    if ops == [] then [] else OwnAppend(s, ops[0], id) + OwnAppends(Step(s, ops[0]), ops[1..], id)
  }

  predicate NeverDeleted(ops: seq<Op>, id: string) {
    forall i | 0 <= i < |ops| :: ops[i] != Delete(id)
  }

  lemma NeverDeletedTail(ops: seq<Op>, id: string)
    requires ops != [] && NeverDeleted(ops, id)
    ensures ops[0] != Delete(id) && NeverDeleted(ops[1..], id)
  {
  }

  lemma OwnStep(s: State, op: Op, id: string)
    requires Legal(s, op) && id in s.logs && op != Delete(id)
    ensures id in Step(s, op).logs && Step(s, op).logs[id] == s.logs[id] + OwnAppend(s, op, id)
  {
    hide Pack; hide Relabel;
  }

  lemma Regroup(a: Log, b: Log, c: Log)
    ensures (a + b) + c == a + (b + c)
  {
  }

  /** Whatever happens to other sessions, the log of an existing session grows by its own appends
      and by nothing else. */
  lemma {:induction false} OnlyOwnAppends(s: State, ops: seq<Op>, id: string)
    requires IsRun(s, ops) && id in s.logs && NeverDeleted(ops, id)
    ensures id in Run(s, ops).logs
    ensures Run(s, ops).logs[id] == s.logs[id] + OwnAppends(s, ops, id)
    decreases |ops|
  {
    hide Step; hide Legal; hide NeverDeleted; hide OwnAppend;
    if ops != [] {
      var t, rest := Step(s, ops[0]), ops[1..];
      NeverDeletedTail(ops, id);
      OwnStep(s, ops[0], id);
      OnlyOwnAppends(t, rest, id);
      Regroup(s.logs[id], OwnAppend(s, ops[0], id), OwnAppends(t, rest, id));
    } else {
      assert s.logs[id] + [] == s.logs[id];
    }
  }

  lemma ContentsConcat(a: Log, b: Log)
    ensures Contents(a + b) == Contents(a) + Contents(b)
  {
  }

  /** A fork and its origin keep the common beginning for ever, and each has beyond it only what was
      appended to it. */
  lemma ForkIsolation(s: State, fork: string, written: nat, ops: seq<Op>)
    requires Inv(s) && s.current.Some? && s.current.value in s.logs && Legal(s, Fork(fork, written))
    requires written >= s.lastSaved && IsRun(Step(s, Fork(fork, written)), ops)
    requires NeverDeleted(ops, fork) && NeverDeleted(ops, s.current.value)
    ensures var origin, common := s.current.value, Contents(s.logs[s.current.value]);
            var t, u := Step(s, Fork(fork, written)), Run(Step(s, Fork(fork, written)), ops);
            && origin in u.logs && fork in u.logs
            && Contents(u.logs[origin]) == common + Contents(OwnAppends(t, ops, origin))
            && Contents(u.logs[fork]) == common + Contents(OwnAppends(t, ops, fork))
  {
    var t := Step(s, Fork(fork, written));
    ForkCopies(s, fork, written);
    assert fork in t.logs && s.current.value in t.logs;
    assert t.logs[s.current.value] == s.logs[s.current.value];
    hide Step; hide Legal; hide Inv; hide Run; hide IsRun; hide OwnAppends; hide NeverDeleted; hide Contents;
    OnlyOwnAppends(t, ops, fork);
    OnlyOwnAppends(t, ops, s.current.value);
    ContentsConcat(t.logs[fork], OwnAppends(t, ops, fork));
    ContentsConcat(t.logs[s.current.value], OwnAppends(t, ops, s.current.value));
  }

  // ---- The manager object ----

  class Manager {
    var logs: map<string, Log>
    var current: Option<string>
    var lastSavedIndex: nat

    function View(): State
      reads this
    {
      State(logs, current, lastSavedIndex)
    }

    constructor (logs: map<string, Log>)
      ensures View() == State(logs, None, 0)
    {
      this.logs, current, lastSavedIndex := logs, None, 0;
    }

    /** `stored` says whether saving the new session's metadata succeeded. */
    method CreateSession(id: string, stored: bool) returns (ok: bool)
      modifies this
      ensures ok == stored
      ensures View() == if stored then Step(old(View()), Create(id)) else old(View())
    {
      if !stored {
        return false;
      }
      logs := logs[id := LogOf(logs, id)];
      current := Some(id);
      lastSavedIndex := 0;
      return true;
    }

    method LoadSession(id: string) returns (ok: bool, messages: seq<Message>)
      modifies this
      ensures ok <==> id in old(logs)
      ensures ok ==> messages == Contents(old(logs)[id])
      ensures View() == Step(old(View()), Load(id))
    {
      messages := [];
      if id !in logs {
        return false, [];
      }
      var storedMsgs := logs[id];
      for i := 0 to |storedMsgs|
        invariant messages == Contents(storedMsgs[..i]) && View() == old(View())
      {
        messages := messages + [storedMsgs[i].message];
      }
      assert storedMsgs[..|storedMsgs|] == storedMsgs;
      current := Some(id);
      lastSavedIndex := |storedMsgs|;
      return true, messages;
    }

    /** `metadataSaved` says whether the session record could be saved after the messages; when it
        could not, an error is reported although the messages are in the log and the index has moved. */
    method AppendMessages(history: seq<Message>, agent: string, now: int, written: nat, metadataSaved: bool)
      returns (ok: bool)
      modifies this
      ensures var pending := Pending(old(View()), Append(history, agent, now, written));
              ok <==> pending == [] || (written >= |pending| && metadataSaved)
      ensures View() == Step(old(View()), Append(history, agent, now, written))
    {
      if current.None? {
        return true;
      }
      if |history| <= lastSavedIndex {
        return true;
      }
      var id := current.value;
      var stored: Log := [];
      for i := 0 to |history| - lastSavedIndex
        invariant View() == old(View()) && current == Some(id)
        invariant stored == Pack(id, history, lastSavedIndex, agent, now)[..i]
      {
        stored := stored + [StoredMessage(id, lastSavedIndex + i, now, history[lastSavedIndex + i], agent)];
      }
      assert stored == Pack(id, history, lastSavedIndex, agent, now);
      if written < |stored| {
        logs := logs[id := LogOf(logs, id) + stored[..written]];
        return false;
      }
      logs := logs[id := LogOf(logs, id) + stored];
      lastSavedIndex := |history|;
      return metadataSaved;
    }

    /** `stored` says whether the messages could be loaded and the new session saved. */
    method ForkSession(id: string, stored: bool, written: nat) returns (ok: bool)
      modifies this
      ensures ok <==> old(current).Some? && stored && written >= |LogOf(old(logs), old(current).value)|
      ensures View() == if stored then Step(old(View()), Fork(id, written)) else old(View())
    {
      if current.None? || !stored {
        return false;
      }
      var messages := LogOf(logs, current.value);
      var copy: Log := [];
      for i := 0 to |messages|
        invariant copy == Relabel(messages, id)[..i] && View() == old(View())
      {
        copy := copy + [messages[i].(sessionId := id)];
      }
      assert copy == Relabel(messages, id);
      if written < |copy| {
        logs := logs[id := LogOf(logs, id) + copy[..written]];
        return false;
      }
      logs := logs[id := LogOf(logs, id) + copy];
      current := Some(id);
      lastSavedIndex := |messages|;
      return true;
    }

    method DeleteSession(id: string)
      modifies this
      ensures View() == Step(old(View()), Delete(id))
    {
      logs := logs - {id};
    }
  }
}
